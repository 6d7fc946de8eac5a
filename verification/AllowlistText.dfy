/** Reading the allowlist: one `<key>  # <reason>` per line, blank lines and comments aside, every
    reason a real one. */
module AllowlistText {
  import opened Options
  import opened Allowlist

  /** The characters `str.strip` removes. */
  predicate IsSpace(c: char) {
    var n := c as int;
    || 0x09 <= n <= 0x0D || 0x1C <= n <= 0x20 || n == 0x85 || n == 0xA0 || n == 0x1680
    || 0x2000 <= n <= 0x200A || n == 0x2028 || n == 0x2029 || n == 0x202F || n == 0x205F || n == 0x3000
  }

  function StripLeft(s: string): string {
    if s != "" && IsSpace(s[0]) then StripLeft(s[1..]) else s
  }

  function StripRight(s: string): string {
    if s != "" && IsSpace(s[|s|-1]) then StripRight(s[..|s|-1]) else s
  }

  function Strip(s: string): string {
    StripRight(StripLeft(s))
  }

  /** The part before the first `#`, and the part after it; all and nothing without one. */
  function BeforeHash(s: string): string {
    if s == "" || s[0] == '#' then "" else [s[0]] + BeforeHash(s[1..])
  }

  function AfterHash(s: string): string {
    if s == "" then "" else if s[0] == '#' then s[1..] else AfterHash(s[1..])
  }

  const PLACEHOLDERS := {"no reason given", "todo", "tbd", "flaky", "wip", "fixme", "n/a", "na", "none"}

  /** Written, and not merely a placeholder; `fold` is the case folding. */
  predicate IsRealReason(reason: string, fold: string -> string) {
    reason != "" && fold(reason) !in PLACEHOLDERS
  }

  /** What a line says: nothing, or an entry. */
  function Entry(raw: string): Option<Line> {
    var line := Strip(raw);
    if line == "" || line[0] == '#' then None
    else Some(Line(Key(Strip(BeforeHash(line))), Strip(AfterHash(line))))
  }

  predicate Refused(raw: string, fold: string -> string) {
    match Entry(raw) case Some(l) => !IsRealReason(l.reason, fold) case None => false
  }

  function Entries(lines: seq<string>): seq<Line> {
    if lines == [] then [] else (match Entry(lines[0]) case Some(l) => [l] case None => []) + Entries(lines[1..])
  }

  datatype Parsed = Accepted(allowed: Allowed) | Rejected(lineno: nat, key: Key)

  lemma {:induction false} EntriesAppend(a: seq<string>, b: seq<string>)
    ensures Entries(a + b) == Entries(a) + Entries(b)
  {
    if a == [] {
      assert a + b == b;
    } else {
      assert (a + b)[0] == a[0] && (a + b)[1..] == a[1..] + b;
      EntriesAppend(a[1..], b);
    }
  }

  lemma EntriesSnoc(lines: seq<string>, i: nat)
    requires i < |lines|
    ensures Entries(lines[..i+1]) == match Entry(lines[i])
                                     case Some(l) => Entries(lines[..i]) + [l]
                                     case None => Entries(lines[..i])
  {
    assert lines[..i+1] == lines[..i] + [lines[i]];
    EntriesAppend(lines[..i], [lines[i]]);
    assert [lines[i]][1..] == [];
  }

  lemma {:induction false} ReasonsAppend(a: seq<Line>, b: seq<Line>, k: Key)
    ensures ReasonsOf(a + b, k) == ReasonsOf(a, k) + ReasonsOf(b, k)
  {
    if a == [] {
      assert a + b == b;
    } else {
      assert (a + b)[0] == a[0] && (a + b)[1..] == a[1..] + b;
      ReasonsAppend(a[1..], b, k);
    }
  }

  lemma TableGrows(allowed: Allowed, before: seq<Line>, l: Line)
    requires TableOf(allowed, before)
    ensures TableOf(allowed[l.key := Reasons(allowed, l.key) + [l.reason]], before + [l])
  {
    var more := allowed[l.key := Reasons(allowed, l.key) + [l.reason]];
    forall k ensures Reasons(more, k) == ReasonsOf(before + [l], k) {
      ReasonsAppend(before, [l], k);
      assert ReasonsOf([l], k) == if l.key == k then [l.reason] else [];
    }
  }

  /** None of the first `n` lines is refused. */
  predicate NoneRefused(lines: seq<string>, n: nat, fold: string -> string)
    requires n <= |lines|
  {
    forall i | 0 <= i < n :: !Refused(lines[i], fold)
  }

  lemma ParseStep(lines: seq<string>, i: nat, fold: string -> string, allowed: Allowed)
    requires i < |lines| && TableOf(allowed, Entries(lines[..i])) && NoneRefused(lines, i, fold)
    ensures
      match Entry(lines[i])
      case None => TableOf(allowed, Entries(lines[..i+1])) && NoneRefused(lines, i + 1, fold)
      case Some(l) =>
        if IsRealReason(l.reason, fold) then
          NoneRefused(lines, i + 1, fold)
          && TableOf(allowed[l.key := Reasons(allowed, l.key) + [l.reason]], Entries(lines[..i+1]))
        else Refused(lines[i], fold)
  {
    EntriesSnoc(lines, i);
    if Entry(lines[i]).Some? { TableGrows(allowed, Entries(lines[..i]), Entry(lines[i]).value); }
  }

  /** Rejects at the first line whose reason is not real, naming it; otherwise the result is the table
      of all entries, each key with its reasons in order. */
  method Parse(lines: seq<string>, fold: string -> string) returns (r: Parsed)
    ensures r.Accepted? ==> NoneRefused(lines, |lines|, fold) && TableOf(r.allowed, Entries(lines))
    ensures r.Rejected? ==>
      && 1 <= r.lineno <= |lines| && NoneRefused(lines, r.lineno - 1, fold)
      && Refused(lines[r.lineno-1], fold) && Entry(lines[r.lineno-1]).value.key == r.key
  {
    var allowed: Allowed := map[];
    for i := 0 to |lines|
      invariant TableOf(allowed, Entries(lines[..i])) && NoneRefused(lines, i, fold)
    {
      ParseStep(lines, i, fold, allowed);
      var entry := Entry(lines[i]);
      if entry.Some? {
        var key, reason := entry.value.key, entry.value.reason;
        if !IsRealReason(reason, fold) {
          return Rejected(i + 1, key);
        }
        allowed := allowed[key := Reasons(allowed, key) + [reason]];
      }
    }
    assert lines[..|lines|] == lines;
    r := Accepted(allowed);
  }

  // ----- what a line says -----

  predicate Blank(s: string) { forall i | 0 <= i < |s| :: IsSpace(s[i]) }

  predicate Trimmed(s: string) {
    s != "" && !IsSpace(s[0]) && !IsSpace(s[|s|-1])
  }

  lemma {:induction false} StripLeftOf(left: string, s: string)
    requires Blank(left) && (s == "" || !IsSpace(s[0]))
    ensures StripLeft(left + s) == s
  {
    if left == "" { assert left + s == s; } else { StripLeftOf(left[1..], s); assert (left + s)[1..] == left[1..] + s; }
  }

  lemma {:induction false} StripRightOf(s: string, right: string)
    requires Blank(right) && (s == "" || !IsSpace(s[|s|-1]))
    ensures StripRight(s + right) == s
    decreases |right|
  {
    if right == "" {
      assert s + right == s;
    } else {
      StripRightOf(s, right[..|right|-1]);
      assert (s + right)[..|s + right|-1] == s + right[..|right|-1];
    }
  }

  lemma StripAround(left: string, s: string, right: string)
    requires Blank(left) && Blank(right) && (s == "" || Trimmed(s))
    ensures Strip(left + s + right) == s
  {
    if s == "" {
      assert left + s + right == (left + right) + "" && Blank(left + right);
      StripLeftOf(left + right, "");
    } else {
      assert left + s + right == left + (s + right);
      StripLeftOf(left, s + right);
      StripRightOf(s, right);
    }
  }

  predicate Spaced(raw: string, left: string, text: string, right: string) {
    Blank(left) && Blank(right) && raw == left + text + right
  }

  predicate Hashed(raw: string, left: string, key: string, mid: string, after: string, reason: string, right: string) {
    Blank(mid) && Blank(after) && Spaced(raw, left, key + mid + "#" + after + reason, right)
  }

  /** Key, `#` and reason, with any space around them; without a `#` the reason is empty. */
  ghost predicate Says(raw: string, key: string, reason: string) {
    && Trimmed(key) && '#' !in key && (reason == "" || Trimmed(reason))
    && (|| (exists left, mid, after, right :: Hashed(raw, left, key, mid, after, reason, right))
        || (reason == "" && exists left, right :: Spaced(raw, left, key, right)))
  }

  /** An entry is read just as it says. */
  lemma EntryIsRead(raw: string, key: string, reason: string)
    requires Says(raw, key, reason)
    ensures Entry(raw) == Some(Line(Key(key), reason))
  {
    if left, mid, after, right :| Hashed(raw, left, key, mid, after, reason, right) {
      if reason == "" { EmptyReason(raw, left, key, mid, after, right); }
      else { WrittenReason(raw, left, key, mid, after, reason, right); }
    } else {
      var left, right :| Spaced(raw, left, key, right);
      KeyAlone(raw, left, key, right);
    }
  }

  lemma KeyAlone(raw: string, left: string, key: string, right: string)
    requires Spaced(raw, left, key, right) && Trimmed(key) && '#' !in key
    ensures Entry(raw) == Some(Line(Key(key), ""))
  {
    assert key[0] in key;
    StripAround(left, key, right);
    NoHash(key);
    StripAround("", key, "");
    assert "" + key + "" == key;
  }

  lemma EmptyReason(raw: string, left: string, key: string, mid: string, after: string, right: string)
    requires Hashed(raw, left, key, mid, after, "", right) && Trimmed(key) && '#' !in key
    ensures Entry(raw) == Some(Line(Key(key), ""))
  {
    var line := key + mid + "#";
    assert raw == left + line + (after + right) && Blank(after + right) && Trimmed(line);
    StripAround(left, line, after + right);
    Halves(line, key, mid, "");
    StripAround("", "", "");
  }

  lemma WrittenReason(raw: string, left: string, key: string, mid: string, after: string, reason: string, right: string)
    requires Hashed(raw, left, key, mid, after, reason, right) && Trimmed(key) && '#' !in key && Trimmed(reason)
    ensures Entry(raw) == Some(Line(Key(key), reason))
  {
    var line := key + mid + "#" + after + reason;
    assert Trimmed(line);
    StripAround(left, line, right);
    Halves(line, key, mid, after + reason);
    StripAround(after, reason, "");
    assert after + reason + "" == after + reason;
  }

  lemma Halves(line: string, key: string, mid: string, tail: string)
    requires line == key + mid + "#" + tail && Trimmed(key) && '#' !in key && Blank(mid)
    ensures Strip(BeforeHash(line)) == key && AfterHash(line) == tail && line[0] == key[0] && line[0] != '#'
  {
    assert '#' !in key + mid;
    SplitAtHash(key + mid, tail);
    StripAround("", key, mid);
    assert "" + key + mid == key + mid && key[0] in key;
  }

  lemma {:induction false} NoHash(s: string)
    requires '#' !in s
    ensures BeforeHash(s) == s && AfterHash(s) == ""
  {
    if s != "" { NoHash(s[1..]); }
  }

  /** Blank lines, and lines that start with `#` but for space, say nothing. */
  lemma NothingIsRead(left: string, rest: string)
    requires Blank(left) && (rest == "" || rest[0] == '#')
    ensures Entry(left + rest) == None
  {
    StripLeftOf(left, rest);
    if rest == "" { assert left + rest == left; } else { StripRightKeeps(rest); }
  }

  /** An entry is refused exactly if its reason is missing or, case folded, one of the placeholders. */
  lemma RefusedExactly(raw: string, key: string, reason: string, fold: string -> string)
    requires Says(raw, key, reason)
    ensures
      var placeholders := {"no reason given", "todo", "tbd", "flaky", "wip", "fixme", "n/a", "na", "none"};
      Refused(raw, fold) <==> reason == "" || fold(reason) in placeholders
  {
    EntryIsRead(raw, key, reason);
  }

  // ----- printing -----

  /** An entry as it can be written down: a trimmed key without `#`, a trimmed real reason. */
  predicate Printable(l: Line, fold: string -> string) {
    Trimmed(l.key.text) && '#' !in l.key.text && Trimmed(l.reason) && IsRealReason(l.reason, fold)
  }

  function Print(l: Line): string {
    l.key.text + "  # " + l.reason
  }

  function PrintAll(ls: seq<Line>): seq<string> {
    seq(|ls|, i requires 0 <= i < |ls| => Print(ls[i]))
  }

  lemma StripTrimmed(s: string)
    requires Trimmed(s)
    ensures Strip(s) == s && Strip(s + "  ") == s && Strip(" " + s) == s
  {
    assert (" " + s)[1..] == s;
    assert (s + "  ")[..|s|+1] == s + " " && (s + " ")[..|s|] == s;
    assert StripRight(s + " ") == StripRight(s);
  }

  lemma {:induction false} SplitAtHash(a: string, b: string)
    requires '#' !in a
    ensures BeforeHash(a + "#" + b) == a && AfterHash(a + "#" + b) == b
  {
    var s := a + "#" + b;
    if a == "" {
      assert s[1..] == b;
    } else {
      assert s[0] == a[0] && s[1..] == a[1..] + "#" + b;
      SplitAtHash(a[1..], b);
    }
  }

  /** A printed entry reads back as itself. */
  lemma PrintedIsRead(l: Line, fold: string -> string)
    requires Printable(l, fold)
    ensures Entry(Print(l)) == Some(l) && !Refused(Print(l), fold)
  {
    var k, s := l.key.text, Print(l);
    assert Trimmed(s);
    StripTrimmed(s);
    StripTrimmed(k);
    StripTrimmed(l.reason);
    assert s == (k + "  ") + "#" + (" " + l.reason);
    SplitAtHash(k + "  ", " " + l.reason);
    assert s[0] == k[0] && k[0] in k;
  }

  /** Round trip: whatever entries are printed, in whatever order, are what is read. */
  lemma {:induction false} PrintedAreRead(ls: seq<Line>, fold: string -> string)
    requires forall l | l in ls :: Printable(l, fold)
    ensures Entries(PrintAll(ls)) == ls
    ensures NoneRefused(PrintAll(ls), |ls|, fold)
  {
    if ls != [] {
      PrintedIsRead(ls[0], fold);
      PrintedAreRead(ls[1..], fold);
      assert PrintAll(ls)[1..] == PrintAll(ls[1..]);
      forall i | 0 <= i < |ls| ensures !Refused(PrintAll(ls)[i], fold) {
        PrintedIsRead(ls[i], fold);
      }
    }
  }

  method RoundTrip(ls: seq<Line>, fold: string -> string) returns (allowed: Allowed)
    requires forall l | l in ls :: Printable(l, fold)
    ensures TableOf(allowed, ls)
  {
    PrintedAreRead(ls, fold);
    var r := Parse(PrintAll(ls), fold);
    allowed := r.allowed;
  }

  // ----- the loader of the session auditor -----

  /** A line that is not a comment always has a key: the guard against an empty one never fires. */
  lemma KeyIsNeverEmpty(raw: string)
    ensures Entry(raw).Some? ==> Entry(raw).value.key.text != ""
  {
    var line := Strip(raw);
    StripLeftStarts(raw);
    StripRightKeeps(StripLeft(raw));
    if Entry(raw).Some? {
      assert BeforeHash(line)[0] == line[0] && !IsSpace(line[0]);
      StripRightKeeps(BeforeHash(line));
      assert StripLeft(BeforeHash(line)) == BeforeHash(line);
    }
  }

  lemma {:induction false} StripLeftStarts(s: string)
    ensures StripLeft(s) != "" ==> !IsSpace(StripLeft(s)[0])
  {
    if s != "" && IsSpace(s[0]) { StripLeftStarts(s[1..]); }
  }

  lemma {:induction false} StripRightKeeps(s: string)
    ensures s != "" && !IsSpace(s[0]) ==> StripRight(s) != "" && StripRight(s)[0] == s[0]
    ensures StripRight(s) != "" ==> s != "" && StripRight(s)[0] == s[0]
    decreases |s|
  {
    if s != "" && IsSpace(s[|s|-1]) { StripRightKeeps(s[..|s|-1]); }
  }

  /** `load_allowlist` of the session auditor: the same table, but nothing is rejected. */
  method LoadUnchecked(lines: seq<string>) returns (allowed: Allowed)
    ensures TableOf(allowed, Entries(lines))
  {
    allowed := map[];
    for i := 0 to |lines|
      invariant TableOf(allowed, Entries(lines[..i]))
    {
      EntriesSnoc(lines, i);
      KeyIsNeverEmpty(lines[i]);
      var entry := Entry(lines[i]);
      if entry.Some? && entry.value.key.text != "" {
        var key, reason := entry.value.key, entry.value.reason;
        TableGrows(allowed, Entries(lines[..i]), entry.value);
        allowed := allowed[key := Reasons(allowed, key) + [reason]];
      }
    }
    assert lines[..|lines|] == lines;
  }
}
