/** The wildcard string domain of the route auditor: what strings a URL expression can hold, with a
    wildcard character for every piece that could not be resolved. */
module UrlStrings {

  const WILD := '\0'

  const EXPAND_CAP: nat := 32

  // ----- templates and what they stand for -----

  /** The text is the template with every wildcard replaced by some string free of banned characters. */
  ghost predicate Fills(t: string, s: string, banned: set<char>)
    decreases |t|
  {
    if t == "" then s == ""
    else if t[0] == WILD then exists k: nat :: k <= |s| && Avoids(s[..k], banned) && Fills(t[1..], s[k..], banned)
    else s != "" && s[0] == t[0] && Fills(t[1..], s[1..], banned)
  }

  predicate Avoids(s: string, banned: set<char>) {
    forall i :: 0 <= i < |s| ==> s[i] !in banned
  }

  lemma WildTakes(w: string, t: string, s: string, banned: set<char>)
    requires Avoids(w, banned) && Fills(t, s, banned)
    ensures Fills([WILD] + t, w + s, banned)
  {
    assert ([WILD] + t)[1..] == t && (w + s)[..|w|] == w && (w + s)[|w|..] == s;
  }

  lemma WildJoin(t1: string, s1: string, t2: string, s2: string, k: nat, banned: set<char>)
    requires t1 != "" && t1[0] == WILD && k <= |s1| && Avoids(s1[..k], banned) && Fills(t1[1..] + t2, s1[k..] + s2, banned)
    ensures Fills(t1 + t2, s1 + s2, banned)
  {
    WildTakes(s1[..k], t1[1..] + t2, s1[k..] + s2, banned);
    Reassociate([WILD], t1[1..], t2, t1);
    Reassociate(s1[..k], s1[k..], s2, s1);
  }

  lemma LetterJoin(t1: string, s1: string, t2: string, s2: string, banned: set<char>)
    requires t1 != "" && t1[0] != WILD && s1 != "" && s1[0] == t1[0] && Fills(t1[1..] + t2, s1[1..] + s2, banned)
    ensures Fills(t1 + t2, s1 + s2, banned)
  {
    TailOfJoin(t1, t2);
    TailOfJoin(s1, s2);
  }

  lemma {:induction false} FillsJoin(t1: string, s1: string, t2: string, s2: string, banned: set<char>)
    requires Fills(t1, s1, banned) && Fills(t2, s2, banned)
    ensures Fills(t1 + t2, s1 + s2, banned)
    decreases |t1|
  {
    if t1 == "" {
      assert t1 + t2 == t2 && s1 + s2 == s2;
    } else if t1[0] == WILD {
      var k: nat :| k <= |s1| && Avoids(s1[..k], banned) && Fills(t1[1..], s1[k..], banned);
      FillsJoin(t1[1..], s1[k..], t2, s2, banned);
      WildJoin(t1, s1, t2, s2, k, banned);
    } else {
      FillsJoin(t1[1..], s1[1..], t2, s2, banned);
      LetterJoin(t1, s1, t2, s2, banned);
    }
  }

  lemma Reassociate(a: string, b: string, c: string, ab: string)
    requires a + b == ab
    ensures a + (b + c) == ab + c
  {
  }

  lemma TailOfJoin(a: string, b: string)
    requires a != ""
    ensures (a + b)[1..] == a[1..] + b && (a + b)[0] == a[0]
  {
  }

  lemma {:induction false} FillsItself(t: string)
    ensures Fills(t, t, {})
  {
    if t != "" {
      FillsItself(t[1..]);
      if t[0] == WILD { assert Avoids(t[..1], {}); }
    }
  }

  lemma WildIsAny(s: string)
    ensures Fills([WILD], s, {})
  {
    assert [WILD][1..] == "" && s[..|s|] == s && s[|s|..] == "";
    assert Avoids(s[..|s|], {}) && Fills("", s[|s|..], {});
  }

  lemma {:induction false} PlainFillsOnlyItself(t: string, s: string, banned: set<char>)
    requires WILD !in t
    ensures Fills(t, s, banned) <==> s == t
  {
    if t != "" {
      assert t[0] != WILD;
      if s != "" { PlainFillsOnlyItself(t[1..], s[1..], banned); }
    }
  }

  // ----- products of alternatives -----

  function Flat(pieces: seq<string>): string {
    if pieces == [] then "" else Flat(pieces[..|pieces|-1]) + pieces[|pieces|-1]
  }

  lemma FlatIsConcatenation(init: seq<string>, last: string)
    ensures Flat([last]) == last && Flat(init + [last]) == Flat(init) + last
  {
    assert (init + [last])[..|init|] == init && [last][..0] == [];
    assert Flat([]) + last == last;
  }

  /** One alternative taken from each piece. */
  ghost predicate Chosen(choice: seq<string>, pieces: seq<set<string>>) {
    |choice| == |pieces| && forall i :: 0 <= i < |pieces| ==> choice[i] in pieces[i]
  }

  function Append(out: set<string>, alternatives: set<string>): set<string> {
    set a, b | a in out && b in alternatives :: a + b
  }

  function Products(pieces: seq<set<string>>): set<string> {
    if pieces == [] then {""} else Append(Products(pieces[..|pieces|-1]), pieces[|pieces|-1])
  }

  function Total(pieces: seq<set<string>>): nat {
    if pieces == [] then 1 else Total(pieces[..|pieces|-1]) * |pieces[|pieces|-1]|
  }

  function Collapsed(pieces: seq<set<string>>): seq<set<string>> {
    seq(|pieces|, i requires 0 <= i < |pieces| => if |pieces[i]| == 1 then pieces[i] else {[WILD]})
  }

  /** The templates a sequence of pieces expands to, under the cap. */
  function Capped(pieces: seq<set<string>>): set<string> {
    Products(if Total(pieces) > EXPAND_CAP then Collapsed(pieces) else pieces)
  }

  /** The products are the concatenations of one alternative a piece, all of them and no others. */
  lemma {:induction false} ProductsExactly(pieces: seq<set<string>>, t: string)
    ensures t in Products(pieces) <==> exists choice :: Chosen(choice, pieces) && t == Flat(choice)
  {
    if pieces == [] {
      if t == "" { assert Chosen([], pieces) && Flat([]) == t; }
    } else {
      var n := |pieces| - 1;
      if t in Products(pieces) {
        var a, b :| a in Products(pieces[..n]) && b in pieces[n] && t == a + b;
        ProductsExactly(pieces[..n], a);
        var init :| Chosen(init, pieces[..n]) && a == Flat(init);
        ChosenGrows(pieces, init, b);
        assert t == Flat(init + [b]);
      }
      if choice :| Chosen(choice, pieces) && t == Flat(choice) {
        assert Chosen(choice[..n], pieces[..n]);
        ProductsExactly(pieces[..n], Flat(choice[..n]));
        InAppend(Products(pieces[..n]), pieces[n], Flat(choice[..n]), choice[n]);
      }
    }
  }

  lemma ChosenGrows(pieces: seq<set<string>>, init: seq<string>, b: string)
    requires pieces != [] && Chosen(init, pieces[..|pieces|-1]) && b in pieces[|pieces|-1]
    ensures Chosen(init + [b], pieces) && Flat(init + [b]) == Flat(init) + b
  {
    assert (init + [b])[..|init|] == init;
    forall i | 0 <= i < |pieces| ensures (init + [b])[i] in pieces[i] {
      if i < |init| { assert init[i] in pieces[..|pieces|-1][i]; }
    }
  }

  lemma InAppend(out: set<string>, alternatives: set<string>, a: string, b: string)
    requires a in out && b in alternatives
    ensures a + b in Append(out, alternatives)
  {
  }

  lemma {:induction false} AppendBound(out: set<string>, alternatives: set<string>)
    ensures |Append(out, alternatives)| <= |out| * |alternatives|
    decreases |out|
  {
    if out == {} {
      assert Append(out, alternatives) == {};
    } else {
      var a :| a in out;
      var rest := out - {a};
      AppendBound(rest, alternatives);
      AppendSplits(out, a, alternatives);
      ImageBound(a, alternatives);
      assert |out| * |alternatives| == |rest| * |alternatives| + |alternatives|;
    }
  }

  lemma AppendSplits(out: set<string>, a: string, alternatives: set<string>)
    requires a in out
    ensures Append(out, alternatives) == Append(out - {a}, alternatives) + set b | b in alternatives :: a + b
  {
  }

  lemma {:induction false} ImageBound(a: string, alternatives: set<string>)
    ensures |set b | b in alternatives :: a + b| <= |alternatives|
    decreases |alternatives|
  {
    if alternatives != {} {
      var x :| x in alternatives;
      var rest := alternatives - {x};
      ImageBound(a, rest);
      assert (set b | b in alternatives :: a + b) == (set b | b in rest :: a + b) + {a + x};
    }
  }

  lemma {:induction false} ProductsBound(pieces: seq<set<string>>)
    ensures |Products(pieces)| <= Total(pieces)
  {
    if pieces != [] {
      var n := |pieces| - 1;
      ProductsBound(pieces[..n]);
      AppendBound(Products(pieces[..n]), pieces[n]);
      Scale(|Products(pieces[..n])|, Total(pieces[..n]), |pieces[n]|);
    }
  }

  lemma Scale(a: nat, b: nat, c: nat)
    requires a <= b
    ensures a * c <= b * c
  {
  }

  lemma {:induction false} SinglesTotalOne(pieces: seq<set<string>>)
    requires forall i :: 0 <= i < |pieces| ==> |pieces[i]| == 1
    ensures Total(pieces) == 1
  {
    if pieces != [] { SinglesTotalOne(pieces[..|pieces|-1]); }
  }

  /** However many the alternatives, at most the cap's worth of templates comes out. */
  lemma NeverMoreThanCap(pieces: seq<set<string>>)
    ensures |Capped(pieces)| <= EXPAND_CAP
  {
    if Total(pieces) > EXPAND_CAP {
      SinglesTotalOne(Collapsed(pieces));
      ProductsBound(Collapsed(pieces));
    } else {
      ProductsBound(pieces);
    }
  }

  /** All ways to take one alternative from each piece. */
  ghost function Choices(pieces: seq<set<string>>): set<seq<string>> {
    if pieces == [] then {[]} else Extended(Choices(pieces[..|pieces|-1]), pieces[|pieces|-1])
  }

  ghost function Extended(inits: set<seq<string>>, last: set<string>): set<seq<string>> {
    set c, x | c in inits && x in last :: c + [x]
  }

  lemma {:induction false} ChoicesAre(pieces: seq<set<string>>, choice: seq<string>)
    ensures choice in Choices(pieces) <==> Chosen(choice, pieces)
  {
    if pieces != [] {
      var n := |pieces| - 1;
      if choice in Choices(pieces) {
        var c, x :| c in Choices(pieces[..n]) && x in pieces[n] && choice == c + [x];
        ChoicesAre(pieces[..n], c);
        ChosenGrows(pieces, c, x);
      }
      if Chosen(choice, pieces) {
        ChoicesAre(pieces[..n], choice[..n]);
        assert choice == choice[..n] + [choice[n]];
      }
    }
  }

  ghost function Ending(inits: set<seq<string>>, x: string): set<seq<string>> {
    set c | c in inits :: c + [x]
  }

  lemma ExtendedSplits(inits: set<seq<string>>, last: set<string>, x: string)
    requires x in last
    ensures Extended(inits, last) == Extended(inits, last - {x}) + Ending(inits, x)
  {
  }

  lemma EndingsDiffer(inits: set<seq<string>>, rest: set<string>, x: string)
    requires x !in rest
    ensures Extended(inits, rest) !! Ending(inits, x)
  {
    forall e | e in Extended(inits, rest) ensures e !in Ending(inits, x) {
      assert e != [] && e[|e|-1] in rest;
    }
  }

  lemma OneMoreTime(n: nat, k: nat, less: nat)
    requires k == less + 1
    ensures n * k == n * less + n
  {
  }

  lemma DisjointCount<T>(all: set<T>, a: set<T>, b: set<T>)
    requires all == a + b && a !! b
    ensures |all| == |a| + |b|
  {
  }

  lemma {:induction false} ExtendedCount(inits: set<seq<string>>, last: set<string>)
    ensures |Extended(inits, last)| == |inits| * |last|
    decreases |last|
  {
    if last == {} {
      assert Extended(inits, last) == {};
    } else {
      var x :| x in last;
      ExtendedCount(inits, last - {x});
      EndingCount(inits, x);
      ExtendedSplits(inits, last, x);
      EndingsDiffer(inits, last - {x}, x);
      DisjointCount(Extended(inits, last), Extended(inits, last - {x}), Ending(inits, x));
      OneMoreTime(|inits|, |last|, |last - {x}|);
    }
  }

  lemma {:induction false} EndingCount(inits: set<seq<string>>, x: string)
    ensures |Ending(inits, x)| == |inits|
    decreases |inits|
  {
    if inits != {} {
      var c :| c in inits;
      EndingCount(inits - {c}, x);
      assert Ending(inits, x) == Ending(inits - {c}, x) + {c + [x]};
      forall d | d in inits - {c} ensures d + [x] != c + [x] { assert (d + [x])[..|d|] == d && (c + [x])[..|c|] == c; }
    }
  }

  /** What is compared with the cap is the number of ways to choose. */
  lemma {:induction false} TotalCounts(pieces: seq<set<string>>)
    ensures Total(pieces) == |Choices(pieces)|
  {
    if pieces != [] {
      TotalCounts(pieces[..|pieces|-1]);
      ExtendedCount(Choices(pieces[..|pieces|-1]), pieces[|pieces|-1]);
    }
  }

  /** Each piece takes one of its alternatives, or, if it has several, a wildcard instead. */
  ghost predicate ChosenCoarsely(choice: seq<string>, pieces: seq<set<string>>) {
    |choice| == |pieces|
    && forall i :: 0 <= i < |pieces| ==> if |pieces[i]| == 1 then choice[i] in pieces[i] else choice[i] == [WILD]
  }

  /** Up to 32 ways to choose, the templates are what they concatenate to; beyond, a piece with one
      alternative keeps its text and every other becomes a wildcard. */
  lemma CappedExactly(pieces: seq<set<string>>, t: string)
    ensures |Choices(pieces)| <= 32 ==> (t in Capped(pieces) <==> exists choice :: Chosen(choice, pieces) && t == Flat(choice))
    ensures |Choices(pieces)| > 32 ==> (t in Capped(pieces) <==> exists choice :: ChosenCoarsely(choice, pieces) && t == Flat(choice))
  {
    TotalCounts(pieces);
    if Total(pieces) > EXPAND_CAP {
      ProductsExactly(Collapsed(pieces), t);
      forall choice ensures Chosen(choice, Collapsed(pieces)) <==> ChosenCoarsely(choice, pieces) { CoarseChoice(choice, pieces); }
    } else {
      ProductsExactly(pieces, t);
    }
  }

  lemma CoarseChoice(choice: seq<string>, pieces: seq<set<string>>)
    ensures Chosen(choice, Collapsed(pieces)) <==> ChosenCoarsely(choice, pieces)
  {
    var coarse := Collapsed(pieces);
    if ChosenCoarsely(choice, pieces) {
      forall i | 0 <= i < |coarse| ensures choice[i] in coarse[i] { }
    }
    if Chosen(choice, coarse) {
      forall i | 0 <= i < |pieces| ensures if |pieces[i]| == 1 then choice[i] in pieces[i] else choice[i] == [WILD] {
        assert choice[i] in coarse[i];
      }
    }
  }

  /** Each value is an instance of one of its piece's alternatives. */
  ghost predicate Covers(pieces: seq<set<string>>, values: seq<string>) {
    |pieces| == |values| && forall i :: 0 <= i < |pieces| ==> Covered(pieces[i], values[i])
  }

  ghost predicate Covered(templates: set<string>, s: string) {
    exists t :: t in templates && Fills(t, s, {})
  }

  lemma {:induction false} ProductsCover(pieces: seq<set<string>>, values: seq<string>)
    requires Covers(pieces, values)
    ensures Covered(Products(pieces), Flat(values))
  {
    if pieces != [] {
      var n := |pieces| - 1;
      ProductsCover(pieces[..n], values[..n]);
      var a :| a in Products(pieces[..n]) && Fills(a, Flat(values[..n]), {});
      assert Covered(pieces[n], values[n]);
      var b :| b in pieces[n] && Fills(b, values[n], {});
      FillsJoin(a, Flat(values[..n]), b, values[n], {});
      assert a + b in Products(pieces);
    } else {
      assert "" in Products(pieces) && Fills("", "", {});
    }
  }

  /** With or without the cap, no text the pieces can form is missed. */
  lemma CappedCovers(pieces: seq<set<string>>, values: seq<string>)
    requires Covers(pieces, values)
    ensures Covered(Capped(pieces), Flat(values))
  {
    if Total(pieces) > EXPAND_CAP {
      var coarse := Collapsed(pieces);
      forall i | 0 <= i < |pieces| ensures Covered(coarse[i], values[i]) {
        assert Covered(pieces[i], values[i]);
        if |pieces[i]| != 1 { WildIsAny(values[i]); assert [WILD] in coarse[i]; }
      }
      ProductsCover(coarse, values);
    } else {
      ProductsCover(pieces, values);
    }
  }

  // ----- str.format -----

  predicate IsBrace(c: char) { c == '{' || c == '}' }

  /** How many characters come before the first brace. */
  function Run(t: string): (n: nat)
    ensures n <= |t| && (n < |t| ==> IsBrace(t[n]))
    ensures forall i :: 0 <= i < n ==> !IsBrace(t[i])
  {
    if t == "" || IsBrace(t[0]) then 0 else 1 + Run(t[1..])
  }

  /** The text opens with a brace pair that has no brace inside. */
  predicate OpensField(t: string) {
    t != "" && t[0] == '{' && 1 + Run(t[1..]) < |t| && t[1 + Run(t[1..])] == '}'
  }

  function AfterField(t: string): (rest: string)
    requires OpensField(t)
    ensures |rest| < |t|
  {
    t[2 + Run(t[1..])..]
  }

  /** The auditor's substitution: every innermost brace pair becomes a wildcard. */
  function FieldsToWild(t: string): string
    decreases |t|
  {
    if t == "" then ""
    else if OpensField(t) then [WILD] + FieldsToWild(AfterField(t))
    else [t[0]] + FieldsToWild(t[1..])
  }

  predicate NoBraces(s: string) { forall i | 0 <= i < |s| :: !IsBrace(s[i]) }

  /** No brace pair without a brace inside starts anywhere in the text. */
  predicate NoPair(t: string) {
    forall i, j | 0 <= i < j < |t| && t[i] == '{' && t[j] == '}' :: !NoBraces(t[i+1..j])
  }

  lemma {:induction false} RunOf(a: string, rest: string)
    requires NoBraces(a) && (rest == "" || IsBrace(rest[0]))
    ensures Run(a + rest) == |a|
  {
    if a == "" { assert a + rest == rest; } else { RunOf(a[1..], rest); assert (a + rest)[1..] == a[1..] + rest; }
  }

  lemma PairOpens(t: string)
    requires OpensField(t)
    ensures !NoPair(t)
  {
    var j := 1 + Run(t[1..]);
    assert NoBraces(t[1..j]);
  }

  lemma {:induction false} PairsKept(t: string)
    requires NoPair(t)
    ensures FieldsToWild(t) == t
  {
    if t != "" {
      if OpensField(t) { PairOpens(t); }
      NoPairTail(t);
      PairsKept(t[1..]);
    }
  }

  /** The substitution goes from left to right: the first innermost brace pair becomes a wildcard, the text
      before it stays, and the rest is treated likewise; text without such a pair stays as it is. */
  lemma {:induction false} FirstFieldReplaced(before: string, name: string, rest: string)
    requires NoPair(before) && NoBraces(name)
    ensures FieldsToWild(before) == before
    ensures FieldsToWild(before + ("{" + name + "}") + rest) == before + [WILD] + FieldsToWild(rest)
    decreases |before|
  {
    PairsKept(before);
    if before == "" {
      FieldFirst(name, rest);
      assert before + ("{" + name + "}") + rest == "{" + name + "}" + rest;
      assert before + [WILD] + FieldsToWild(rest) == [WILD] + FieldsToWild(rest);
    } else {
      NoPairTail(before);
      FirstFieldReplaced(before[1..], name, rest);
      var field := "{" + name + "}";
      var next := before[1..] + field + rest;
      FrontFirst(before, field, rest);
      FrontFirst(before, [WILD], FieldsToWild(rest));
      if before[0] == '{' {
        assert "{" + before[1..] == before && before[1..] + (field + rest) == next;
        StrayStays(before[1..], field + rest, [before[0]] + next);
      }
      CharFirst(before[0], next);
    }
  }

  lemma FieldFirst(name: string, rest: string)
    requires NoBraces(name)
    ensures FieldsToWild("{" + name + "}" + rest) == [WILD] + FieldsToWild(rest)
  {
    var t, tail := "{" + name + "}" + rest, "}" + rest;
    assert t[1..] == name + tail;
    RunOf(name, tail);
    assert AfterField(t) == rest;
  }

  lemma CharFirst(c: char, u: string)
    requires !OpensField([c] + u)
    ensures FieldsToWild([c] + u) == [c] + FieldsToWild(u)
  {
    assert ([c] + u)[1..] == u;
  }

  lemma FrontFirst(before: string, middle: string, rest: string)
    requires before != ""
    ensures [before[0]] + (before[1..] + middle + rest) == before + middle + rest
  {
  }

  lemma NoPairTail(t: string)
    requires t != "" && NoPair(t)
    ensures NoPair(t[1..])
  {
    forall i, j | 0 <= i < j < |t[1..]| && t[1..][i] == '{' && t[1..][j] == '}' ensures !NoBraces(t[1..][i+1..j]) {
      assert t[1..][i+1..j] == t[i+2..j+1] && t[i+1] == '{' && t[j+1] == '}';
    }
  }

  lemma NoCloser(inner: string, n: nat)
    requires NoPair("{" + inner) && n < |inner| && NoBraces(inner[..n])
    ensures inner[n] != '}'
  {
    var u := "{" + inner;
    assert u[0] == '{' && u[n+1] == inner[n] && u[1..n+1] == inner[..n];
    assert NoBraces(u[0+1..n+1]);
  }

  lemma StrayStays(inner: string, after: string, t: string)
    requires NoPair("{" + inner) && after != "" && after[0] == '{' && t == "{" + (inner + after)
    ensures !OpensField(t)
  {
    var joined := inner + after;
    var n := Run(joined);
    assert t[1..] == joined && joined[|inner|] == '{';
    assert n <= |inner|;
    assert inner[..n] == joined[..n];
    if n < |inner| { NoCloser(inner, n); }
    assert t[1 + n] == joined[n];
  }

  /** Format strings Python accepts and whose fields hold no nested field. */
  predicate Formattable(t: string)
    decreases |t|
  {
    t == ""
    || (t[0] == '{' && |t| > 1 && t[1] == '{' && Formattable(t[2..]))
    || (t[0] == '}' && |t| > 1 && t[1] == '}' && Formattable(t[2..]))
    || (OpensField(t) && Formattable(AfterField(t)))
    || (!IsBrace(t[0]) && Formattable(t[1..]))
  }

  /** What `t.format(...)` can return: a doubled brace is one brace, a field is any text. */
  ghost predicate FormatsTo(t: string, s: string)
    requires Formattable(t)
    decreases |t|
  {
    if t == "" then s == ""
    else if OpensField(t) then exists k: nat :: k <= |s| && FormatsTo(AfterField(t), s[k..])
    else
      s != "" && s[0] == t[0] && FormatsTo(if IsBrace(t[0]) then t[2..] else t[1..], s[1..])
  }

  /** Every doubled brace belongs to a `{{...}}` group with no brace in between. */
  predicate Paired(t: string)
    decreases |t|
  {
    t == ""
    || (OpensField(t) && Paired(AfterField(t)))
    || (!IsBrace(t[0]) && Paired(t[1..]))
    || (OpensGroup(t) && Paired(AfterGroup(t)))
  }

  predicate OpensGroup(t: string) {
    && |t| > 1 && t[0] == '{' && OpensField(t[1..])
    && AfterField(t[1..]) != "" && AfterField(t[1..])[0] == '}'
  }

  function AfterGroup(t: string): (rest: string)
    requires OpensGroup(t)
    ensures |rest| < |t|
  {
    AfterField(t[1..])[1..]
  }

  ghost predicate FormatIsCovered(t: string)
    requires Formattable(t)
  {
    forall s :: FormatsTo(t, s) ==> Fills(FieldsToWild(t), s, {})
  }

  function Braces(s: string): nat {
    if s == "" then 0 else (if IsBrace(s[0]) then 1 else 0) + Braces(s[1..])
  }

  lemma {:induction false} BracesJoin(a: string, b: string)
    ensures Braces(a + b) == Braces(a) + Braces(b)
  {
    if a == "" { assert a + b == b; } else { BracesJoin(a[1..], b); assert (a + b)[1..] == a[1..] + b; }
  }

  lemma {:induction false} FillKeepsBraces(t: string, s: string)
    requires Fills(t, s, {})
    ensures Braces(t) <= Braces(s)
    decreases |t|
  {
    if t != "" {
      if t[0] == WILD {
        var k: nat :| k <= |s| && Avoids(s[..k], {}) && Fills(t[1..], s[k..], {});
        FillKeepsBraces(t[1..], s[k..]);
        BracesJoin(s[..k], s[k..]);
        assert s[..k] + s[k..] == s;
      } else {
        FillKeepsBraces(t[1..], s[1..]);
      }
    }
  }

  /** The result of formatting with every field empty. */
  function Emptied(t: string): string
    requires Formattable(t)
    decreases |t|
  {
    if t == "" then ""
    else if OpensField(t) then Emptied(AfterField(t))
    else [t[0]] + Emptied(if IsBrace(t[0]) then t[2..] else t[1..])
  }

  lemma {:induction false} EmptiedIsResult(t: string)
    requires Formattable(t)
    ensures FormatsTo(t, Emptied(t))
    decreases |t|
  {
    if t != "" {
      if OpensField(t) {
        EmptiedIsResult(AfterField(t));
        assert Emptied(t)[0..] == Emptied(t);
      } else {
        EmptiedIsResult(if IsBrace(t[0]) then t[2..] else t[1..]);
      }
    }
  }

  /** After a doubled brace the group, if there is one, ends in a doubled brace of the accepted string. */
  lemma {:induction false} RunIsFormattable(t: string)
    requires Formattable(t)
    ensures Formattable(t[Run(t)..])
    decreases |t|
  {
    if t == "" || IsBrace(t[0]) {
      assert t[0..] == t;
    } else {
      RunIsFormattable(t[1..]);
      assert t[1..][Run(t[1..])..] == t[Run(t)..];
    }
  }

  lemma DoubledBrace(t: string)
    requires Formattable(t) && |t| > 1 && t[0] == '{' && t[1] == '{' && OpensField(t[1..])
    ensures OpensGroup(t) && Formattable(AfterGroup(t))
  {
    var inner := t[2..];
    assert t[1..][1..] == inner;
    assert Run(t[1..]) == 0;
    RunIsFormattable(inner);
    var close := inner[Run(inner)..];
    assert close[0] == '}';
    assert AfterField(t[1..]) == close[1..];
    assert close[2..] == AfterGroup(t);
  }

  lemma FirstOfRun(t: string, n: nat, rest: string)
    requires 0 < n <= |t|
    ensures [t[0]] + (t[1..][..n-1] + rest) == t[..n] + rest
  {
  }

  lemma {:induction false} RunEmpties(t: string, n: nat)
    requires Formattable(t) && n == Run(t)
    ensures Formattable(t[n..]) && Emptied(t) == t[..n] + Emptied(t[n..])
    decreases |t|
  {
    if t == "" || IsBrace(t[0]) {
      assert t[0..] == t;
    } else {
      RunEmpties(t[1..], n - 1);
      var rest := Emptied(t[n..]);
      assert t[1..][n-1..] == t[n..];
      assert Emptied(t) == [t[0]] + Emptied(t[1..]) && Emptied(t[1..]) == t[1..][..n-1] + rest;
      FirstOfRun(t, n, rest);
    }
  }

  lemma {:induction false} NoBracesInRun(s: string)
    requires forall i :: 0 <= i < |s| ==> !IsBrace(s[i])
    ensures Braces(s) == 0
  {
    if s != "" { NoBracesInRun(s[1..]); }
  }

  /** A group's pieces: the text between the braces, and what follows the closing pair. */
  lemma GroupParts(t: string, inner: string, n: nat)
    requires Formattable(t) && |t| > 1 && t[0] == '{' && t[1] == '{' && OpensField(t[1..])
    requires inner == t[2..] && n == Run(inner)
    ensures OpensGroup(t) && Formattable(AfterGroup(t))
    ensures n + 1 < |inner| && inner[n] == '}' && inner[n+1] == '}' && inner[n+2..] == AfterGroup(t)
  {
    DoubledBrace(t);
    assert t[1..][1..] == inner;
    RunIsFormattable(inner);
    assert inner[n..][2..] == inner[n+2..];
  }

  lemma GroupIsWild(t: string)
    requires Formattable(t) && |t| > 1 && t[0] == '{' && t[1] == '{' && OpensField(t[1..])
    requires OpensGroup(t)
    ensures FieldsToWild(t) == "{" + ([WILD] + ("}" + FieldsToWild(AfterGroup(t))))
    ensures Braces(FieldsToWild(t)) == 2 + Braces(FieldsToWild(AfterGroup(t)))
  {
    assert t[1..][1..] == t[2..] && Run(t[1..]) == 0 && !OpensField(t);
    var close := AfterField(t[1..]);
    assert close[0] == '}' && !OpensField(close);
    assert FieldsToWild(close) == ['}'] + FieldsToWild(AfterGroup(t));
    assert FieldsToWild(t) == ['{'] + ([WILD] + FieldsToWild(close));
    assert ([WILD] + FieldsToWild(close))[1..] == FieldsToWild(close);
    assert FieldsToWild(close)[1..] == FieldsToWild(AfterGroup(t));
    assert FieldsToWild(t)[1..] == [WILD] + FieldsToWild(close);
    assert Braces([WILD] + FieldsToWild(close)) == Braces(FieldsToWild(close));
  }

  lemma GroupEmpties(t: string)
    requires Formattable(t) && |t| > 1 && t[0] == '{' && t[1] == '{' && OpensField(t[1..])
    requires OpensGroup(t) && Formattable(AfterGroup(t))
    ensures Braces(Emptied(t)) == 2 + Braces(Emptied(AfterGroup(t)))
  {
    var inner := t[2..];
    var n := Run(inner);
    GroupParts(t, inner, n);
    RunEmpties(inner, n);
    var close := inner[n..];
    assert close[2..] == AfterGroup(t) && !OpensField(close);
    NoBracesInRun(inner[..n]);
    BracesJoin(inner[..n], Emptied(close));
    assert Emptied(close) == ['}'] + Emptied(AfterGroup(t));
    assert !OpensField(t) by { assert t[1..][1..] == inner; }
    assert Emptied(t) == ['{'] + Emptied(inner);
  }

  lemma TwoBraces(a: char, b: char, rest: string)
    requires IsBrace(a) && IsBrace(b)
    ensures Braces([a] + ([b] + rest)) == 2 + Braces(rest)
  {
    assert ([a] + ([b] + rest))[1..] == [b] + rest && ([b] + rest)[1..] == rest;
  }

  /** Substituted text has at least as many braces as a result may, and more unless braces pair up. */
  lemma {:induction false} BracesCompared(t: string)
    requires Formattable(t) && WILD !in t
    ensures Braces(FieldsToWild(t)) >= Braces(Emptied(t))
    ensures !Paired(t) ==> Braces(FieldsToWild(t)) > Braces(Emptied(t))
    decreases |t|
  {
    if t == "" {
    } else if OpensField(t) {
      BracesCompared(AfterField(t));
    } else if !IsBrace(t[0]) {
      BracesCompared(t[1..]);
    } else {
      assert t[1] == t[0];
      if t[0] == '{' && OpensField(t[1..]) {
        DoubledBrace(t);
        GroupIsWild(t);
        GroupEmpties(t);
        BracesCompared(AfterGroup(t));
      } else {
        LoneBraces(t);
        BracesCompared(t[2..]);
      }
    }
  }

  lemma LoneBraces(t: string)
    requires Formattable(t) && |t| > 1 && IsBrace(t[0]) && t[1] == t[0] && !OpensField(t)
    requires !(t[0] == '{' && OpensField(t[1..]))
    ensures Formattable(t[2..])
    ensures Braces(FieldsToWild(t)) == 2 + Braces(FieldsToWild(t[2..]))
    ensures Braces(Emptied(t)) == 1 + Braces(Emptied(t[2..]))
  {
    assert !OpensField(t[1..]) && t[1..][1..] == t[2..];
    assert FieldsToWild(t) == [t[0]] + ([t[1]] + FieldsToWild(t[2..]));
    TwoBraces(t[0], t[1], FieldsToWild(t[2..]));
    assert Emptied(t)[1..] == Emptied(t[2..]);
  }

  lemma {:induction false} PairedIsCovered(t: string, s: string)
    requires Formattable(t) && Paired(t) && FormatsTo(t, s) && WILD !in t
    ensures Fills(FieldsToWild(t), s, {})
    decreases |t|
  {
    if t == "" {
    } else if OpensField(t) {
      var k: nat :| k <= |s| && FormatsTo(AfterField(t), s[k..]);
      PairedIsCovered(AfterField(t), s[k..]);
      FieldCovers(t, s, k);
    } else if !IsBrace(t[0]) {
      PairedIsCovered(t[1..], s[1..]);
      assert FieldsToWild(t)[1..] == FieldsToWild(t[1..]);
    } else {
      GroupIsCovered(t, s);
      var k: nat :| 1 <= k < |s| && s[0] == '{' && s[k] == '}' && FormatsTo(AfterGroup(t), s[k+1..]);
      PairedIsCovered(AfterGroup(t), s[k+1..]);
      GroupCovers(t, s, k);
    }
  }

  lemma FieldCovers(t: string, s: string, k: nat)
    requires OpensField(t) && k <= |s| && Fills(FieldsToWild(AfterField(t)), s[k..], {})
    ensures Fills(FieldsToWild(t), s, {})
  {
    WildTakes(s[..k], FieldsToWild(AfterField(t)), s[k..], {});
    assert s[..k] + s[k..] == s;
  }

  lemma GroupCovers(t: string, s: string, k: nat)
    requires Formattable(t) && |t| > 1 && t[0] == '{' && t[1] == '{' && OpensField(t[1..]) && OpensGroup(t)
    requires 1 <= k < |s| && s[0] == '{' && s[k] == '}' && Fills(FieldsToWild(AfterGroup(t)), s[k+1..], {})
    ensures Fills(FieldsToWild(t), s, {})
  {
    GroupIsWild(t);
    GroupFills(FieldsToWild(AfterGroup(t)), s, k);
  }

  lemma GroupFills(rest: string, s: string, k: nat)
    requires 1 <= k < |s| && s[0] == '{' && s[k] == '}' && Fills(rest, s[k+1..], {})
    ensures Fills("{" + ([WILD] + ("}" + rest)), s, {})
  {
    var tail := "}" + rest;
    assert tail[1..] == rest && s[k..][1..] == s[k+1..];
    assert Fills(tail, s[k..], {});
    WildTakes(s[1..k], tail, s[k..], {});
    assert s[1..k] + s[k..] == s[1..];
    assert ("{" + ([WILD] + tail))[1..] == [WILD] + tail;
  }

  lemma GroupIsCovered(t: string, s: string)
    requires Formattable(t) && Paired(t) && FormatsTo(t, s) && t != "" && IsBrace(t[0]) && !OpensField(t)
    ensures |t| > 1 && t[0] == '{' && t[1] == '{' && OpensField(t[1..]) && OpensGroup(t)
    ensures Formattable(AfterGroup(t))
    ensures exists k: nat :: 1 <= k < |s| && s[0] == '{' && s[k] == '}' && FormatsTo(AfterGroup(t), s[k+1..])
  {
    var inner := t[2..];
    var n := Run(inner);
    GroupParts(t, inner, n);
    RunFormats(inner, s[1..]);
    var close := inner[n..];
    assert close[2..] == AfterGroup(t) && !OpensField(close);
    var after := s[1..][n..];
    assert after == s[n+1..] && after[1..] == s[n+2..];
    assert s[n+1] == '}' && FormatsTo(AfterGroup(t), s[(n+1)+1..]);
  }

  lemma {:induction false} RunFormats(t: string, s: string)
    requires Formattable(t) && FormatsTo(t, s)
    ensures Formattable(t[Run(t)..]) && Run(t) <= |s| && FormatsTo(t[Run(t)..], s[Run(t)..])
    decreases |t|
  {
    if t == "" || IsBrace(t[0]) {
      assert t[0..] == t && s[0..] == s;
    } else {
      RunFormats(t[1..], s[1..]);
      assert t[1..][Run(t[1..])..] == t[Run(t)..] && s[1..][Run(t[1..])..] == s[Run(t)..];
    }
  }

  /** The substitution covers every result of `format` exactly when doubled braces pair up around plain text. */
  lemma FormatCoveredExactly(t: string)
    requires Formattable(t) && WILD !in t
    ensures FormatIsCovered(t) <==> Paired(t)
  {
    if Paired(t) {
      forall s | FormatsTo(t, s) ensures Fills(FieldsToWild(t), s, {}) { PairedIsCovered(t, s); }
    } else {
      BracesCompared(t);
      EmptiedIsResult(t);
      if Fills(FieldsToWild(t), Emptied(t), {}) { FillKeepsBraces(FieldsToWild(t), Emptied(t)); }
    }
  }
}
