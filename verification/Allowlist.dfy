/** The count-aware allowlist of both auditors: one line buys one finding. What `apply_allowlist`
    leaves open, what it counts, when the gate passes, and what a history of passing commits shows. */
module Allowlist {

  /** `<file>::<scope>::<category>` */
  datatype Key = Key(text: string)

  datatype Finding = Finding(key: Key, detail: nat)

  /** An allowlist entry: the key it covers and the reason it gives. */
  datatype Line = Line(key: Key, reason: string)

  type Allowed = map<Key, seq<string>>

  const BACKLOG := "BACKLOG"

  predicate IsBacklog(reason: string) {
    BACKLOG <= reason
  }

  // ----- grouping -----

  /** The findings with the given key, in order. */
  function OfKey(fs: seq<Finding>, k: Key): seq<Finding> {
    if fs == [] then [] else (if fs[0].key == k then [fs[0]] else []) + OfKey(fs[1..], k)
  }

  function Reasons(allowed: Allowed, k: Key): seq<string> {
    if k in allowed then allowed[k] else []
  }

  /** The reasons given for the key, in order. */
  function ReasonsOf(lines: seq<Line>, k: Key): seq<string> {
    if lines == [] then [] else (if lines[0].key == k then [lines[0].reason] else []) + ReasonsOf(lines[1..], k)
  }

  /** `allowed` is the table of the lines. */
  ghost predicate TableOf(allowed: Allowed, lines: seq<Line>) {
    (forall k :: Reasons(allowed, k) == ReasonsOf(lines, k)) && forall k :: k in allowed ==> allowed[k] != []
  }

  function Min(a: nat, b: nat): nat { if a <= b then a else b }

  function Drop<T>(s: seq<T>, n: nat): seq<T> { s[Min(n, |s|)..] }

  /** The findings paired with a deferred-work reason; pairing is positional. */
  function Deferred(group: seq<Finding>, reasons: seq<string>): seq<Finding> {
    if group == [] || reasons == [] then []
    else (if IsBacklog(reasons[0]) then [group[0]] else []) + Deferred(group[1..], reasons[1..])
  }

  /** Whether the finding at a position is deferred, is for the line at that position to say. */
  lemma {:induction false} DeferredByPosition(group: seq<Finding>, reasons: seq<string>, i: nat)
    requires i < |group|
    ensures Deferred(group[..0], reasons) == []
    ensures Deferred(group[..i+1], reasons) ==
            Deferred(group[..i], reasons) + if i < |reasons| && "BACKLOG" <= reasons[i] then [group[i]] else []
  {
    if reasons != [] {
      assert group[..i+1][1..] == group[1..][..i];
      if i > 0 {
        assert group[..i][1..] == group[1..][..i-1];
        DeferredByPosition(group[1..], reasons[1..], i - 1);
      }
    }
  }

  lemma {:induction false} OfKeyAppend(a: seq<Finding>, b: seq<Finding>, k: Key)
    ensures OfKey(a + b, k) == OfKey(a, k) + OfKey(b, k)
  {
    if a == [] {
      assert a + b == b;
    } else {
      assert (a + b)[0] == a[0] && (a + b)[1..] == a[1..] + b;
      OfKeyAppend(a[1..], b, k);
    }
  }

  /** A list whose members all have the key `j` holds the findings of `j` and of no other key. */
  lemma {:induction false} OneKey(group: seq<Finding>, j: Key, k: Key)
    requires forall f | f in group :: f.key == j
    ensures OfKey(group, k) == if j == k then group else []
  {
    if group != [] {
      assert group[0] in group;
      OneKey(group[1..], j, k);
    }
  }

  lemma {:induction false} OfKeyHasKey(fs: seq<Finding>, k: Key)
    ensures forall f | f in OfKey(fs, k) :: f.key == k
  {
    if fs != [] { OfKeyHasKey(fs[1..], k); }
  }

  lemma {:induction false} DeferredFromGroup(group: seq<Finding>, reasons: seq<string>)
    ensures forall f | f in Deferred(group, reasons) :: f in group
  {
    if group != [] && reasons != [] { DeferredFromGroup(group[1..], reasons[1..]); }
  }

  // ----- the method -----

  /** The groups found so far, and their keys in the order of their first finding. */
  ghost predicate Grouped(fs: seq<Finding>, byKey: map<Key, seq<Finding>>, order: seq<Key>) {
    && (forall k :: k in byKey ==> byKey[k] == OfKey(fs, k))
    && (forall k :: k !in byKey ==> OfKey(fs, k) == [])
    && (forall k :: k in byKey <==> k in order)
    && (forall i, j | 0 <= i < j < |order| :: order[i] != order[j])
    && Total(fs, order) == |fs|
  }

  /** How many findings have a key among `keys`. */
  function Total(fs: seq<Finding>, keys: seq<Key>): nat {
    if keys == [] then 0 else |OfKey(fs, keys[|keys|-1])| + Total(fs, keys[..|keys|-1])
  }

  lemma {:induction false} TotalSnoc(fs: seq<Finding>, f: Finding, keys: seq<Key>)
    requires forall i, j | 0 <= i < j < |keys| :: keys[i] != keys[j]
    ensures Total(fs + [f], keys) == Total(fs, keys) + if f.key in keys then 1 else 0
    decreases |keys|
  {
    if keys != [] {
      var n := |keys| - 1;
      TotalSnoc(fs, f, keys[..n]);
      OfKeyAppend(fs, [f], keys[n]);
      assert keys == keys[..n] + [keys[n]];
    }
  }

  lemma OneMore(fs: seq<Finding>, f: Finding, k: Key)
    ensures OfKey(fs + [f], k) == if f.key == k then OfKey(fs, k) + [f] else OfKey(fs, k)
  {
    OfKeyAppend(fs, [f], k);
    assert OfKey(fs, k) + [] == OfKey(fs, k);
  }

  lemma KnownKeyGrows(fs: seq<Finding>, f: Finding, byKey: map<Key, seq<Finding>>, order: seq<Key>)
    requires Grouped(fs, byKey, order) && f.key in byKey
    ensures Grouped(fs + [f], byKey[f.key := byKey[f.key] + [f]], order)
  {
    var more, byKey' := fs + [f], byKey[f.key := byKey[f.key] + [f]];
    TotalSnoc(fs, f, order);
    forall k ensures k in byKey' ==> byKey'[k] == OfKey(more, k) { OneMore(fs, f, k); }
    forall k ensures k !in byKey' ==> OfKey(more, k) == [] { OneMore(fs, f, k); }
  }

  lemma NewKeyGrows(fs: seq<Finding>, f: Finding, byKey: map<Key, seq<Finding>>, order: seq<Key>)
    requires Grouped(fs, byKey, order) && f.key !in byKey
    ensures Grouped(fs + [f], byKey[f.key := [f]], order + [f.key])
  {
    var more, byKey', order' := fs + [f], byKey[f.key := [f]], order + [f.key];
    forall k ensures k in byKey' ==> byKey'[k] == OfKey(more, k) { OneMore(fs, f, k); }
    forall k ensures k !in byKey' ==> OfKey(more, k) == [] { OneMore(fs, f, k); }
    assert f.key !in order;
    NewKeyCounts(fs, f, order);
  }

  lemma NewKeyCounts(fs: seq<Finding>, f: Finding, order: seq<Key>)
    requires f.key !in order && OfKey(fs, f.key) == [] && Total(fs, order) == |fs|
    requires forall i, j | 0 <= i < j < |order| :: order[i] != order[j]
    ensures Total(fs + [f], order + [f.key]) == |fs + [f]|
  {
    var more, longer := fs + [f], order + [f.key];
    TotalSnoc(fs, f, order);
    assert longer[..|order|] == order && longer[|order|] == f.key;
    assert Total(more, longer) == |OfKey(more, f.key)| + Total(more, order);
    OneMore(fs, f, f.key);
  }

  ghost predicate GroupedUpTo(fs: seq<Finding>, n: nat, byKey: map<Key, seq<Finding>>, order: seq<Key>)
    requires n <= |fs|
  {
    Grouped(fs[..n], byKey, order)
  }

  lemma GroupedAtEnds(fs: seq<Finding>)
    ensures GroupedUpTo(fs, 0, map[], [])
    ensures forall byKey, order | GroupedUpTo(fs, |fs|, byKey, order) :: Grouped(fs, byKey, order)
  {
    assert fs[..|fs|] == fs;
  }

  /** `by_key.setdefault(finding.key, []).append(finding)` */
  method AddToGroup(fs: seq<Finding>, i: nat, byKey0: map<Key, seq<Finding>>, order0: seq<Key>)
    returns (byKey: map<Key, seq<Finding>>, order: seq<Key>)
    requires i < |fs| && GroupedUpTo(fs, i, byKey0, order0)
    ensures GroupedUpTo(fs, i + 1, byKey, order)
  {
    var f := fs[i];
    assert fs[..i+1] == fs[..i] + [f];
    if f.key in byKey0 {
      KnownKeyGrows(fs[..i], f, byKey0, order0);
      byKey, order := byKey0[f.key := byKey0[f.key] + [f]], order0;
    } else {
      NewKeyGrows(fs[..i], f, byKey0, order0);
      byKey, order := byKey0[f.key := [f]], order0 + [f.key];
    }
  }

  method GroupByKey(fs: seq<Finding>) returns (byKey: map<Key, seq<Finding>>, order: seq<Key>)
    ensures Grouped(fs, byKey, order)
  {
    GroupedAtEnds(fs);
    byKey, order := map[], [];
    for i := 0 to |fs|
      invariant GroupedUpTo(fs, i, byKey, order)
    {
      byKey, order := AddToGroup(fs, i, byKey, order);
    }
  }

  /** The inner loop over one group: pairs findings with reasons, one by one. */
  method Pair(group: seq<Finding>, reasons: seq<string>) returns (deferred: seq<Finding>, accepted: nat)
    ensures deferred == Deferred(group, reasons)
    ensures |deferred| + accepted == Min(|group|, |reasons|)
  {
    deferred, accepted := [], 0;
    var n := Min(|group|, |reasons|);
    for i := 0 to n
      invariant deferred + Deferred(group[i..], reasons[i..]) == Deferred(group, reasons)
      invariant |deferred| + accepted == i
    {
      assert group[i..][1..] == group[i+1..] && reasons[i..][1..] == reasons[i+1..];
      if IsBacklog(reasons[i]) {
        deferred := deferred + [group[i]];
      } else {
        accepted := accepted + 1;
      }
    }
  }

  /** What of the findings of a key stays open. */
  function OpenOf(fs: seq<Finding>, allowed: Allowed, k: Key): seq<Finding> {
    Drop(OfKey(fs, k), |Reasons(allowed, k)|)
  }

  function DeferredOf(fs: seq<Finding>, allowed: Allowed, k: Key): seq<Finding> {
    Deferred(OfKey(fs, k), Reasons(allowed, k))
  }

  /** The outcome for the keys handled so far. */
  ghost predicate Applied(fs: seq<Finding>, allowed: Allowed, keys: seq<Key>, open: seq<Finding>, backlog: seq<Finding>, accepted: nat) {
    && (forall k :: OfKey(open, k) == if k in keys then OpenOf(fs, allowed, k) else [])
    && (forall k :: OfKey(backlog, k) == if k in keys then DeferredOf(fs, allowed, k) else [])
    && |open| + |backlog| + accepted == Total(fs, keys)
  }

  lemma AddsOneKey(sofar: seq<Finding>, group: seq<Finding>, key: Key, k: Key)
    requires forall f | f in group :: f.key == key
    ensures OfKey(sofar + group, k) == if k == key then OfKey(sofar, k) + group else OfKey(sofar, k)
  {
    OfKeyAppend(sofar, group, k);
    OneKey(group, key, k);
    assert OfKey(sofar, k) + [] == OfKey(sofar, k);
  }

  lemma KeysOfParts(fs: seq<Finding>, allowed: Allowed, key: Key)
    ensures forall f | f in OpenOf(fs, allowed, key) :: f.key == key
    ensures forall f | f in DeferredOf(fs, allowed, key) :: f.key == key
  {
    OfKeyHasKey(fs, key);
    DeferredFromGroup(OfKey(fs, key), Reasons(allowed, key));
  }

  lemma AddsToKey(sofar: seq<Finding>, group: seq<Finding>, keys: seq<Key>, key: Key, k: Key, whole: seq<Finding>)
    requires forall f | f in group :: f.key == key
    requires OfKey(sofar, k) == (if k in keys then whole else []) && key !in keys && (k == key ==> group == whole)
    ensures OfKey(sofar + group, k) == if k in keys + [key] then whole else []
  {
    AddsOneKey(sofar, group, key, k);
  }

  lemma AppliesOneMore(fs: seq<Finding>, allowed: Allowed, keys: seq<Key>, key: Key,
      open: seq<Finding>, backlog: seq<Finding>, accepted: nat, taken: nat)
    requires Applied(fs, allowed, keys, open, backlog, accepted) && key !in keys
    requires |DeferredOf(fs, allowed, key)| + taken == Min(|OfKey(fs, key)|, |Reasons(allowed, key)|)
    ensures Applied(fs, allowed, keys + [key], open + OpenOf(fs, allowed, key), backlog + DeferredOf(fs, allowed, key), accepted + taken)
  {
    var more, deferred, keys' := OpenOf(fs, allowed, key), DeferredOf(fs, allowed, key), keys + [key];
    KeysOfParts(fs, allowed, key);
    forall k ensures OfKey(open + more, k) == if k in keys' then OpenOf(fs, allowed, k) else [] {
      AddsToKey(open, more, keys, key, k, OpenOf(fs, allowed, k));
    }
    forall k ensures OfKey(backlog + deferred, k) == if k in keys' then DeferredOf(fs, allowed, k) else [] {
      AddsToKey(backlog, deferred, keys, key, k, DeferredOf(fs, allowed, k));
    }
    assert keys'[..|keys|] == keys;
    assert Total(fs, keys') == |OfKey(fs, key)| + Total(fs, keys);
  }

  /** Open findings are what exceeds the lines of a key, in order; nothing is lost or counted twice;
      an entry is stale when its key has fewer findings than lines. */
  method ApplyAllowlist(fs: seq<Finding>, allowed: Allowed)
    returns (open: seq<Finding>, backlog: seq<Finding>, accepted: nat, stale: set<Key>)
    ensures forall k :: OfKey(open, k) == OpenOf(fs, allowed, k)
    ensures forall k :: OfKey(backlog, k) == DeferredOf(fs, allowed, k)
    ensures |open| + |backlog| + accepted == |fs|
    ensures stale == set k | k in allowed && |OfKey(fs, k)| < |allowed[k]|
    ensures forall k :: LastOpen(OfKey(open, k), OfKey(fs, k), |Reasons(allowed, k)|)
  {
    var byKey, order := GroupByKey(fs);
    open, backlog, accepted := [], [], 0;
    for i := 0 to |order|
      invariant Applied(fs, allowed, order[..i], open, backlog, accepted)
    {
      GroupIsNext(fs, byKey, order, i);
      open, backlog, accepted := ApplyGroup(fs, order[..i], order[i], byKey[order[i]], allowed, open, backlog, accepted);
    }
    assert order[..|order|] == order;
    AppliedToAll(fs, allowed, byKey, order, open, backlog, accepted);
    stale := StaleKeys(fs, byKey, order, allowed);
    forall k ensures LastOpen(OfKey(open, k), OfKey(fs, k), |Reasons(allowed, k)|) { OpenAreLast(fs, allowed, open, k); }
  }

  lemma OpenAreLast(fs: seq<Finding>, allowed: Allowed, open: seq<Finding>, k: Key)
    requires OfKey(open, k) == OpenOf(fs, allowed, k)
    ensures LastOpen(OfKey(open, k), OfKey(fs, k), |Reasons(allowed, k)|)
  {
  }

  /** The open findings of a key are those from the position its lines end at. */
  ghost predicate LastOpen(open: seq<Finding>, group: seq<Finding>, lines: nat) {
    if lines >= |group| then open == []
    else |open| == |group| - lines && forall i | lines <= i < |group| :: open[i - lines] == group[i]
  }

  lemma GroupIsNext(fs: seq<Finding>, byKey: map<Key, seq<Finding>>, order: seq<Key>, i: nat)
    requires Grouped(fs, byKey, order) && i < |order|
    ensures order[i] in byKey && byKey[order[i]] == OfKey(fs, order[i])
    ensures order[i] !in order[..i] && order[..i+1] == order[..i] + [order[i]]
  {
    assert order[i] in order;
  }

  /** The body of the loop: what one group of findings adds. */
  method ApplyGroup(ghost fs: seq<Finding>, ghost keys: seq<Key>, key: Key, group: seq<Finding>, allowed: Allowed,
      open0: seq<Finding>, backlog0: seq<Finding>, accepted0: nat)
    returns (open: seq<Finding>, backlog: seq<Finding>, accepted: nat)
    requires Applied(fs, allowed, keys, open0, backlog0, accepted0) && key !in keys && group == OfKey(fs, key)
    ensures Applied(fs, allowed, keys + [key], open, backlog, accepted)
  {
    var reasons := Reasons(allowed, key);
    var deferred, taken := Pair(group, reasons);
    AppliesOneMore(fs, allowed, keys, key, open0, backlog0, accepted0, taken);
    backlog, accepted := backlog0 + deferred, accepted0 + taken;
    open := open0 + Drop(group, |reasons|);
  }

  method StaleKeys(ghost fs: seq<Finding>, byKey: map<Key, seq<Finding>>, ghost order: seq<Key>, allowed: Allowed)
    returns (stale: set<Key>)
    requires Grouped(fs, byKey, order)
    ensures stale == set k | k in allowed && |OfKey(fs, k)| < |allowed[k]|
  {
    stale := set k | k in allowed && (if k in byKey then |byKey[k]| else 0) < |allowed[k]|;
  }

  lemma AppliedToAll(fs: seq<Finding>, allowed: Allowed, byKey: map<Key, seq<Finding>>, order: seq<Key>,
      open: seq<Finding>, backlog: seq<Finding>, accepted: nat)
    requires Grouped(fs, byKey, order) && Applied(fs, allowed, order, open, backlog, accepted)
    ensures forall k :: OfKey(open, k) == OpenOf(fs, allowed, k)
    ensures forall k :: OfKey(backlog, k) == DeferredOf(fs, allowed, k)
    ensures |open| + |backlog| + accepted == |fs|
  {
    forall k ensures OfKey(open, k) == OpenOf(fs, allowed, k) && OfKey(backlog, k) == DeferredOf(fs, allowed, k) {
      if k !in order {
        assert OfKey(fs, k) == [];
      }
    }
  }

  // ----- the gate -----

  function FindingKeys(fs: seq<Finding>): seq<Key> {
    seq(|fs|, i requires 0 <= i < |fs| => fs[i].key)
  }

  function LineKeys(lines: seq<Line>): seq<Key> {
    seq(|lines|, i requires 0 <= i < |lines| => lines[i].key)
  }

  lemma {:induction false} FindingCount(fs: seq<Finding>, k: Key)
    ensures multiset(FindingKeys(fs))[k] == |OfKey(fs, k)|
  {
    if fs != [] {
      FindingCount(fs[1..], k);
      assert FindingKeys(fs) == [fs[0].key] + FindingKeys(fs[1..]);
    }
  }

  lemma {:induction false} LineCount(lines: seq<Line>, k: Key)
    ensures multiset(LineKeys(lines))[k] == |ReasonsOf(lines, k)|
  {
    if lines != [] {
      LineCount(lines[1..], k);
      assert LineKeys(lines) == [lines[0].key] + LineKeys(lines[1..]);
    }
  }

  /** Every finding is bought by a line, and every line buys a finding. */
  ghost predicate Balanced(fs: seq<Finding>, lines: seq<Line>) {
    multiset(FindingKeys(fs)) == multiset(LineKeys(lines))
  }

  lemma BalancedAt(fs: seq<Finding>, lines: seq<Line>, k: Key)
    requires Balanced(fs, lines)
    ensures |OfKey(fs, k)| == |ReasonsOf(lines, k)|
  {
    FindingCount(fs, k);
    LineCount(lines, k);
  }

  lemma EqualCountsBalance(fs: seq<Finding>, lines: seq<Line>)
    requires forall k :: |OfKey(fs, k)| == |ReasonsOf(lines, k)|
    ensures Balanced(fs, lines)
  {
    forall k ensures multiset(FindingKeys(fs))[k] == multiset(LineKeys(lines))[k] {
      FindingCount(fs, k);
      LineCount(lines, k);
    }
  }

  lemma {:induction false} NothingOfAnyKey(fs: seq<Finding>)
    ensures fs == [] <==> forall k :: OfKey(fs, k) == []
  {
    if fs != [] {
      assert OfKey(fs, fs[0].key) != [];
    }
  }

  /** The gate of the test auditor passes - nothing open, nothing stale - iff the findings and the
      allowlist lines have the same keys, each as often. */
  lemma GateExactly(fs: seq<Finding>, lines: seq<Line>, allowed: Allowed, open: seq<Finding>, stale: set<Key>)
    requires TableOf(allowed, lines)
    requires forall k :: OfKey(open, k) == OpenOf(fs, allowed, k)
    requires stale == set k | k in allowed && |OfKey(fs, k)| < |allowed[k]|
    ensures open == [] && stale == {} <==> Balanced(fs, lines)
  {
    NothingOfAnyKey(open);
    if open == [] && stale == {} {
      forall k ensures |OfKey(fs, k)| == |ReasonsOf(lines, k)| {
        KeyPasses(fs, allowed, open, stale, k);
      }
      EqualCountsBalance(fs, lines);
    }
    if Balanced(fs, lines) {
      forall k ensures OfKey(open, k) == [] && k !in stale {
        BalancedAt(fs, lines, k);
        KeyPasses(fs, allowed, open, stale, k);
      }
    }
  }

  lemma KeyPasses(fs: seq<Finding>, allowed: Allowed, open: seq<Finding>, stale: set<Key>, k: Key)
    requires OfKey(open, k) == OpenOf(fs, allowed, k)
    requires k in stale <==> k in allowed && |OfKey(fs, k)| < |allowed[k]|
    ensures OfKey(open, k) == [] && k !in stale <==> |OfKey(fs, k)| == |Reasons(allowed, k)|
  {
  }

  /** The session auditor also refuses entries without a reason. */
  function Unreasoned(allowed: Allowed): set<Key> {
    set k | k in allowed && "" in allowed[k]
  }

  lemma SessionGateExactly(fs: seq<Finding>, lines: seq<Line>, allowed: Allowed, open: seq<Finding>, stale: set<Key>)
    requires TableOf(allowed, lines)
    requires forall k :: OfKey(open, k) == OpenOf(fs, allowed, k)
    requires stale == set k | k in allowed && |OfKey(fs, k)| < |allowed[k]|
    ensures open == [] && stale == {} && Unreasoned(allowed) == {} <==>
            Balanced(fs, lines) && forall l | l in lines :: l.reason != ""
  {
    GateExactly(fs, lines, allowed, open, stale);
    forall k ensures k in Unreasoned(allowed) <==> exists l :: l in lines && l.key == k && l.reason == "" {
      assert Reasons(allowed, k) == ReasonsOf(lines, k);
      ReasonsExactly(lines, k, "");
    }
    if l :| l in lines && l.reason == "" {
      assert l.key in Unreasoned(allowed);
    }
  }

  lemma {:induction false} ReasonsExactly(lines: seq<Line>, k: Key, r: string)
    ensures r in ReasonsOf(lines, k) <==> exists l :: l in lines && l.key == k && l.reason == r
  {
    if lines != [] {
      ReasonsExactly(lines[1..], k, r);
      if lines[0].key == k && lines[0].reason == r {
        assert lines[0] in lines;
      }
    }
  }

  // ----- histories -----

  datatype Commit = Commit(findings: seq<Finding>, lines: seq<Line>)

  /** Every commit passes the gate, and none adds a line to the allowlist. */
  ghost predicate Ratcheted(history: seq<Commit>) {
    && (forall i | 0 <= i < |history| :: Balanced(history[i].findings, history[i].lines))
    && (forall i | 0 < i < |history| :: multiset(LineKeys(history[i].lines)) <= multiset(LineKeys(history[i-1].lines)))
  }

  /** Along such a history the findings of a key never become more. */
  lemma {:induction false} FindingsOnlyShrink(history: seq<Commit>, i: nat, j: nat, k: Key)
    requires Ratcheted(history) && i <= j < |history|
    ensures |OfKey(history[j].findings, k)| <= |OfKey(history[i].findings, k)|
    decreases j
  {
    if i < j {
      FindingsOnlyShrink(history, i, j - 1, k);
      OneCommitShrinks(history[j-1], history[j], k);
    }
  }

  lemma OneCommitShrinks(before: Commit, after: Commit, k: Key)
    requires Balanced(before.findings, before.lines) && Balanced(after.findings, after.lines)
    requires multiset(LineKeys(after.lines)) <= multiset(LineKeys(before.lines))
    ensures |OfKey(after.findings, k)| <= |OfKey(before.findings, k)|
  {
    BalancedAt(before.findings, before.lines, k);
    BalancedAt(after.findings, after.lines, k);
    LineCount(before.lines, k);
    LineCount(after.lines, k);
  }

  // ----- the counts -----

  function BacklogCount(reasons: seq<string>): nat {
    if reasons == [] then 0 else (if IsBacklog(reasons[0]) then 1 else 0) + BacklogCount(reasons[1..])
  }

  lemma {:induction false} DeferredCount(group: seq<Finding>, reasons: seq<string>)
    ensures |Deferred(group, reasons)| == BacklogCount(reasons[..Min(|group|, |reasons|)])
  {
    if group != [] && reasons != [] {
      var n := Min(|group|, |reasons|);
      DeferredCount(group[1..], reasons[1..]);
      assert reasons[..n][0] == reasons[0] && reasons[..n][1..] == reasons[1..][..n-1];
    }
  }

  /** In a passing state every line is used: a key has as many deferred findings as backlog lines,
      whatever the order of findings and lines. */
  lemma PassingCounts(fs: seq<Finding>, lines: seq<Line>, allowed: Allowed, k: Key)
    requires TableOf(allowed, lines) && Balanced(fs, lines)
    ensures |DeferredOf(fs, allowed, k)| == BacklogCount(ReasonsOf(lines, k))
  {
    BalancedAt(fs, lines, k);
    DeferredCount(OfKey(fs, k), ReasonsOf(lines, k));
    assert ReasonsOf(lines, k)[..|ReasonsOf(lines, k)|] == ReasonsOf(lines, k);
  }

  function BacklogLines(lines: seq<Line>): seq<Line> {
    if lines == [] then [] else (if IsBacklog(lines[0].reason) then [lines[0]] else []) + BacklogLines(lines[1..])
  }

  lemma {:induction false} BacklogLinesOfKey(lines: seq<Line>, k: Key)
    ensures |ReasonsOf(BacklogLines(lines), k)| == BacklogCount(ReasonsOf(lines, k))
  {
    if lines != [] {
      var first, rest := lines[0], BacklogLines(lines[1..]);
      BacklogLinesOfKey(lines[1..], k);
      assert ([first] + rest)[1..] == rest && [] + rest == rest;
      var own, others := if first.key == k then [first.reason] else [], ReasonsOf(lines[1..], k);
      assert own + others == if first.key == k then [first.reason] + others else others;
      assert ([first.reason] + others)[1..] == others;
    }
  }

  /** A run of the gate: what it was given and what `apply_allowlist` made of it. */
  datatype GateRun = GateRun(findings: seq<Finding>, lines: seq<Line>, allowed: Allowed,
                             open: seq<Finding>, backlog: seq<Finding>, accepted: nat)

  ghost predicate Outcome(r: GateRun) {
    && TableOf(r.allowed, r.lines)
    && (forall k :: OfKey(r.open, k) == OpenOf(r.findings, r.allowed, k))
    && (forall k :: OfKey(r.backlog, k) == DeferredOf(r.findings, r.allowed, k))
    && |r.open| + |r.backlog| + r.accepted == |r.findings|
  }

  lemma KeyTotals(r: GateRun, k: Key)
    requires Outcome(r) && Balanced(r.findings, r.lines)
    ensures OfKey(r.open, k) == [] && |OfKey(r.backlog, k)| == |ReasonsOf(BacklogLines(r.lines), k)|
  {
    BalancedAt(r.findings, r.lines, k);
    PassingCounts(r.findings, r.lines, r.allowed, k);
    BacklogLinesOfKey(r.lines, k);
  }

  /** In a passing state every backlog line counts one deferred finding, and every other line one accepted
      finding. */
  lemma PassingTotals(r: GateRun)
    requires Outcome(r) && Balanced(r.findings, r.lines)
    ensures |r.backlog| == |BacklogLines(r.lines)| && r.accepted == |r.lines| - |BacklogLines(r.lines)|
  {
    forall k ensures OfKey(r.open, k) == [] { KeyTotals(r, k); }
    NothingOfAnyKey(r.open);
    forall k ensures |OfKey(r.backlog, k)| == |ReasonsOf(BacklogLines(r.lines), k)| { KeyTotals(r, k); }
    EqualCountsBalance(r.backlog, BacklogLines(r.lines));
    SameLength(r.backlog, BacklogLines(r.lines));
    SameLength(r.findings, r.lines);
  }

  lemma SameLength(fs: seq<Finding>, lines: seq<Line>)
    requires Balanced(fs, lines)
    ensures |fs| == |lines|
  {
    assert |multiset(FindingKeys(fs))| == |fs| && |multiset(LineKeys(lines))| == |lines|;
  }

  lemma {:induction false} BacklogLinesCount(lines: seq<Line>, l: Line)
    ensures multiset(BacklogLines(lines))[l] == if IsBacklog(l.reason) then multiset(lines)[l] else 0
  {
    if lines != [] {
      BacklogLinesCount(lines[1..], l);
      assert lines == [lines[0]] + lines[1..];
    }
  }

  /** Two passing states whose lines are a permutation of each other report the same totals, however the
      findings are ordered. */
  lemma TotalsIgnoreOrder(r: GateRun, other: GateRun)
    requires Outcome(r) && Balanced(r.findings, r.lines)
    requires Outcome(other) && Balanced(other.findings, other.lines)
    requires multiset(r.lines) == multiset(other.lines)
    ensures |r.backlog| == |other.backlog| && r.accepted == other.accepted
  {
    PassingTotals(r);
    PassingTotals(other);
    SameBacklogLines(r.lines, other.lines);
  }

  lemma SameBacklogLines(lines: seq<Line>, lines': seq<Line>)
    requires multiset(lines) == multiset(lines')
    ensures |lines| == |lines'| && |BacklogLines(lines)| == |BacklogLines(lines')|
  {
    forall l ensures multiset(BacklogLines(lines))[l] == multiset(BacklogLines(lines'))[l] {
      BacklogLinesCount(lines, l);
      BacklogLinesCount(lines', l);
    }
    assert multiset(BacklogLines(lines)) == multiset(BacklogLines(lines'));
    assert |multiset(BacklogLines(lines))| == |BacklogLines(lines)|;
    assert |multiset(BacklogLines(lines'))| == |BacklogLines(lines')|;
    assert |multiset(lines)| == |lines| && |multiset(lines')| == |lines'|;
  }

  predicate Uniform(reasons: seq<string>) {
    BacklogCount(reasons) == 0 || BacklogCount(reasons) == |reasons|
  }

  /** The backlog reasons first, or last. */
  function Sorted(reasons: seq<string>, backlogFirst: bool): seq<string> {
    if reasons == [] then []
    else if IsBacklog(reasons[0]) == backlogFirst then [reasons[0]] + Sorted(reasons[1..], backlogFirst)
    else Sorted(reasons[1..], backlogFirst) + [reasons[0]]
  }

  lemma {:induction false} BacklogAppend(a: seq<string>, b: seq<string>)
    ensures BacklogCount(a + b) == BacklogCount(a) + BacklogCount(b)
  {
    if a == [] {
      assert a + b == b;
    } else {
      assert (a + b)[0] == a[0] && (a + b)[1..] == a[1..] + b;
      BacklogAppend(a[1..], b);
    }
  }

  lemma {:induction false} BacklogBounds(reasons: seq<string>)
    ensures BacklogCount(reasons) <= |reasons|
  {
    if reasons != [] { BacklogBounds(reasons[1..]); }
  }

  lemma {:induction false} SortedPermutes(reasons: seq<string>, backlogFirst: bool)
    ensures multiset(Sorted(reasons, backlogFirst)) == multiset(reasons)
    ensures |Sorted(reasons, backlogFirst)| == |reasons|
  {
    if reasons != [] {
      SortedPermutes(reasons[1..], backlogFirst);
      assert reasons == [reasons[0]] + reasons[1..];
    }
  }

  /** The backlog lines met in the first `n`, when they come first and when they come last. */
  function Met(n: nat, b: nat, m: nat, backlogFirst: bool): int {
    if backlogFirst then Min(n, b) else if n + b <= m then 0 else n + b - m
  }

  lemma {:induction false} SortedCounts(reasons: seq<string>, backlogFirst: bool, n: nat)
    requires n <= |reasons| == |Sorted(reasons, backlogFirst)|
    ensures BacklogCount(Sorted(reasons, backlogFirst)[..n]) == Met(n, BacklogCount(reasons), |reasons|, backlogFirst)
  {
    if reasons != [] {
      var rest, s := Sorted(reasons[1..], backlogFirst), Sorted(reasons, backlogFirst);
      SortedPermutes(reasons[1..], backlogFirst);
      BacklogBounds(reasons[1..]);
      if IsBacklog(reasons[0]) != backlogFirst {
        SortedCounts(reasons[1..], backlogFirst, Min(n, |rest|));
        LastOf(rest, reasons[0], n);
      } else if n > 0 {
        SortedCounts(reasons[1..], backlogFirst, n - 1);
        FirstOf(rest, reasons[0], n);
      }
    }
  }

  lemma FirstOf(rest: seq<string>, r: string, n: nat)
    requires 0 < n <= |rest| + 1
    ensures BacklogCount(([r] + rest)[..n]) == (if IsBacklog(r) then 1 else 0) + BacklogCount(rest[..n-1])
  {
    assert ([r] + rest)[..n] == [r] + rest[..n-1];
    assert ([r] + rest[..n-1])[1..] == rest[..n-1];
  }

  lemma LastOf(rest: seq<string>, r: string, n: nat)
    requires n <= |rest| + 1
    ensures BacklogCount((rest + [r])[..n]) ==
            BacklogCount(rest[..Min(n, |rest|)]) + if n > |rest| && IsBacklog(r) then 1 else 0
  {
    if n <= |rest| {
      assert (rest + [r])[..n] == rest[..n];
    } else {
      assert (rest + [r])[..n] == rest[..|rest|] + [r];
      BacklogAppend(rest[..|rest|], [r]);
    }
  }

  /** How many of the first `n` findings of a key are counted as backlog does not depend on the order
      of its lines iff there are none to count, or all lines are used, or all are of one kind. */
  lemma OrderMattersExactly(n: nat, reasons: seq<string>)
    ensures (forall p: seq<string> | multiset(p) == multiset(reasons) :: BacklogCount(p[..Min(n, |p|)]) == BacklogCount(reasons[..Min(n, |reasons|)]))
            <==> n == 0 || n >= |reasons| || Uniform(reasons)
  {
    forall p: seq<string> | multiset(p) == multiset(reasons) ensures |p| == |reasons| && BacklogCount(p) == BacklogCount(reasons) {
      assert |p| == |multiset(p)| == |multiset(reasons)| == |reasons|;
      SameBacklog(p, reasons);
    }
    if n == 0 || n >= |reasons| || Uniform(reasons) {
      forall p: seq<string> | multiset(p) == multiset(reasons)
        ensures BacklogCount(p[..Min(n, |p|)]) == BacklogCount(reasons[..Min(n, |reasons|)])
      {
        if n >= |reasons| {
          assert p[..|p|] == p && reasons[..|reasons|] == reasons;
        } else if n > 0 {
          UniformPrefix(p, n);
          UniformPrefix(reasons, n);
        }
      }
    } else {
      SortedPermutes(reasons, true);
      SortedPermutes(reasons, false);
      SortedCounts(reasons, true, n);
      SortedCounts(reasons, false, n);
      BacklogBounds(reasons);
      assert BacklogCount(Sorted(reasons, true)[..n]) != BacklogCount(Sorted(reasons, false)[..n]);
    }
  }

  lemma UniformPrefix(reasons: seq<string>, n: nat)
    requires n <= |reasons| && Uniform(reasons)
    ensures BacklogCount(reasons[..n]) == if BacklogCount(reasons) == 0 then 0 else n
  {
    assert reasons == reasons[..n] + reasons[n..];
    BacklogAppend(reasons[..n], reasons[n..]);
    BacklogBounds(reasons[..n]);
    BacklogBounds(reasons[n..]);
  }

  function BacklogReasons(reasons: seq<string>): seq<string> {
    if reasons == [] then [] else (if IsBacklog(reasons[0]) then [reasons[0]] else []) + BacklogReasons(reasons[1..])
  }

  lemma {:induction false} BacklogReasonsCount(reasons: seq<string>, r: string)
    ensures multiset(BacklogReasons(reasons))[r] == if IsBacklog(r) then multiset(reasons)[r] else 0
    ensures |BacklogReasons(reasons)| == BacklogCount(reasons)
  {
    if reasons != [] {
      BacklogReasonsCount(reasons[1..], r);
      assert reasons == [reasons[0]] + reasons[1..];
    }
  }

  lemma SameBacklog(p: seq<string>, q: seq<string>)
    requires multiset(p) == multiset(q)
    ensures BacklogCount(p) == BacklogCount(q)
  {
    forall r ensures multiset(BacklogReasons(p))[r] == multiset(BacklogReasons(q))[r] {
      BacklogReasonsCount(p, r);
      BacklogReasonsCount(q, r);
    }
    BacklogReasonsCount(p, "");
    BacklogReasonsCount(q, "");
    assert multiset(BacklogReasons(p)) == multiset(BacklogReasons(q));
    assert |multiset(BacklogReasons(p))| == |BacklogReasons(p)| && |multiset(BacklogReasons(q))| == |BacklogReasons(q)|;
  }
}
