/** Duration clusters of the test-timing report: the slow tests, sorted, cut into tight runs. */
module Clusters {
  import opened Sorting

  datatype Case = Case(file: string, name: string, duration: real)

  const GAP: real := 0.35
  const MAX_WIDTH: real := 3.0
  const MIN_FILES: nat := 3
  const MIN_TESTS: nat := 5
  const FLOOR: real := 5.0

  datatype Cluster = Cluster(n: nat, low: real, high: real, seconds: real, files: nat)

  function Seconds(cases: seq<Case>): real {
    if cases == [] then 0.0 else Seconds(cases[..|cases|-1]) + cases[|cases|-1].duration
  }

  function Slow(cases: seq<Case>): seq<Case> {
    if cases == [] then []
    else (if cases[0].duration > FLOOR then [cases[0]] else []) + Slow(cases[1..])
  }

  function SortedSlow(cases: seq<Case>): seq<Case> {
    SortBy(Slow(cases), (c: Case) => c.duration)
  }

  ghost predicate Rising(cases: seq<Case>) {
    forall i, j :: 0 <= i < j < |cases| ==> cases[i].duration <= cases[j].duration
  }

  // ----- runs -----

  /** Rising, tightly packed, and narrow overall. */
  ghost predicate Tight(run: seq<Case>) {
    && run != []
    && Rising(run)
    && (forall i, j :: 0 <= i < j < |run| && j == i + 1 ==> run[j].duration - run[i].duration < GAP)
    && run[|run|-1].duration - run[0].duration <= MAX_WIDTH
  }

  function Concat(runs: seq<seq<Case>>): seq<Case> {
    if runs == [] then [] else Concat(runs[..|runs|-1]) + runs[|runs|-1]
  }

  ghost predicate AllTight(runs: seq<seq<Case>>) {
    forall i :: 0 <= i < |runs| ==> Tight(runs[i])
  }

  /** The case could not have joined the run. */
  predicate Barred(run: seq<Case>, next: Case) {
    run != [] && (next.duration - run[|run|-1].duration >= GAP || next.duration - run[0].duration > MAX_WIDTH)
  }

  ghost predicate Greedy(runs: seq<seq<Case>>) {
    forall i, j :: 0 <= i < j < |runs| && j == i + 1 ==> runs[j] != [] && Barred(runs[i], runs[j][0])
  }

  lemma {:induction false} ConcatSnoc(runs: seq<seq<Case>>, run: seq<Case>)
    ensures Concat(runs + [run]) == Concat(runs) + run
  {
    assert (runs + [run])[..|runs|] == runs;
  }

  /** The runs cut so far and the run being grown hold the cases seen so far. */
  ghost predicate Cutting(seen: seq<Case>, runs: seq<seq<Case>>, run: seq<Case>) {
    && Concat(runs) + run == seen
    && AllTight(runs) && Greedy(runs)
    && (run == [] ==> runs == [])
    && (run != [] ==> Tight(run) && (runs != [] ==> Barred(runs[|runs|-1], run[0])))
  }

  lemma Grows(run: seq<Case>, c: Case)
    requires run != [] ==> Tight(run) && !Barred(run, c) && run[|run|-1].duration <= c.duration
    ensures Tight(run + [c])
  {
    var longer := run + [c];
    forall i, j | 0 <= i < j < |longer| && j == i + 1 ensures longer[j].duration - longer[i].duration < GAP {
      if j < |run| { assert longer[i] == run[i] && longer[j] == run[j]; }
    }
    if run != [] {
      forall i | 0 <= i < |run| ensures run[i].duration <= c.duration {
        if i < |run| - 1 { assert run[i].duration <= run[|run|-1].duration; }
      }
    }
  }

  lemma Closes(seen: seq<Case>, runs: seq<seq<Case>>, run: seq<Case>)
    requires Cutting(seen, runs, run)
    ensures var cut := if run == [] then runs else runs + [run];
      Concat(cut) == seen && AllTight(cut) && Greedy(cut)
  {
    ConcatSnoc(runs, run);
  }

  lemma JoinsOrStarts(seen: seq<Case>, runs: seq<seq<Case>>, run: seq<Case>, c: Case)
    requires Cutting(seen, runs, run) && (run != [] ==> run[|run|-1].duration <= c.duration)
    ensures !Barred(run, c) ==> Cutting(seen + [c], runs, run + [c])
    ensures Barred(run, c) ==> Cutting(seen + [c], runs + [run], [c])
  {
    if Barred(run, c) {
      Closes(seen, runs, run);
      Grows([], c);
      assert [] + [c] == [c];
    } else {
      Grows(run, c);
      assert Concat(runs) + (run + [c]) == (Concat(runs) + run) + [c];
    }
  }

  ghost predicate CutUpTo(slow: seq<Case>, k: nat, runs: seq<seq<Case>>, run: seq<Case>)
    requires k <= |slow|
  {
    Cutting(slow[..k], runs, run) && (run == [] <==> k == 0)
  }

  lemma LastPlaced(slow: seq<Case>, k: nat, runs: seq<seq<Case>>, run: seq<Case>)
    requires Rising(slow) && k < |slow| && CutUpTo(slow, k, runs, run) && run != []
    ensures run[|run|-1].duration <= slow[k].duration
  {
    assert (Concat(runs) + run)[k-1] == run[|run|-1];
    assert slow[..k][k-1] == slow[k-1];
  }

  /** The body of the loop: where one case goes. */
  method Place(slow: seq<Case>, k: nat, before: seq<seq<Case>>, grown: seq<Case>)
    returns (runs: seq<seq<Case>>, run: seq<Case>)
    requires Rising(slow) && k < |slow| && CutUpTo(slow, k, before, grown)
    ensures CutUpTo(slow, k + 1, runs, run)
  {
    var c := slow[k];
    runs, run := before, grown;
    if run != [] { LastPlaced(slow, k, runs, run); }
    JoinsOrStarts(slow[..k], runs, run, c);
    assert slow[..k+1] == slow[..k] + [c];
    var tooFar := run != [] && c.duration - run[|run|-1].duration >= GAP;
    var tooWide := run != [] && c.duration - run[0].duration > MAX_WIDTH;
    if tooFar || tooWide {
      runs := runs + [run];
      run := [];
    }
    run := run + [c];
  }

  lemma CutAll(slow: seq<Case>, runs: seq<seq<Case>>, run: seq<Case>)
    requires CutUpTo(slow, |slow|, runs, run)
    ensures var cut := if run == [] then runs else runs + [run];
      Concat(cut) == slow && AllTight(cut) && Greedy(cut)
  {
    Closes(slow[..|slow|], runs, run);
    assert slow[..|slow|] == slow;
  }

  /** The loop of `clusters`: cut before a case that is too far from the last one or too far from the first. */
  method CutIntoRuns(slow: seq<Case>) returns (runs: seq<seq<Case>>)
    requires Rising(slow)
    ensures Concat(runs) == slow && AllTight(runs) && Greedy(runs)
  {
    runs := [];
    var run: seq<Case> := [];
    for k := 0 to |slow|
      invariant CutUpTo(slow, k, runs, run)
    {
      runs, run := Place(slow, k, runs, run);
    }
    CutAll(slow, runs, run);
    if run != [] { runs := runs + [run]; }
  }

  // ----- no grouping uses fewer groups -----

  /** The members of a group, in order of duration, lie less than the gap apart and within the width. */
  ghost predicate Grouping(slow: seq<Case>, group: seq<nat>, n: nat) {
    && |group| == |slow|
    && (forall i :: 0 <= i < |slow| ==> group[i] < n)
    && (forall i, j :: 0 <= i < j < |slow| && group[i] == group[j] ==>
          slow[j].duration - slow[i].duration <= MAX_WIDTH && HasNext(slow, group, i, j))
  }

  ghost predicate HasNext(slow: seq<Case>, group: seq<nat>, i: nat, j: nat)
    requires i < j < |slow| == |group|
  {
    exists k :: i < k <= j && group[k] == group[i] && slow[k].duration - slow[i].duration < GAP
  }

  lemma AcrossGap(slow: seq<Case>, i: nat, m: nat, k: nat)
    requires Rising(slow) && i < m <= k < |slow|
    ensures slow[k].duration - slow[i].duration >= slow[m].duration - slow[m-1].duration
  {
  }

  /** No group reaches across a gap. */
  lemma {:induction false} NoGroupSpansGap(slow: seq<Case>, group: seq<nat>, n: nat, i: nat, m: nat, j: nat)
    requires Rising(slow) && Grouping(slow, group, n)
    requires i < m <= j < |slow| && slow[m].duration - slow[m-1].duration >= GAP
    ensures group[i] != group[j]
    decreases m - i
  {
    if group[i] == group[j] {
      assert HasNext(slow, group, i, j);
      var k :| i < k <= j && group[k] == group[i] && slow[k].duration - slow[i].duration < GAP;
      if k < m { NoGroupSpansGap(slow, group, n, k, m, j); } else { AcrossGap(slow, i, m, k); }
    }
  }

  function Start(runs: seq<seq<Case>>, i: nat): nat
    requires i <= |runs|
  {
    |Concat(runs[..i])|
  }

  lemma {:induction false} RunSitsAt(runs: seq<seq<Case>>, i: nat)
    requires i < |runs|
    ensures Start(runs, i) + |runs[i]| == Start(runs, i + 1) <= |Concat(runs)|
    ensures Concat(runs)[Start(runs, i)..Start(runs, i + 1)] == runs[i]
    decreases |runs| - i
  {
    ConcatSnoc(runs[..i], runs[i]);
    assert runs[..i+1] == runs[..i] + [runs[i]];
    PrefixOfConcat(runs, i + 1);
  }

  lemma {:induction false} PrefixOfConcat(runs: seq<seq<Case>>, i: nat)
    requires i <= |runs|
    ensures |Concat(runs[..i])| <= |Concat(runs)| && Concat(runs)[..|Concat(runs[..i])|] == Concat(runs[..i])
  {
    if i == |runs| {
      assert runs[..i] == runs;
    } else {
      PrefixOfConcat(runs[..|runs|-1], i);
      assert runs[..|runs|-1][..i] == runs[..i];
    }
  }

  lemma {:induction false} StartsRise(runs: seq<seq<Case>>, i: nat, j: nat)
    requires i <= j <= |runs|
    ensures Start(runs, i) <= Start(runs, j)
    decreases j
  {
    if i < j {
      StartsRise(runs, i, j - 1);
      RunSitsAt(runs, j - 1);
    }
  }

  /** The first cases of two runs cannot share a group. */
  lemma StartsAreApart(runs: seq<seq<Case>>, group: seq<nat>, n: nat, i: nat, j: nat)
    requires AllTight(runs) && Greedy(runs) && Rising(Concat(runs)) && Grouping(Concat(runs), group, n)
    requires i < j < |runs|
    ensures Start(runs, i) < Start(runs, j) < |Concat(runs)|
    ensures group[Start(runs, i)] != group[Start(runs, j)]
  {
    var slow, a, m, b := Concat(runs), Start(runs, i), Start(runs, i + 1), Start(runs, j);
    assert a < m && (slow[m].duration - slow[m-1].duration >= GAP || slow[m].duration - slow[a].duration > MAX_WIDTH) by {
      BarredAtStart(runs, i);
    }
    assert m <= b by { StartsRise(runs, i + 1, j); }
    assert b < |slow| by { RunEnds(runs, j); }
    NoSharedGroup(slow, group, n, a, m, b);
  }

  lemma BarredAtStart(runs: seq<seq<Case>>, i: nat)
    requires AllTight(runs) && Greedy(runs) && i + 1 < |runs|
    ensures
      var slow, a, m := Concat(runs), Start(runs, i), Start(runs, i + 1);
      a < m < |slow|
      && (slow[m].duration - slow[m-1].duration >= GAP || slow[m].duration - slow[a].duration > MAX_WIDTH)
  {
    RunEnds(runs, i);
    RunEnds(runs, i + 1);
    assert Barred(runs[i], runs[i+1][0]);
  }

  lemma NoSharedGroup(slow: seq<Case>, group: seq<nat>, n: nat, a: nat, m: nat, b: nat)
    requires Rising(slow) && Grouping(slow, group, n) && a < m <= b < |slow|
    requires slow[m].duration - slow[m-1].duration >= GAP || slow[m].duration - slow[a].duration > MAX_WIDTH
    ensures group[a] != group[b]
  {
    if slow[m].duration - slow[m-1].duration >= GAP {
      NoGroupSpansGap(slow, group, n, a, m, b);
    } else {
      assert m < b ==> slow[m].duration <= slow[b].duration;
    }
  }

  lemma RunEnds(runs: seq<seq<Case>>, i: nat)
    requires AllTight(runs) && i < |runs|
    ensures Start(runs, i) < Start(runs, i + 1) <= |Concat(runs)|
    ensures Concat(runs)[Start(runs, i)] == runs[i][0] && runs[i] != []
    ensures Concat(runs)[Start(runs, i + 1) - 1] == runs[i][|runs[i]|-1]
  {
    RunSitsAt(runs, i);
    assert Tight(runs[i]);
    var at := Concat(runs)[Start(runs, i)..Start(runs, i + 1)];
    assert at[0] == runs[i][0] && at[|at|-1] == runs[i][|runs[i]|-1];
  }

  lemma {:induction false} DistinctBelow(s: seq<nat>, n: nat)
    requires forall i :: 0 <= i < |s| ==> s[i] < n
    requires forall i, j :: 0 <= i < j < |s| ==> s[i] != s[j]
    ensures |s| <= n
    decreases n
  {
    if s != [] {
      var first := s[0];
      assert first < n;
      if n - 1 in s {
        var k :| 0 <= k < |s| && s[k] == n - 1;
        DistinctBelow(s[..k] + s[k+1..], n - 1);
      } else {
        DistinctBelow(s, n - 1);
      }
    }
  }

  /** The runs are the fewest: any grouping of the slow tests that keeps to the gap and the width,
      contiguous or not, has at least as many groups. */
  lemma FewestGroups(runs: seq<seq<Case>>, group: seq<nat>, n: nat)
    requires AllTight(runs) && Greedy(runs) && Rising(Concat(runs)) && Grouping(Concat(runs), group, n)
    ensures |runs| <= n
  {
    forall i | 0 <= i < |runs| ensures Start(runs, i) < |group| {
      RunSitsAt(runs, i);
      assert Tight(runs[i]);
    }
    var firsts := seq(|runs|, i requires 0 <= i < |runs| => group[Start(runs, i)]);
    forall i, j | 0 <= i < j < |runs| ensures firsts[i] != firsts[j] {
      StartsAreApart(runs, group, n, i, j);
    }
    DistinctBelow(firsts, n);
  }

  function Labels(runs: seq<seq<Case>>): seq<nat> {
    if runs == [] then []
    else Labels(runs[..|runs|-1]) + seq(|runs[|runs|-1]|, _ => |runs| - 1)
  }

  /** Any way to cut the sorted tests into tight runs is a grouping, with a group for each run. */
  lemma {:induction false} RunsAreGroups(runs: seq<seq<Case>>)
    requires AllTight(runs) && Rising(Concat(runs))
    ensures Grouping(Concat(runs), Labels(runs), |runs|)
  {
    if runs != [] {
      var last := |runs| - 1;
      var before, run := Concat(runs[..last]), runs[last];
      assert before == Concat(runs)[..|before|];
      RunsAreGroups(runs[..last]);
      LabelsGrow(before, Labels(runs[..last]), last, run);
    }
  }

  lemma LabelsGrow(before: seq<Case>, group: seq<nat>, n: nat, run: seq<Case>)
    requires Grouping(before, group, n) && Tight(run)
    ensures Grouping(before + run, group + seq(|run|, _ => n), n + 1)
  {
    var slow, group' := before + run, group + seq(|run|, _ => n);
    assert forall p :: 0 <= p < |before| ==> group'[p] < n;
    forall i, j | 0 <= i < j < |slow| && group'[i] == group'[j]
      ensures slow[j].duration - slow[i].duration <= MAX_WIDTH && HasNext(slow, group', i, j)
    {
      if j < |before| {
        assert group[i] == group[j] && HasNext(before, group, i, j);
        var k :| i < k <= j && group[k] == group[i] && before[k].duration - before[i].duration < GAP;
        assert group'[k] == group'[i] && slow[k].duration - slow[i].duration < GAP;
      } else {
        var a := i - |before|;
        assert slow[i] == run[a] && slow[i+1] == run[a+1] && slow[j] == run[j - |before|];
        assert run[0].duration <= run[a].duration && run[j - |before|].duration <= run[|run|-1].duration;
        assert group'[i+1] == group'[i] && slow[i+1].duration - slow[i].duration < GAP;
      }
    }
  }

  /** Greedy cutting is optimal among all cuttings. */
  lemma FewestRuns(runs: seq<seq<Case>>, other: seq<seq<Case>>)
    requires AllTight(runs) && Greedy(runs) && Rising(Concat(runs))
    requires AllTight(other) && Concat(other) == Concat(runs)
    ensures |runs| <= |other|
  {
    RunsAreGroups(other);
    FewestGroups(runs, Labels(other), |other|);
  }

  // ----- the report -----

  function Describe(run: seq<Case>): Cluster
    requires run != []
  {
    Cluster(|run|, run[0].duration, run[|run|-1].duration, Seconds(run), |set c | c in run :: c.file|)
  }

  predicate Suspect(c: Cluster) {
    c.files >= MIN_FILES && c.n >= MIN_TESTS && c.high - c.low <= MAX_WIDTH
  }

  /** The descriptions that pass every filter, in order. */
  function Reported(runs: seq<seq<Case>>): seq<Cluster>
    requires forall i :: 0 <= i < |runs| ==> runs[i] != []
  {
    if runs == [] then []
    else
      var c := Describe(runs[|runs|-1]);
      Reported(runs[..|runs|-1]) + (if Suspect(c) then [c] else [])
  }

  ghost predicate CutOf(cases: seq<Case>, runs: seq<seq<Case>>)
    ensures CutOf(cases, runs) ==> forall i :: 0 <= i < |runs| ==> runs[i] != []
  {
    Concat(runs) == SortedSlow(cases) && AllTight(runs) && Greedy(runs)
  }

  method FindClusters(cases: seq<Case>) returns (out: seq<Cluster>, runs: seq<seq<Case>>)
    ensures CutOf(cases, runs) && out == Reported(runs)
    ensures forall c :: multiset(Concat(runs))[c] == if c.duration > 5.0 then multiset(cases)[c] else 0
    ensures |out| == |Worthy(runs)| && forall i :: 0 <= i < |out| ==> Summarizes(out[i], Worthy(runs)[i])
  {
    SortedSlowRises(cases);
    var cut := CutIntoRuns(SortedSlow(cases));
    runs := cut;
    out := [];
    for i := 0 to |cut|
      invariant out == Reported(cut[..i])
    {
      assert cut[..i+1][..i] == cut[..i];
      assert Tight(cut[i]);
      var c := Describe(cut[i]);
      if Suspect(c) { out := out + [c]; }
    }
    assert cut[..|cut|] == cut;
    forall c ensures multiset(Concat(runs))[c] == if c.duration > 5.0 then multiset(cases)[c] else 0 { SlowExactly(cases, c); }
    WorthyReported(runs);
  }

  lemma {:induction false} SlowExactly(cases: seq<Case>, c: Case)
    ensures multiset(Slow(cases))[c] == if c.duration > 5.0 then multiset(cases)[c] else 0
  {
    if cases != [] {
      SlowExactly(cases[1..], c);
      assert cases == [cases[0]] + cases[1..];
    }
  }

  /** Five tests or more, three of them from different files. */
  ghost predicate Worth(run: seq<Case>) {
    |run| >= 5 && exists x, y, z :: FromThreeFiles(run, x, y, z)
  }

  predicate FromThreeFiles(run: seq<Case>, x: Case, y: Case, z: Case) {
    x in run && y in run && z in run && x.file != y.file && y.file != z.file && z.file != x.file
  }

  /** The runs worth reporting, in order. */
  ghost function Worthy(runs: seq<seq<Case>>): seq<seq<Case>> {
    if runs == [] then []
    else Worthy(runs[..|runs|-1]) + (if Worth(runs[|runs|-1]) then [runs[|runs|-1]] else [])
  }

  /** How many tests the run has, how fast and slow they are, how long they took together, from how many files. */
  ghost predicate Summarizes(c: Cluster, run: seq<Case>) {
    && c.n == |run| && c.seconds == Seconds(run) && c.files == |set x | x in run :: x.file|
    && (forall x | x in run :: c.low <= x.duration <= c.high)
    && (exists x :: x in run && x.duration == c.low) && exists x :: x in run && x.duration == c.high
  }

  lemma ThreeFiles(run: seq<Case>)
    ensures |set x | x in run :: x.file| >= 3 <==> exists x, y, z :: FromThreeFiles(run, x, y, z)
  {
    var files := set x | x in run :: x.file;
    if |files| >= 3 {
      var a :| a in files;
      assert |files - {a}| >= 2;
      var b :| b in files - {a};
      assert |files - {a} - {b}| >= 1;
      var c :| c in files - {a} - {b};
      var x :| x in run && x.file == a;
      var y :| y in run && y.file == b;
      var z :| z in run && z.file == c;
      assert FromThreeFiles(run, x, y, z);
    }
    if x, y, z :| FromThreeFiles(run, x, y, z) {
      SubsetSize({x.file, y.file, z.file}, files);
    }
  }

  lemma SubsetSize(a: set<string>, b: set<string>)
    requires a <= b
    ensures |a| <= |b|
  {
    assert b == a + (b - a);
  }

  lemma DescribeSummarizes(run: seq<Case>)
    requires Tight(run)
    ensures Summarizes(Describe(run), run) && (Suspect(Describe(run)) <==> Worth(run))
  {
    ThreeFiles(run);
    forall x | x in run ensures run[0].duration <= x.duration <= run[|run|-1].duration {
      var i :| 0 <= i < |run| && run[i] == x;
    }
    assert run[0] in run && run[|run|-1] in run;
  }

  /** The report summarises exactly the runs worth it, in order. */
  lemma {:induction false} WorthyReported(runs: seq<seq<Case>>)
    requires AllTight(runs)
    ensures forall i :: 0 <= i < |runs| ==> runs[i] != []
    ensures |Reported(runs)| == |Worthy(runs)|
    ensures forall i :: 0 <= i < |Worthy(runs)| ==> Summarizes(Reported(runs)[i], Worthy(runs)[i])
  {
    forall i | 0 <= i < |runs| ensures runs[i] != [] { assert Tight(runs[i]); }
    if runs != [] {
      WorthyReported(runs[..|runs|-1]);
      DescribeSummarizes(runs[|runs|-1]);
    }
  }

  /** What the report counts as parked are the tests of those runs. */
  lemma {:induction false} ParkedExactly(runs: seq<seq<Case>>)
    requires AllTight(runs)
    ensures forall i :: 0 <= i < |runs| ==> runs[i] != []
    ensures Parked(Reported(runs)) == Seconds(Concat(Worthy(runs))) && ParkedTests(Reported(runs)) == |Concat(Worthy(runs))|
  {
    forall i | 0 <= i < |runs| ensures runs[i] != [] { assert Tight(runs[i]); }
    if runs != [] {
      ParkedExactly(runs[..|runs|-1]);
      ReportedParts(runs);
      DescribeSummarizes(runs[|runs|-1]);
      WorthyParts(Worthy(runs[..|runs|-1]), runs[|runs|-1]);
      if !Worth(runs[|runs|-1]) { assert Worthy(runs) == Worthy(runs[..|runs|-1]); }
    }
  }

  lemma WorthyParts(kept: seq<seq<Case>>, run: seq<Case>)
    ensures Seconds(Concat(kept + [run])) == Seconds(Concat(kept)) + Seconds(run)
    ensures |Concat(kept + [run])| == |Concat(kept)| + |run|
  {
    ConcatSnoc(kept, run);
    SecondsJoin(Concat(kept), run);
  }

  /** The share is the parked seconds in hundredths of all seconds. */
  lemma ShareExactly(out: seq<Cluster>, cpu: real)
    ensures if cpu == 0.0 then Share(out, cpu) == 0.0 else Share(out, cpu) * cpu == Parked(out) * 100.0
  {
    if cpu != 0.0 { ShareTimes(Parked(out), cpu); }
  }

  lemma ShareTimes(parked: real, cpu: real)
    requires cpu != 0.0
    ensures parked / cpu * 100.0 * cpu == parked * 100.0
  {
    var q := parked / cpu;
    assert q * cpu == parked;
    assert q * 100.0 * cpu == (q * cpu) * 100.0;
  }

  lemma SortedSlowRises(cases: seq<Case>)
    ensures Rising(SortedSlow(cases)) && multiset(SortedSlow(cases)) == multiset(Slow(cases))
  {
    var key := (c: Case) => c.duration;
    SortBySorts(Slow(cases), key);
    var s := SortedSlow(cases);
    forall i, j | 0 <= i < j < |s| ensures s[i].duration <= s[j].duration {
      assert key(s[i]) <= key(s[j]);
    }
  }

  /** The filter on width never removes a cluster the others keep. */
  lemma WidthFilterIsRedundant(run: seq<Case>)
    requires Tight(run)
    ensures Suspect(Describe(run)) <==> Describe(run).files >= MIN_FILES && |run| >= MIN_TESTS
  {
  }

  function Parked(out: seq<Cluster>): real {
    if out == [] then 0.0 else Parked(out[..|out|-1]) + out[|out|-1].seconds
  }

  function ParkedTests(out: seq<Cluster>): nat {
    if out == [] then 0 else ParkedTests(out[..|out|-1]) + out[|out|-1].n
  }

  lemma {:induction false} SecondsJoin(a: seq<Case>, b: seq<Case>)
    ensures Seconds(a + b) == Seconds(a) + Seconds(b)
    decreases |b|
  {
    if b == [] {
      assert a + b == a;
    } else {
      SecondsJoin(a, b[..|b|-1]);
      assert (a + b)[..|a + b| - 1] == a + b[..|b|-1];
    }
  }

  lemma RemoveAt(b: seq<Case>, k: nat)
    requires k < |b|
    ensures multiset(b[..k] + b[k+1..]) == multiset(b) - multiset{b[k]}
    ensures Seconds(b) == Seconds(b[..k] + b[k+1..]) + b[k].duration
  {
    RemoveFromBag(b, k);
    SecondsAround(b, b[..k], b[k], b[k+1..]);
  }

  lemma RemoveFromBag(b: seq<Case>, k: nat)
    requires k < |b|
    ensures multiset(b[..k] + b[k+1..]) == multiset(b) - multiset{b[k]}
    ensures b == (b[..k] + [b[k]]) + b[k+1..]
  {
    assert b == (b[..k] + [b[k]]) + b[k+1..];
  }

  lemma SecondsAround(b: seq<Case>, left: seq<Case>, c: Case, right: seq<Case>)
    requires b == (left + [c]) + right
    ensures Seconds(b) == Seconds(left + right) + c.duration
  {
    SecondsJoin(left + [c], right);
    SecondsJoin(left, right);
    assert (left + [c])[..|left|] == left;
  }

  lemma {:induction false} SecondsOfPermutation(a: seq<Case>, b: seq<Case>)
    requires multiset(a) == multiset(b)
    ensures Seconds(a) == Seconds(b)
    decreases |a|
  {
    if a == [] {
      assert |multiset(b)| == |b|;
    } else {
      var last := |a| - 1;
      assert a[last] in multiset(b);
      var k :| 0 <= k < |b| && b[k] == a[last];
      RemoveAt(a, last);
      RemoveAt(b, k);
      assert a[..last] + a[last+1..] == a[..last];
      SecondsOfPermutation(a[..last], b[..k] + b[k+1..]);
    }
  }

  lemma {:induction false} SlowSeconds(cases: seq<Case>)
    requires forall i :: 0 <= i < |cases| ==> cases[i].duration >= 0.0
    ensures Seconds(Slow(cases)) <= Seconds(cases) && |Slow(cases)| <= |cases|
    ensures forall c :: c in Slow(cases) ==> c.duration > FLOOR
  {
    if cases != [] {
      SlowSeconds(cases[1..]);
      SecondsJoin([cases[0]], cases[1..]);
      assert cases == [cases[0]] + cases[1..];
      SecondsJoin(if cases[0].duration > FLOOR then [cases[0]] else [], Slow(cases[1..]));
    }
  }

  lemma {:induction false} PositiveSeconds(run: seq<Case>)
    requires forall c :: c in run ==> c.duration > FLOOR
    ensures Seconds(run) >= 0.0
  {
    if run != [] {
      assert run[|run|-1] in run;
      PositiveSeconds(run[..|run|-1]);
    }
  }

  lemma {:induction false} ParkedWithinRuns(runs: seq<seq<Case>>)
    requires forall i :: 0 <= i < |runs| ==> runs[i] != []
    requires forall c :: c in Concat(runs) ==> c.duration > FLOOR
    ensures 0.0 <= Parked(Reported(runs)) <= Seconds(Concat(runs))
    ensures ParkedTests(Reported(runs)) <= |Concat(runs)|
  {
    if runs != [] {
      var last := |runs| - 1;
      var before, run := Concat(runs[..last]), runs[last];
      assert Concat(runs) == before + run;
      assert forall c :: c in run ==> c in Concat(runs);
      assert forall c :: c in before ==> c in Concat(runs);
      ParkedWithinRuns(runs[..last]);
      SecondsJoin(before, run);
      PositiveSeconds(run);
      ReportedParts(runs);
    }
  }

  lemma ReportedParts(runs: seq<seq<Case>>)
    requires runs != [] && forall i :: 0 <= i < |runs| ==> runs[i] != []
    ensures
      var last := |runs| - 1;
      var kept := Reported(runs[..last]);
      var keep := Suspect(Describe(runs[last]));
      && Parked(Reported(runs)) == Parked(kept) + (if keep then Seconds(runs[last]) else 0.0)
      && ParkedTests(Reported(runs)) == ParkedTests(kept) + (if keep then |runs[last]| else 0)
  {
    var kept, c := Reported(runs[..|runs|-1]), Describe(runs[|runs|-1]);
    assert (kept + [c])[..|kept|] == kept && kept + [] == kept;
  }

  function Share(out: seq<Cluster>, cpu: real): real {
    if cpu != 0.0 then Parked(out) / cpu * 100.0 else 0.0
  }

  /** No test is counted in two clusters, so parked time and tests never exceed the totals, and the
      reported share is a percentage. */
  lemma ParkedWithinTotal(cases: seq<Case>, runs: seq<seq<Case>>)
    requires CutOf(cases, runs)
    requires forall i :: 0 <= i < |cases| ==> cases[i].duration >= 0.0
    ensures
      var out := Reported(runs);
      && Parked(out) <= Seconds(cases)
      && ParkedTests(out) <= |cases|
      && 0.0 <= Share(out, Seconds(cases)) <= 100.0
  {
    SortedSlowRises(cases);
    SlowSeconds(cases);
    SecondsOfPermutation(SortedSlow(cases), Slow(cases));
    forall c | c in Concat(runs) ensures c.duration > FLOOR {
      assert c in multiset(SortedSlow(cases));
      assert c in Slow(cases);
    }
    assert |SortedSlow(cases)| == |multiset(Slow(cases))|;
    ParkedWithinRuns(runs);
    ShareBounds(Parked(Reported(runs)), Seconds(cases));
  }

  lemma ShareBounds(parked: real, cpu: real)
    requires 0.0 <= parked <= cpu
    ensures cpu != 0.0 ==> 0.0 <= parked / cpu * 100.0 <= 100.0
  {
    if cpu != 0.0 {
      var q := parked / cpu;
      assert q * cpu == parked;
      assert q > 1.0 ==> (q - 1.0) * cpu > 0.0;
      assert q < 0.0 ==> -q * cpu > 0.0;
    }
  }
}
