/** Per-stage time and peak-memory accounting of a diarization benchmark run: the progress hook, the
    final capture, and the loop that turns cumulative peaks into per-stage deltas. */
module StageAccounting {
  import opened Sorting

  /** One call of the hook: the stage it names, the clock, and the peak reading. */
  datatype Event = Event(step: string, now: real, peak: int)

  datatype Stage = Stage(start: real, peak: int, last: real)

  function Max(a: int, b: int): int { if a >= b then a else b }

  // ----- what the table should hold -----

  /** Each stage once, in the order of its first event; `firsts` says where in the log that was. */
  ghost predicate Placed(log: seq<Event>, order: seq<string>, firsts: seq<nat>) {
    && |firsts| == |order|
    && (forall k :: 0 <= k < |order| ==> firsts[k] < |log| && log[firsts[k]].step == order[k])
    && (forall j, k :: 0 <= j < k < |order| ==> firsts[j] < firsts[k] && order[j] != order[k])
    && (forall i :: 0 <= i < |log| ==> NamedBy(log, order, firsts, i))
  }

  ghost predicate NamedBy(log: seq<Event>, order: seq<string>, firsts: seq<nat>, i: nat)
    requires i < |log| && |firsts| == |order|
  {
    exists k :: 0 <= k < |order| && order[k] == log[i].step && firsts[k] <= i
  }

  /** A stage starts at its first event, and its cumulative peak is the reading at the next stage's first
      event; the last stage has its own. */
  ghost predicate Entered(log: seq<Event>, order: seq<string>, firsts: seq<nat>, timing: map<string, Stage>,
                          last: int, k: nat)
    requires k < |order| == |firsts|
  {
    && order[k] in timing
    && firsts[k] < |log| && timing[order[k]].start == log[firsts[k]].now
    && if k + 1 < |order| then firsts[k+1] < |log| && timing[order[k]].peak == log[firsts[k+1]].peak
       else timing[order[k]].peak == last
  }

  /** The table has such an entry for every stage, and no other entries. */
  ghost predicate Filled(log: seq<Event>, order: seq<string>, firsts: seq<nat>, timing: map<string, Stage>, last: int) {
    && |order| == |firsts|
    && (forall k :: 0 <= k < |order| ==> Entered(log, order, firsts, timing, last, k))
    && (forall name :: name in timing ==> name in order)
  }

  /** The latest reading after the last stage's first event, or 0. */
  function Latest(log: seq<Event>, firsts: seq<nat>): int {
    if firsts == [] || log == [] || firsts[|firsts|-1] == |log| - 1 then 0 else log[|log|-1].peak
  }

  function WithPeak(timing: map<string, Stage>, order: seq<string>, peak: int): map<string, Stage> {
    if order != [] && order[|order|-1] in timing then
      timing[order[|order|-1] := timing[order[|order|-1]].(peak := peak)]
    else timing
  }

  lemma WithPeakKeeps(log: seq<Event>, order: seq<string>, firsts: seq<nat>, timing: map<string, Stage>,
                      last: int, peak: int)
    requires Placed(log, order, firsts) && Filled(log, order, firsts, timing, last)
    ensures Filled(log, order, firsts, WithPeak(timing, order, peak), peak)
  {
    forall k | 0 <= k < |order| ensures Entered(log, order, firsts, WithPeak(timing, order, peak), peak, k) {
      assert Entered(log, order, firsts, timing, last, k);
      assert Entered(log, order, firsts, timing, last, |order| - 1);
      if k < |order| - 1 { assert order[k] != order[|order|-1]; }
    }
  }

  lemma PlacedGrows(log: seq<Event>, order: seq<string>, firsts: seq<nat>, e: Event)
    requires Placed(log, order, firsts)
    ensures e.step in order ==> Placed(log + [e], order, firsts)
    ensures e.step !in order ==> Placed(log + [e], order + [e.step], firsts + [|log|])
  {
    var log', order', firsts' := log + [e], order, firsts;
    if e.step !in order { order', firsts' := order + [e.step], firsts + [|log|]; }
    forall i | 0 <= i < |log'| ensures NamedBy(log', order', firsts', i) {
      if i < |log| {
        assert NamedBy(log, order, firsts, i);
        var k :| 0 <= k < |order| && order[k] == log[i].step && firsts[k] <= i;
        assert order'[k] == log'[i].step && firsts'[k] <= i;
      } else {
        var k :| 0 <= k < |order'| && order'[k] == e.step;
        assert order'[k] == log'[i].step && firsts'[k] <= i;
      }
    }
  }

  lemma Known(log: seq<Event>, order: seq<string>, firsts: seq<nat>, timing: map<string, Stage>, last: int, name: string)
    requires Filled(log, order, firsts, timing, last)
    ensures name in timing <==> name in order
  {
    if name in order {
      var k :| 0 <= k < |order| && order[k] == name;
      assert Entered(log, order, firsts, timing, last, k);
    }
  }

  /** An event of a stage already in the table only moves the stage's last time. */
  lemma OldStage(log: seq<Event>, order: seq<string>, firsts: seq<nat>, timing: map<string, Stage>, e: Event)
    requires Filled(log, order, firsts, timing, e.peak) && e.step in order
    ensures e.step in timing
    ensures Filled(log + [e], order, firsts, timing[e.step := timing[e.step].(last := e.now)], e.peak)
  {
    var k :| 0 <= k < |order| && order[k] == e.step;
    assert Entered(log, order, firsts, timing, e.peak, k);
    var timing' := timing[e.step := timing[e.step].(last := e.now)];
    forall j | 0 <= j < |order| ensures Entered(log + [e], order, firsts, timing', e.peak, j) {
      assert Entered(log, order, firsts, timing, e.peak, j);
    }
  }

  /** An event of a new stage closes the previous one at its reading and opens its own entry. */
  lemma NewStage(log: seq<Event>, order: seq<string>, firsts: seq<nat>, timing: map<string, Stage>, e: Event)
    requires Filled(log, order, firsts, timing, e.peak) && e.step !in order
    ensures e.step !in timing
    ensures Filled(log + [e], order + [e.step], firsts + [|log|], timing[e.step := Stage(e.now, 0, e.now)], 0)
  {
    var order', firsts', timing' := order + [e.step], firsts + [|log|], timing[e.step := Stage(e.now, 0, e.now)];
    forall j | 0 <= j < |order'| ensures Entered(log + [e], order', firsts', timing', 0, j) {
      if j < |order| {
        assert Entered(log, order, firsts, timing, e.peak, j);
        assert order'[j] == order[j] && order[j] in order;
      }
    }
  }

  datatype Table = Table(order: seq<string>, timing: map<string, Stage>)

  function Hooked(t: Table, e: Event): Table {
    var timing := WithPeak(t.timing, t.order, e.peak);
    Table(
      if e.step in timing then t.order else t.order + [e.step],
      timing[e.step := if e.step in timing then timing[e.step].(last := e.now) else Stage(e.now, 0, e.now)])
  }

  /** The table after the hook was called for every event of the log. */
  function TableOf(log: seq<Event>): Table {
    if log == [] then Table([], map[]) else Hooked(TableOf(log[..|log|-1]), log[|log|-1])
  }

  /** Where in the log each stage first appears. */
  function Firsts(log: seq<Event>): seq<nat> {
    if log == [] then []
    else
      var n := |log| - 1;
      Firsts(log[..n]) + (if log[n].step in TableOf(log[..n]).order then [] else [n])
  }

  lemma HookStep(log: seq<Event>, order: seq<string>, firsts: seq<nat>, timing: map<string, Stage>, e: Event)
    requires Placed(log, order, firsts) && Filled(log, order, firsts, timing, Latest(log, firsts))
    ensures
      var t := Hooked(Table(order, timing), e);
      var firsts' := if e.step in order then firsts else firsts + [|log|];
      && Placed(log + [e], t.order, firsts')
      && Filled(log + [e], t.order, firsts', t.timing, Latest(log + [e], firsts'))
  {
    var t := WithPeak(timing, order, e.peak);
    WithPeakKeeps(log, order, firsts, timing, Latest(log, firsts), e.peak);
    PlacedGrows(log, order, firsts, e);
    Known(log, order, firsts, t, e.peak, e.step);
    if e.step in order {
      OldStage(log, order, firsts, t, e);
      assert firsts[|firsts|-1] < |log|;
    } else {
      NewStage(log, order, firsts, t, e);
    }
  }

  /** After any sequence of calls, repeated stage names included, the table is what it should be. */
  lemma {:induction false} TableIsRight(log: seq<Event>)
    ensures Placed(log, TableOf(log).order, Firsts(log))
    ensures Filled(log, TableOf(log).order, Firsts(log), TableOf(log).timing, Latest(log, Firsts(log)))
  {
    if log != [] {
      var before, e := log[..|log|-1], log[|log|-1];
      TableIsRight(before);
      HookStep(before, TableOf(before).order, Firsts(before), TableOf(before).timing, e);
      TableStep(log, before, e);
    }
  }

  lemma TableStep(log: seq<Event>, before: seq<Event>, e: Event)
    requires log != [] && before == log[..|log|-1] && e == log[|log|-1]
    ensures before + [e] == log
    ensures TableOf(log) == Hooked(Table(TableOf(before).order, TableOf(before).timing), e)
    ensures Firsts(log) == if e.step in TableOf(before).order then Firsts(before) else Firsts(before) + [|before|]
  {
  }

  function FinalTiming(log: seq<Event>, finalPeak: int): map<string, Stage> {
    WithPeak(TableOf(log).timing, TableOf(log).order, finalPeak)
  }

  /** After the final capture every stage, the last included, holds the reading at its end. */
  lemma FinalIsRight(log: seq<Event>, finalPeak: int)
    ensures Placed(log, TableOf(log).order, Firsts(log))
    ensures Filled(log, TableOf(log).order, Firsts(log), FinalTiming(log, finalPeak), finalPeak)
    ensures log != [] ==> TableOf(log).order != []
  {
    TableIsRight(log);
    WithPeakKeeps(log, TableOf(log).order, Firsts(log), TableOf(log).timing, Latest(log, Firsts(log)), finalPeak);
    if log != [] { assert NamedBy(log, TableOf(log).order, Firsts(log), 0); }
  }

  // ----- the hook -----

  lemma LastIsKnown(log: seq<Event>)
    ensures var t := TableOf(log); t.order != [] ==> t.order[|t.order|-1] in t.timing
  {
    TableIsRight(log);
    var t := TableOf(log);
    if t.order != [] { Known(log, t.order, Firsts(log), t.timing, Latest(log, Firsts(log)), t.order[|t.order|-1]); }
  }

  class StageTimer {
    var timing: map<string, Stage>
    var order: seq<string>
    ghost var log: seq<Event>

    ghost predicate Valid()
      reads this
    {
      Table(order, timing) == TableOf(log)
    }

    constructor ()
      ensures Valid() && log == []
    {
      timing, order, log := map[], [], [];
    }

    method TimingHook(step: string, now: real, peak: int)
      requires Valid()
      modifies this
      ensures Valid() && log == old(log) + [Event(step, now, peak)]
    {
      LastIsKnown(log);
      if order != [] {
        var previous := order[|order|-1];
        timing := timing[previous := timing[previous].(peak := peak)];
      }
      if step !in timing {
        timing := timing[step := Stage(now, 0, now)];
        order := order + [step];
      }
      timing := timing[step := timing[step].(last := now)];
      log := log + [Event(step, now, peak)];
      assert log[..|log|-1] == old(log);
    }

    /** The capture after the pipeline returns. */
    method CaptureFinal(finalPeak: int)
      requires Valid()
      modifies this`timing
      ensures order == TableOf(log).order && timing == FinalTiming(log, finalPeak)
    {
      LastIsKnown(log);
      if order != [] {
        var lastStage := order[|order|-1];
        timing := timing[lastStage := timing[lastStage].(peak := finalPeak)];
      }
    }

    /** The loop over the sorted table entries that fills the report. */
    method Report(baseline: int, end: real, ghost finalPeak: int)
      returns (durations: map<string, real>, peaks: map<string, int>, deltas: map<string, int>)
      requires order == TableOf(log).order && timing == FinalTiming(log, finalPeak)
      ensures forall k :: 0 <= k < |order| ==> order[k] in timing
      ensures Reports(Stages(log, finalPeak), |Stages(log, finalPeak)|, baseline, end, durations, peaks, deltas)
      ensures InTableOrder(Stages(log, finalPeak), ItemsOf(order, timing))
    {
      StageNamesDiffer(log, finalPeak);
      AllIn(log, order, Firsts(log), timing, finalPeak);
      SortedByStart(ItemsOf(order, timing));
      durations, peaks, deltas := Summarize(ByStart(ItemsOf(order, timing)), baseline, end);
    }
  }

  datatype Item = Item(name: string, stage: Stage)

  function ItemsOf(order: seq<string>, timing: map<string, Stage>): seq<Item>
    requires forall k :: 0 <= k < |order| ==> order[k] in timing
  {
    seq(|order|, k requires 0 <= k < |order| => Item(order[k], timing[order[k]]))
  }

  function ByStart(items: seq<Item>): seq<Item> { SortBy(items, (i: Item) => i.stage.start) }

  /** Whatever the clock did, the stages are gone through by their start times, none lost or added. */
  ghost predicate InTableOrder(stages: seq<Item>, items: seq<Item>) {
    multiset(stages) == multiset(items) && forall i, j :: 0 <= i < j < |stages| ==> stages[i].stage.start <= stages[j].stage.start
  }

  lemma SortedByStart(items: seq<Item>)
    ensures InTableOrder(ByStart(items), items)
  {
    var key, stages := (i: Item) => i.stage.start, ByStart(items);
    SortBySorts(items, key);
    forall i, j | 0 <= i < j < |stages| ensures stages[i].stage.start <= stages[j].stage.start {
      assert key(stages[i]) <= key(stages[j]);
    }
  }

  // ----- the summary loop -----

  function RoundHalfEven(x: real): int {
    var low := x.Floor;
    var rest := x - low as real;
    if rest < 0.5 || (rest == 0.5 && low % 2 == 0) then low else low + 1
  }

  /** `round(x, 3)` */
  function Round3(x: real): real { RoundHalfEven(x * 1000.0) as real / 1000.0 }

  function EndOf(stages: seq<Item>, i: nat, end: real): real
    requires i < |stages|
  {
    if i + 1 < |stages| then stages[i+1].stage.start else end
  }

  /** The highest cumulative peak of the first stages, not below the baseline. */
  function PeakSoFar(stages: seq<Item>, n: nat, baseline: int): int
    requires n <= |stages|
  {
    if n == 0 then baseline else Max(PeakSoFar(stages, n - 1, baseline), stages[n-1].stage.peak)
  }

  function Delta(stages: seq<Item>, i: nat, baseline: int): int
    requires i < |stages|
  {
    Max(0, stages[i].stage.peak - PeakSoFar(stages, i, baseline))
  }

  ghost predicate DistinctNames(stages: seq<Item>) {
    forall i, j :: 0 <= i < j < |stages| ==> stages[i].name != stages[j].name
  }

  /** The report's entries for the first stages are their rounded durations, cumulative peaks and deltas. */
  ghost predicate Reports(stages: seq<Item>, n: nat, baseline: int, end: real,
                          durations: map<string, real>, peaks: map<string, int>, deltas: map<string, int>)
    requires n <= |stages|
  {
    forall i :: 0 <= i < n ==> Entry(stages, i, baseline, end, durations, peaks, deltas)
  }

  ghost predicate Entry(stages: seq<Item>, i: nat, baseline: int, end: real,
                        durations: map<string, real>, peaks: map<string, int>, deltas: map<string, int>)
    requires i < |stages|
  {
    var name := stages[i].name;
    && name in durations && durations[name] == Round3(EndOf(stages, i, end) - stages[i].stage.start)
    && name in peaks && peaks[name] == stages[i].stage.peak
    && name in deltas && deltas[name] == Delta(stages, i, baseline)
  }

  lemma EntryKept(stages: seq<Item>, i: nat, baseline: int, end: real,
                  durations: map<string, real>, peaks: map<string, int>, deltas: map<string, int>,
                  name: string, duration: real, peak: int, delta: int)
    requires i < |stages| && Entry(stages, i, baseline, end, durations, peaks, deltas) && stages[i].name != name
    ensures Entry(stages, i, baseline, end, durations[name := duration], peaks[name := peak], deltas[name := delta])
  {
  }

  method Summarize(stages: seq<Item>, baseline: int, end: real)
    returns (durations: map<string, real>, peaks: map<string, int>, deltas: map<string, int>)
    requires DistinctNames(stages)
    ensures Reports(stages, |stages|, baseline, end, durations, peaks, deltas)
  {
    durations, peaks, deltas := map[], map[], map[];
    var previous := baseline;
    for i := 0 to |stages|
      invariant previous == PeakSoFar(stages, i, baseline)
      invariant Reports(stages, i, baseline, end, durations, peaks, deltas)
    {
      var name, times := stages[i].name, stages[i].stage;
      var duration := if i + 1 < |stages| then stages[i+1].stage.start - times.start else end - times.start;
      var rounded, delta := Round3(duration), Max(0, times.peak - previous);
      ghost var durations0, peaks0, deltas0 := durations, peaks, deltas;
      durations, peaks, deltas := durations[name := rounded], peaks[name := times.peak], deltas[name := delta];
      forall k | 0 <= k < i ensures Entry(stages, k, baseline, end, durations, peaks, deltas) {
        EntryKept(stages, k, baseline, end, durations0, peaks0, deltas0, name, rounded, times.peak, delta);
      }
      assert Entry(stages, i, baseline, end, durations, peaks, deltas);
      previous := Max(previous, times.peak);
    }
  }

  // ----- conservation of memory -----

  function DeltaSum(stages: seq<Item>, n: nat, baseline: int): int
    requires n <= |stages|
  {
    if n == 0 then 0 else DeltaSum(stages, n - 1, baseline) + Delta(stages, n - 1, baseline)
  }

  lemma {:induction false} DeltasTelescope(stages: seq<Item>, n: nat, baseline: int)
    requires n <= |stages|
    ensures DeltaSum(stages, n, baseline) == PeakSoFar(stages, n, baseline) - baseline
  {
    if n > 0 { DeltasTelescope(stages, n - 1, baseline); }
  }

  lemma {:induction false} PeakSoFarIsMax(stages: seq<Item>, n: nat, baseline: int)
    requires n <= |stages|
    ensures baseline <= PeakSoFar(stages, n, baseline)
    ensures forall i :: 0 <= i < n ==> stages[i].stage.peak <= PeakSoFar(stages, n, baseline)
    ensures PeakSoFar(stages, n, baseline) == baseline
      || exists i :: 0 <= i < n && PeakSoFar(stages, n, baseline) == stages[i].stage.peak
  {
    if n > 0 { PeakSoFarIsMax(stages, n - 1, baseline); }
  }

  /** A stage's delta is how far its peak rises above the baseline and every stage before it. */
  lemma DeltaIsRise(stages: seq<Item>, i: nat, baseline: int) returns (highest: int)
    requires i < |stages|
    ensures highest >= baseline && forall j :: 0 <= j < i ==> stages[j].stage.peak <= highest
    ensures highest == baseline || exists j :: 0 <= j < i && stages[j].stage.peak == highest
    ensures Delta(stages, i, baseline) == if stages[i].stage.peak > highest then stages[i].stage.peak - highest else 0
  {
    highest := PeakSoFar(stages, i, baseline);
    PeakSoFarIsMax(stages, i, baseline);
  }

  function OverBaseline(finalPeak: int, baseline: int): int { Max(0, finalPeak - baseline) }

  /** The stage deltas add up to the run's overall peak over the baseline exactly when no stage recorded a
      peak above both the final reading and the baseline. */
  lemma DeltasSumExactly(stages: seq<Item>, baseline: int, finalPeak: int)
    requires exists i :: 0 <= i < |stages| && stages[i].stage.peak == finalPeak
    ensures DeltaSum(stages, |stages|, baseline) == OverBaseline(finalPeak, baseline)
      <==> forall i :: 0 <= i < |stages| ==> stages[i].stage.peak <= Max(finalPeak, baseline)
  {
    DeltasTelescope(stages, |stages|, baseline);
    PeakSoFarIsMax(stages, |stages|, baseline);
  }

  /** The device's peak counter never goes down, over the hook's readings and the final one. */
  ghost predicate PeaksRise(log: seq<Event>, finalPeak: int) {
    && (forall i, j :: 0 <= i < j < |log| ==> log[i].peak <= log[j].peak)
    && (forall i :: 0 <= i < |log| ==> log[i].peak <= finalPeak)
  }

  ghost predicate ClockRises(log: seq<Event>) {
    forall i, j :: 0 <= i < j < |log| ==> log[i].now <= log[j].now
  }

  lemma AllIn(log: seq<Event>, order: seq<string>, firsts: seq<nat>, timing: map<string, Stage>, last: int)
    requires Filled(log, order, firsts, timing, last)
    ensures forall k :: 0 <= k < |order| ==> order[k] in timing
  {
    forall k | 0 <= k < |order| ensures order[k] in timing { assert Entered(log, order, firsts, timing, last, k); }
  }

  /** The stages the summary loop goes through. */
  function Stages(log: seq<Event>, finalPeak: int): (stages: seq<Item>)
  {
    FinalIsRight(log, finalPeak);
    AllIn(log, TableOf(log).order, Firsts(log), FinalTiming(log, finalPeak), finalPeak);
    ByStart(ItemsOf(TableOf(log).order, FinalTiming(log, finalPeak)))
  }

  /** With a rising clock, sorting by start time keeps the order in which the stages first appeared; each
      stage starts at its first event and holds the peak read at its end. */
  lemma StagesInOrder(log: seq<Event>, finalPeak: int)
    requires ClockRises(log)
    ensures
      var stages, firsts := Stages(log, finalPeak), Firsts(log);
      && |stages| == |firsts|
      && forall k :: 0 <= k < |stages| ==> AtStage(log, firsts, stages, k, finalPeak)
  {
    var order, firsts, timing := TableOf(log).order, Firsts(log), FinalTiming(log, finalPeak);
    FinalIsRight(log, finalPeak);
    SortKeepsOrder(log, order, firsts, timing, finalPeak);
    var stages := Stages(log, finalPeak);
    assert stages == ItemsOf(order, timing);
    forall k | 0 <= k < |stages| ensures AtStage(log, firsts, stages, k, finalPeak) {
      assert Entered(log, order, firsts, timing, finalPeak, k);
      assert log[firsts[k]].step == order[k];
    }
  }

  ghost predicate AtStage(log: seq<Event>, firsts: seq<nat>, stages: seq<Item>, k: nat, finalPeak: int)
    requires k < |stages| == |firsts|
  {
    && firsts[k] < |log|
    && stages[k].name == log[firsts[k]].step
    && stages[k].stage.start == log[firsts[k]].now
    && stages[k].stage.peak == PeakAtEnd(log, firsts, k, finalPeak)
  }

  function PeakAtEnd(log: seq<Event>, firsts: seq<nat>, k: nat, finalPeak: int): int
    requires k < |firsts|
  {
    if k + 1 < |firsts| && firsts[k+1] < |log| then log[firsts[k+1]].peak else finalPeak
  }

  lemma SortKeepsOrder(log: seq<Event>, order: seq<string>, firsts: seq<nat>, timing: map<string, Stage>, last: int)
    requires Placed(log, order, firsts) && Filled(log, order, firsts, timing, last) && ClockRises(log)
    ensures forall k :: 0 <= k < |order| ==> order[k] in timing
    ensures ByStart(ItemsOf(order, timing)) == ItemsOf(order, timing)
  {
    AllIn(log, order, firsts, timing, last);
    var items, key := ItemsOf(order, timing), (i: Item) => i.stage.start;
    forall i, j | 0 <= i < j < |items| ensures key(items[i]) <= key(items[j]) {
      assert firsts[i] < firsts[j];
      assert Entered(log, order, firsts, timing, last, i) && Entered(log, order, firsts, timing, last, j);
    }
    OrderedIsSorted(items, key);
  }

  /** With a rising counter and clock the cumulative peaks rise in stage order and end at the final reading. */
  lemma StagePeaksRise(log: seq<Event>, finalPeak: int, i: nat, j: nat)
    requires ClockRises(log) && PeaksRise(log, finalPeak) && i <= j < |Stages(log, finalPeak)|
    ensures
      var stages := Stages(log, finalPeak);
      stages[i].stage.peak <= stages[j].stage.peak <= finalPeak && stages[|stages|-1].stage.peak == finalPeak
  {
    StagesInOrder(log, finalPeak);
    FinalIsRight(log, finalPeak);
    var stages, firsts := Stages(log, finalPeak), Firsts(log);
    assert AtStage(log, firsts, stages, i, finalPeak) && AtStage(log, firsts, stages, j, finalPeak);
    assert AtStage(log, firsts, stages, |stages| - 1, finalPeak);
    assert i + 1 < |firsts| ==> firsts[i+1] < |log|;
    if i < j < |firsts| - 1 { assert firsts[i+1] < firsts[j+1]; }
  }

  /** Whatever the clock did, the reported deltas conserve the run's peak once one stage has run. */
  lemma PeakIsConserved(log: seq<Event>, baseline: int, finalPeak: int)
    requires PeaksRise(log, finalPeak) && log != []
    ensures
      var stages := Stages(log, finalPeak);
      DeltaSum(stages, |stages|, baseline) == OverBaseline(finalPeak, baseline)
  {
    var order, firsts, timing := TableOf(log).order, Firsts(log), FinalTiming(log, finalPeak);
    FinalIsRight(log, finalPeak);
    AllIn(log, order, firsts, timing, finalPeak);
    var items := ItemsOf(order, timing);
    forall i | 0 <= i < |items| ensures items[i].stage.peak <= finalPeak {
      assert Entered(log, order, firsts, timing, finalPeak, i);
    }
    assert Entered(log, order, firsts, timing, finalPeak, |order| - 1);
    SortedDeltas(items, baseline, finalPeak);
  }

  lemma {:induction false} DistinctOnce(s: seq<Item>, x: Item)
    requires DistinctNames(s)
    ensures multiset(s)[x] <= 1
  {
    if s != [] {
      DistinctOnce(s[1..], x);
      assert s == [s[0]] + s[1..];
    }
  }

  lemma Twice(s: seq<Item>, i: nat, j: nat)
    requires i < j < |s| && s[i] == s[j]
    ensures multiset(s)[s[i]] >= 2
  {
    assert s == s[..j] + s[j..] && s[..j][i] == s[i] && s[j..][0] == s[i];
    assert s[i] in s[..j] && s[i] in s[j..];
  }

  lemma StageNamesDiffer(log: seq<Event>, finalPeak: int)
    ensures Filled(log, TableOf(log).order, Firsts(log), FinalTiming(log, finalPeak), finalPeak)
    ensures DistinctNames(Stages(log, finalPeak))
  {
    FinalIsRight(log, finalPeak);
    AllIn(log, TableOf(log).order, Firsts(log), FinalTiming(log, finalPeak), finalPeak);
    var items := ItemsOf(TableOf(log).order, FinalTiming(log, finalPeak));
    SortKeepsNamesApart(items);
  }

  lemma SortKeepsNamesApart(items: seq<Item>)
    requires DistinctNames(items)
    ensures DistinctNames(ByStart(items))
  {
    var stages := ByStart(items);
    SameItems(items);
    SortBySorts(items, (i: Item) => i.stage.start);
    forall i, j | 0 <= i < j < |stages| ensures stages[i].name != stages[j].name {
      if stages[i].name == stages[j].name {
        assert stages[i] in items && stages[j] in items;
        Twice(stages, i, j);
        DistinctOnce(items, stages[i]);
      }
    }
  }

  lemma SortedDeltas(items: seq<Item>, baseline: int, finalPeak: int)
    requires items != [] && items[|items|-1].stage.peak == finalPeak
    requires forall i :: 0 <= i < |items| ==> items[i].stage.peak <= finalPeak
    ensures DeltaSum(ByStart(items), |ByStart(items)|, baseline) == OverBaseline(finalPeak, baseline)
  {
    var stages := ByStart(items);
    SameItems(items);
    forall i | 0 <= i < |stages| ensures stages[i].stage.peak <= finalPeak { assert stages[i] in items; }
    assert items[|items|-1] in stages;
    DeltasSumExactly(stages, baseline, finalPeak);
  }

  lemma SameItems(items: seq<Item>)
    ensures forall x :: x in items <==> x in ByStart(items)
  {
    SortBySorts(items, (i: Item) => i.stage.start);
    forall x ensures x in items <==> x in ByStart(items) {
      assert x in multiset(items) <==> x in multiset(ByStart(items));
    }
  }

  // ----- conservation of time -----

  function ReportedSeconds(stages: seq<Item>, n: nat, end: real): real
    requires n <= |stages|
  {
    if n == 0 then 0.0
    else ReportedSeconds(stages, n - 1, end) + Round3(EndOf(stages, n - 1, end) - stages[n-1].stage.start)
  }

  /** Rounding goes to the nearest integer, and halfway to the even one. */
  lemma RoundsToNearest(x: real, n: int)
    requires -0.5 < x - n as real < 0.5 || ((x - n as real == 0.5 || x - n as real == -0.5) && n % 2 == 0)
    ensures RoundHalfEven(x) == n
  {
    var low := x.Floor;
    assert low == n || low == n - 1;
  }

  lemma RoundingError(x: real)
    ensures x - 0.0005 <= Round3(x) <= x + 0.0005
  {
    var y := x * 1000.0;
    assert y - 0.5 <= RoundHalfEven(y) as real <= y + 0.5;
  }

  lemma {:induction false} PrefixSeconds(stages: seq<Item>, n: nat, end: real)
    requires 0 < n <= |stages|
    ensures
      var spent := EndOf(stages, n - 1, end) - stages[0].stage.start;
      spent - 0.0005 * n as real <= ReportedSeconds(stages, n, end) <= spent + 0.0005 * n as real
  {
    RoundingError(EndOf(stages, n - 1, end) - stages[n-1].stage.start);
    if n > 1 { PrefixSeconds(stages, n - 1, end); }
  }

  /** The reported durations add up to the time from the first stage's start to the end of the run,
      within half a millisecond a stage. */
  lemma TimeIsConserved(log: seq<Event>, finalPeak: int, end: real)
    requires ClockRises(log) && log != []
    ensures
      var stages := Stages(log, finalPeak);
      var spent, slack := end - log[0].now, 0.0005 * |stages| as real;
      spent - slack <= ReportedSeconds(stages, |stages|, end) <= spent + slack
  {
    StagesInOrder(log, finalPeak);
    FinalIsRight(log, finalPeak);
    FirstIsFirst(log);
    var stages := Stages(log, finalPeak);
    assert AtStage(log, Firsts(log), stages, 0, finalPeak);
    PrefixSeconds(stages, |stages|, end);
  }

  lemma {:induction false} FirstIsFirst(log: seq<Event>)
    requires log != []
    ensures Firsts(log) != [] && Firsts(log)[0] == 0
  {
    if |log| > 1 { FirstIsFirst(log[..|log|-1]); }
  }
}
