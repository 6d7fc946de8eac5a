/** One batch of the parallel benchmark: dispatch every file, poll until all are done or time is up, mark
    the rest as timed out. */
module Poller {
  import opened Options
  import opened Sets

  datatype Status = Blank | Dispatched | DispatchFailed | Completed | Error | TimedOut

  datatype File = File(uuid: string, status: Status)

  /** What triggering one file gave: a fresh upload's new id, empty if it failed, or the
      answer to a reprocess request. */
  datatype Trigger = Upload(newUuid: string) | Reprocess(ok: bool)

  /** What the server says about a file: done, failed, or anything else. */
  datatype Reply = SaysCompleted | SaysError | SaysOther

  /** One pass of the polling loop: the clock when it starts and what the server says about each id. */
  datatype Round = Round(now: real, reply: string -> Reply)

  // ----- specification -----

  function Triggered(f: File, t: Trigger): File {
    match t
    case Upload(id) =>
      if id == "" then f.(status := DispatchFailed) else File(id, Dispatched)
    case Reprocess(ok) => f.(status := if ok then Dispatched else DispatchFailed)
  }

  function DispatchedIds(files: seq<File>): set<string> {
    set f | f in files && f.status == Dispatched :: f.uuid
  }

  function Final(reply: Reply): Option<Status> {
    match reply
    case SaysCompleted => Some(Completed)
    case SaysError => Some(Error)
    case SaysOther => None
  }

  /** The first final status the server gives the id over the rounds. */
  function FirstFinal(rounds: seq<Round>, id: string): Option<Status> {
    if rounds == [] then None
    else
      var earlier := FirstFinal(rounds[..|rounds|-1], id);
      if earlier != None then earlier else Final(rounds[|rounds|-1].reply(id))
  }

  /** The rounds that start before the deadline. */
  function InTime(rounds: seq<Round>, deadline: real): seq<Round> {
    if rounds == [] || rounds[0].now >= deadline then [] else [rounds[0]] + InTime(rounds[1..], deadline)
  }

  /** The record after the id got a status, if it did. */
  function Resolved(f: File, decided: map<string, Status>): File {
    if f.uuid in decided then f.(status := decided[f.uuid]) else f
  }

  function ResolvedAll(files: seq<File>, decided: map<string, Status>): seq<File> {
    seq(|files|, i requires 0 <= i < |files| => Resolved(files[i], decided))
  }

  /** A record's status at the end of the batch. */
  function Outcome(f: File, ids: set<string>, rounds: seq<Round>): Status {
    if f.uuid in ids && FirstFinal(rounds, f.uuid) != None then FirstFinal(rounds, f.uuid).value
    else if f.status == Dispatched then TimedOut
    else f.status
  }

  // ----- the batch -----

  class Batch {
    var results: seq<File>
    var pending: set<string>
    var completed: set<string>
    var failed: set<string>

    constructor (ids: seq<string>)
      ensures results == seq(|ids|, i requires 0 <= i < |ids| => File(ids[i], Blank))
      ensures pending == completed == failed == {}
    {
      results := seq(|ids|, i requires 0 <= i < |ids| => File(ids[i], Blank));
      pending, completed, failed := {}, {}, {};
    }

    method TriggerAll(triggers: seq<Trigger>)
      requires |triggers| == |results|
      modifies this
      ensures |results| == |triggers|
      ensures forall i :: 0 <= i < |triggers| ==> results[i] == Triggered(old(results)[i], triggers[i])
      ensures pending == DispatchedIds(results) && completed == failed == {}
      ensures forall i :: 0 <= i < |triggers| ==>
        match triggers[i]
        case Upload(id) => if id != "" then results[i] == File(id, Dispatched) && id in pending
                           else results[i] == File(old(results)[i].uuid, DispatchFailed)
        case Reprocess(ok) => if ok then results[i] == File(old(results)[i].uuid, Dispatched) && results[i].uuid in pending
                              else results[i] == File(old(results)[i].uuid, DispatchFailed)
    {
      for i := 0 to |triggers|
        invariant |results| == |triggers|
        invariant forall k :: 0 <= k < i ==> results[k] == Triggered(old(results)[k], triggers[k])
        invariant forall k :: i <= k < |triggers| ==> results[k] == old(results)[k]
      {
        var f := results[i];
        match triggers[i] {
          case Upload(id) =>
            if id != "" {
              f := f.(uuid := id);
              f := f.(status := Dispatched);
            } else {
              f := f.(status := DispatchFailed);
            }
          case Reprocess(ok) =>
            f := f.(status := if ok then Dispatched else DispatchFailed);
        }
        results := results[i := f];
      }
      pending := set f | f in results && f.status == Dispatched :: f.uuid;
      completed, failed := {}, {};
      assert forall i :: 0 <= i < |results| ==> results[i] in results;
    }

    /** The polling loop's state, in terms of the records after dispatch and the answers so far. */
    ghost predicate Polling(files: seq<File>, decided: map<string, Status>)
      reads this
    {
      && results == ResolvedAll(files, decided)
      && pending + completed + failed == DispatchedIds(files)
      && pending !! completed !! failed
      && decided.Keys == completed + failed
      && (forall id :: id in decided ==> decided[id] == if id in completed then Completed else Error)
    }

    /** A dispatched record still says so exactly while its id is pending. */
    lemma LeavesTogether(files: seq<File>, decided: map<string, Status>, k: nat)
      requires Polling(files, decided) && k < |files| && files[k].status == Dispatched
      ensures results[k].status == Dispatched <==> results[k].uuid in pending
    {
      assert files[k].uuid in DispatchedIds(files) && results[k] == Resolved(files[k], decided);
    }

    /** Every record with the id gets the status. */
    method MarkAll(id: string, status: Status)
      modifies this`results
      ensures |results| == |old(results)|
      ensures forall k :: 0 <= k < |results| ==>
        results[k] == if old(results)[k].uuid == id then old(results)[k].(status := status) else old(results)[k]
    {
      for i := 0 to |results|
        invariant |results| == |old(results)|
        invariant forall k :: 0 <= k < i ==>
          results[k] == if old(results)[k].uuid == id then old(results)[k].(status := status) else old(results)[k]
        invariant forall k :: i <= k < |results| ==> results[k] == old(results)[k]
      {
        if results[i].uuid == id { results := results[i := results[i].(status := status)]; }
      }
    }

    /** One status check: a final reply moves the id out of `pending` and marks its records. */
    method Check(id: string, reply: Reply, ghost files: seq<File>, ghost decided: map<string, Status>)
      returns (ghost now: map<string, Status>)
      requires Polling(files, decided) && id in pending
      modifies this
      ensures now == if Final(reply) != None then decided[id := Final(reply).value] else decided
      ensures Polling(files, now)
      ensures pending == if Final(reply) != None then old(pending) - {id} else old(pending)
    {
      now := decided;
      if reply == SaysCompleted {
        pending, completed := pending - {id}, completed + {id};
        MarkAll(id, Completed);
        now := decided[id := Completed];
      } else if reply == SaysError {
        pending, failed := pending - {id}, failed + {id};
        MarkAll(id, Error);
        now := decided[id := Error];
      }
      assert results == ResolvedAll(files, now);
    }

    method Ask(id: string, round: Round, ghost files: seq<File>, ghost decided: map<string, Status>,
               ghost before: map<string, Status>, ghost asked: seq<string>)
      returns (ghost now: map<string, Status>)
      requires Polling(files, before) && id in pending && id !in asked && Asked(decided, before, round, asked)
      modifies this
      ensures Polling(files, now) && Asked(decided, now, round, asked + [id])
      ensures pending == old(pending) || pending == old(pending) - {id}
    {
      assert id !in before;
      now := Check(id, round.reply(id), files, before);
      AskedOneMore(decided, before, now, round, asked, id);
    }

    /** `list(pending)` */
    method Snapshot() returns (ids: seq<string>)
      ensures forall id :: id in ids <==> id in pending
      ensures forall i, j :: 0 <= i < j < |ids| ==> ids[i] != ids[j]
    {
      ids := Listed(pending);
    }

    /** One pass over a snapshot of `pending`, in any order. */
    method PollRound(round: Round, ghost files: seq<File>, ghost decided: map<string, Status>)
      returns (ghost now: map<string, Status>)
      requires Polling(files, decided)
      modifies this
      ensures Polling(files, now)
      ensures AskedAll(decided, now, round, old(pending))
    {
      now := decided;
      var snapshot := Snapshot();
      for i := 0 to |snapshot|
        invariant Polling(files, now)
        invariant forall j :: i <= j < |snapshot| ==> snapshot[j] in pending
        invariant Asked(decided, now, round, snapshot[..i])
      {
        now := Ask(snapshot[i], round, files, decided, now, snapshot[..i]);
        assert snapshot[..i+1] == snapshot[..i] + [snapshot[i]];
      }
      assert snapshot[..|snapshot|] == snapshot;
    }

    /** Polling stops when nothing is pending or the clock has reached the deadline; then whatever is
        still dispatched has timed out. */
    method PollUntilDone(rounds: seq<Round>, deadline: real)
      requires Pollable(rounds, deadline)
      requires pending == DispatchedIds(results) && completed == failed == {}
      modifies this
      ensures Polled(old(results), results, rounds, deadline)
      ensures pending + completed + failed == DispatchedIds(old(results)) && pending !! completed !! failed
    {
      ghost var files := results;
      ghost var decided: map<string, Status> := map[];
      assert results == ResolvedAll(files, decided);
      var n := 0;
      while pending != {} && rounds[n].now < deadline
        invariant 0 <= n < |rounds|
        invariant forall i :: 0 <= i < n ==> rounds[i].now < deadline
        invariant Polling(files, decided)
        invariant Answered(files, decided, rounds[..n])
        decreases |rounds| - n
      {
        ghost var before := decided;
        ghost var waiting := pending;
        decided := PollRound(rounds[n], files, decided);
        AnsweredOnceMore(files, before, decided, rounds, n, waiting);
        n := n + 1;
      }
      LaterRoundsChangeNothing(files, decided, rounds, n, deadline);
      MarkTimedOut();
      OutcomesFollow(files, decided, InTime(rounds, deadline));
    }

    method MarkTimedOut()
      modifies this`results
      ensures |results| == |old(results)|
      ensures forall k :: 0 <= k < |results| ==>
        results[k] == if old(results)[k].status == Dispatched then old(results)[k].(status := TimedOut) else old(results)[k]
    {
      for i := 0 to |results|
        invariant |results| == |old(results)|
        invariant forall k :: 0 <= k < i ==>
          results[k] == if old(results)[k].status == Dispatched then old(results)[k].(status := TimedOut) else old(results)[k]
        invariant forall k :: i <= k < |results| ==> results[k] == old(results)[k]
      {
        if results[i].status == Dispatched { results := results[i := results[i].(status := TimedOut)]; }
      }
    }
  }

  function Lookup(m: map<string, Status>, id: string): Option<Status> {
    if id in m then Some(m[id]) else None
  }

  /** The new answers are the old ones and the final replies about the ids that were asked. */
  ghost predicate Asked(decided: map<string, Status>, now: map<string, Status>, round: Round, asked: seq<string>) {
    forall id ::
      Lookup(now, id)
      == if id in decided then Some(decided[id]) else if id in asked then Final(round.reply(id)) else None
  }

  ghost predicate AskedAll(decided: map<string, Status>, now: map<string, Status>, round: Round, ids: set<string>) {
    exists asked :: Asked(decided, now, round, asked) && forall id :: id in asked <==> id in ids
  }

  lemma AskedOneMore(decided: map<string, Status>, before: map<string, Status>, now: map<string, Status>,
                     round: Round, asked: seq<string>, id: string)
    requires Asked(decided, before, round, asked) && id !in before && id !in asked
    requires now == if Final(round.reply(id)) != None then before[id := Final(round.reply(id)).value] else before
    ensures Asked(decided, now, round, asked + [id])
  {
    forall x
      ensures Lookup(now, x)
        == if x in decided then Some(decided[x]) else if x in asked + [id] then Final(round.reply(x)) else None
    {
      assert Lookup(before, x)
        == if x in decided then Some(decided[x]) else if x in asked then Final(round.reply(x)) else None;
    }
  }

  /** The answers recorded are each dispatched id's first final status, and no others. */
  ghost predicate Answered(files: seq<File>, decided: map<string, Status>, rounds: seq<Round>) {
    forall id :: id in DispatchedIds(files) ==> AnsweredFor(decided, rounds, id)
  }

  ghost predicate AnsweredFor(decided: map<string, Status>, rounds: seq<Round>, id: string) {
    FirstFinal(rounds, id) == Lookup(decided, id)
  }

  lemma AnsweredOnceMore(files: seq<File>, before: map<string, Status>, now: map<string, Status>,
                         rounds: seq<Round>, n: nat, waiting: set<string>)
    requires n < |rounds| && Answered(files, before, rounds[..n])
    requires forall id :: id in DispatchedIds(files) ==> (id in waiting <==> id !in before)
    requires AskedAll(before, now, rounds[n], waiting)
    ensures Answered(files, now, rounds[..n+1])
  {
    assert rounds[..n+1][..n] == rounds[..n];
    var asked :| Asked(before, now, rounds[n], asked) && forall id :: id in asked <==> id in waiting;
    forall id | id in DispatchedIds(files) ensures AnsweredFor(now, rounds[..n+1], id) {
      assert AnsweredFor(before, rounds[..n], id);
      assert Lookup(now, id) == if id in before then Some(before[id]) else Final(rounds[n].reply(id));
    }
  }

  lemma {:induction false} InTimeIsPrefix(rounds: seq<Round>, n: nat, deadline: real)
    requires n <= |rounds| && forall i :: 0 <= i < n ==> rounds[i].now < deadline
    ensures n <= |InTime(rounds, deadline)| && InTime(rounds, deadline)[..n] == rounds[..n]
    ensures n < |rounds| && rounds[n].now >= deadline ==> InTime(rounds, deadline) == rounds[..n]
  {
    if n > 0 { InTimeIsPrefix(rounds[1..], n - 1, deadline); }
  }

  lemma {:induction false} FirstFinalStays(rounds: seq<Round>, n: nat, id: string)
    requires n <= |rounds| && FirstFinal(rounds[..n], id) != None
    ensures FirstFinal(rounds, id) == FirstFinal(rounds[..n], id)
    decreases |rounds|
  {
    if n == |rounds| {
      assert rounds[..n] == rounds;
    } else {
      assert rounds[..|rounds|-1][..n] == rounds[..n];
      FirstFinalStays(rounds[..|rounds|-1], n, id);
    }
  }

  /** When the loop stops, no round in time could add an answer. */
  lemma LaterRoundsChangeNothing(files: seq<File>, decided: map<string, Status>, rounds: seq<Round>, n: nat, deadline: real)
    requires n < |rounds| && forall i :: 0 <= i < n ==> rounds[i].now < deadline
    requires Answered(files, decided, rounds[..n])
    requires rounds[n].now >= deadline || DispatchedIds(files) <= decided.Keys
    ensures Answered(files, decided, InTime(rounds, deadline))
  {
    InTimeIsPrefix(rounds, n, deadline);
    forall id | id in DispatchedIds(files) ensures AnsweredFor(decided, InTime(rounds, deadline), id) {
      assert AnsweredFor(decided, rounds[..n], id);
      if rounds[n].now < deadline { FirstFinalStays(InTime(rounds, deadline), n, id); }
    }
  }

  function AfterTimeout(f: File): File {
    if f.status == Dispatched then f.(status := TimedOut) else f
  }

  lemma OutcomesFollow(files: seq<File>, decided: map<string, Status>, rounds: seq<Round>)
    requires Answered(files, decided, rounds) && decided.Keys <= DispatchedIds(files)
    requires forall id :: id in decided ==> decided[id] != Dispatched
    ensures forall k :: 0 <= k < |files| ==>
      AfterTimeout(Resolved(files[k], decided)) == files[k].(status := Outcome(files[k], DispatchedIds(files), rounds))
  {
    forall k | 0 <= k < |files|
      ensures AfterTimeout(Resolved(files[k], decided)) == files[k].(status := Outcome(files[k], DispatchedIds(files), rounds))
    {
      var id := files[k].uuid;
      if id in DispatchedIds(files) { assert AnsweredFor(decided, rounds, id); }
    }
  }

  // ----- what the batch reports -----

  predicate WasTriggered(f: File) { f.status == Dispatched || f.status == DispatchFailed }

  function CountOf(files: seq<File>, status: Status): nat {
    if files == [] then 0 else (if files[0].status == status then 1 else 0) + CountOf(files[1..], status)
  }

  function Outcomes(files: seq<File>, ids: set<string>, rounds: seq<Round>): seq<File> {
    seq(|files|, k requires 0 <= k < |files| => files[k].(status := Outcome(files[k], ids, rounds)))
  }

  lemma {:induction false} FinalIsEnd(rounds: seq<Round>, id: string)
    ensures FirstFinal(rounds, id) in {None, Some(Completed), Some(Error)}
  {
    if rounds != [] { FinalIsEnd(rounds[..|rounds|-1], id); }
  }

  /** Every file of a batch ends in exactly one of the four reported states. */
  lemma {:induction false} CountsAddUp(files: seq<File>, ids: set<string>, rounds: seq<Round>)
    requires forall f :: f in files ==> WasTriggered(f)
    ensures
      var end := Outcomes(files, ids, rounds);
      CountOf(end, Completed) + CountOf(end, Error) + CountOf(end, TimedOut) + CountOf(end, DispatchFailed) == |files|
  {
    if files != [] {
      FinalIsEnd(rounds, files[0].uuid);
      assert WasTriggered(files[0]);
      CountsAddUp(files[1..], ids, rounds);
      assert Outcomes(files, ids, rounds)[1..] == Outcomes(files[1..], ids, rounds);
    }
  }

  /** Some round starts when the clock has reached the deadline. */
  predicate Pollable(rounds: seq<Round>, deadline: real) {
    rounds != [] && rounds[|rounds|-1].now >= deadline
  }

  /** What `PollUntilDone` leaves of the records it starts with. */
  ghost predicate Polled(before: seq<File>, after: seq<File>, rounds: seq<Round>, deadline: real) {
    |after| == |before|
    && forall k :: 0 <= k < |before| ==>
      after[k] == before[k].(status := Outcome(before[k], DispatchedIds(before), InTime(rounds, deadline)))
  }

  /** The first `i` rounds start in time and have nothing final to say about the id. */
  ghost predicate Waiting(rounds: seq<Round>, deadline: real, i: nat, id: string)
    requires i <= |rounds|
  {
    forall j | 0 <= j < i :: rounds[j].now < deadline && rounds[j].reply(id) == SaysOther
  }

  /** A dispatched record ends as the first round in time that has something final to say of its id says, an
      error as an error; if the clock runs out before, it has timed out. */
  lemma EndsAsFirstTold(before: seq<File>, after: seq<File>, rounds: seq<Round>, deadline: real, k: nat, i: nat)
    requires Polled(before, after, rounds, deadline) && k < |before| && before[k].status == Dispatched
    requires i < |rounds| && Waiting(rounds, deadline, i, before[k].uuid)
    ensures rounds[i].now >= deadline ==> after[k].status == TimedOut
    ensures rounds[i].now < deadline && rounds[i].reply(before[k].uuid) == SaysError ==> after[k].status == Error
    ensures rounds[i].now < deadline && rounds[i].reply(before[k].uuid) == SaysCompleted ==> after[k].status == Completed
  {
    var id, given := before[k].uuid, InTime(rounds, deadline);
    assert before[k] in before && id in DispatchedIds(before);
    NothingToldYet(rounds, deadline, i, id);
    if rounds[i].now >= deadline {
      InTimeIsPrefix(rounds, i, deadline);
    } else if rounds[i].reply(id) != SaysOther {
      InTimeIsPrefix(rounds, i + 1, deadline);
      assert rounds[..i+1][..i] == rounds[..i];
      FirstFinalStays(given, i + 1, id);
    }
  }

  lemma {:induction false} NothingToldYet(rounds: seq<Round>, deadline: real, i: nat, id: string)
    requires i <= |rounds| && Waiting(rounds, deadline, i, id)
    ensures FirstFinal(rounds[..i], id) == None
    decreases i
  {
    if i > 0 {
      NothingToldYet(rounds, deadline, i - 1, id);
      assert rounds[..i][..i-1] == rounds[..i-1];
    }
  }

  /** After polling, a record whose dispatch failed still says so exactly when every dispatched record with
      its id has timed out: records are found by id, so one that finishes overwrites the failure. */
  lemma FailureKeptBeside(before: seq<File>, after: seq<File>, rounds: seq<Round>, deadline: real, k: nat)
    requires Polled(before, after, rounds, deadline) && k < |before| && before[k].status == DispatchFailed
    ensures after[k].status == DispatchFailed
      <==> forall j :: 0 <= j < |before| && before[j].status == Dispatched && before[j].uuid == before[k].uuid ==>
             after[j].status == TimedOut
  {
    var id, ids, given := before[k].uuid, DispatchedIds(before), InTime(rounds, deadline);
    FinalIsEnd(given, id);
    if id in ids {
      var f :| f in before && f.status == Dispatched && f.uuid == id;
      var j :| 0 <= j < |before| && before[j] == f;
      assert after[j].status == Outcome(f, ids, given);
    }
    forall j | 0 <= j < |before| && before[j].status == Dispatched && before[j].uuid == id ensures id in ids {
      assert before[j] in before;
    }
  }

  /** However the server answers and whenever the clock runs out, the failure is kept. */
  ghost predicate AlwaysKept(before: seq<File>, k: nat)
    requires k < |before|
  {
    forall after: seq<File>, rounds, deadline ::
      Pollable(rounds, deadline) && Polled(before, after, rounds, deadline) ==> after[k].status == DispatchFailed
  }

  /** A failed dispatch survives all polling exactly when no other record was dispatched under its id. */
  lemma FailureKeptExactly(before: seq<File>, k: nat)
    requires k < |before| && before[k].status == DispatchFailed
    ensures AlwaysKept(before, k) <==> before[k].uuid !in DispatchedIds(before)
  {
    var id, ids := before[k].uuid, DispatchedIds(before);
    if id in ids {
      var done, late := Round(0.0, _ => SaysCompleted), Round(2.0, _ => SaysOther);
      OneRound(done, late, id);
      var given := InTime([done, late], 1.0);
      var after := seq(|before|, i requires 0 <= i < |before| => before[i].(status := Outcome(before[i], ids, given)));
      assert Polled(before, after, [done, late], 1.0) && after[k].status == Completed;
    }
  }

  /** Two requests to reprocess one file, the first refused: the refusal is reported as completed. */
  method LostFailure() returns (before: seq<File>, after: seq<File>)
    ensures before == [File("a", DispatchFailed)] + [File("a", Dispatched)]
    ensures after == [File("a", Completed)] + [File("a", Completed)]
  {
    var batch := new Batch(["a", "a"]);
    batch.TriggerAll([Reprocess(false), Reprocess(true)]);
    before := batch.results;
    assert before == [File("a", DispatchFailed)] + [File("a", Dispatched)];
    var done, late := Round(0.0, _ => SaysCompleted), Round(2.0, _ => SaysOther);
    batch.PollUntilDone([done, late], 1.0);
    after := batch.results;
    OneRound(done, late, "a");
    assert before[1] in before && "a" in DispatchedIds(before);
    assert after[0].status == Completed && after[1].status == Completed;
  }

  lemma OneRound(done: Round, late: Round, id: string)
    requires done.now < 1.0 && late.now >= 1.0 && done.reply(id) == SaysCompleted
    ensures FirstFinal(InTime([done, late], 1.0), id) == Some(Completed)
  {
    assert [done, late][1..] == [late];
    assert InTime([late], 1.0) == [];
    assert [done][..0] == [];
  }
}
