/** Calls made while a session block is open. A program is marked by the blocks its calls are written
    in; a run of the marked program is the run of the program, each call marked by the number of
    sessions open when it is made. */
module Depths {
  import opened Python
  import opened Runs
  import opened Typestate
  import opened Calls

  /** How the number of open sessions changes over a trace. */
  function Depth(t: seq<Event>): int {
    if t == [] then 0 else Change(t[0]) + Depth(t[1..])
  }

  function Change(ev: Event): int {
    if ev == Opened then 1 else if ev == Closed then -1 else 0
  }

  function Mark(ev: Event, depth: int): Event {
    if ev.Called? && depth > 0 then Within(ev.call) else ev
  }

  /** The trace with every call marked that is made at positive depth. */
  function Marked(t: seq<Event>, depth: int): seq<Event>
    decreases t
  {
    if t == [] then [] else [Mark(t[0], depth)] + Marked(t[1..], depth + Change(t[0]))
  }

  /** The program with every call marked that is written inside a session block. */
  function MarkProg(p: Prog, depth: nat): Prog
    decreases p
  {
    match p
    case Emit(ev) => Emit(Mark(ev, depth))
    case Leave(_) => p
    case Seq(a, b) => Seq(MarkProg(a, depth), MarkProg(b, depth))
    case Choose(a, b) => Choose(MarkProg(a, depth), MarkProg(b, depth))
    case Repeat(a) => Repeat(MarkProg(a, depth))
    case Branch(a, b, how, c) => Branch(MarkProg(a, depth), MarkProg(b, depth), how, MarkProg(c, depth))
    case Finally(a, b) => Finally(MarkProg(a, depth), MarkProg(b, depth))
    case Session(a) => Session(MarkProg(a, depth + 1))
  }

  lemma {:induction false} DepthAppend(s: seq<Event>, t: seq<Event>)
    ensures Depth(s + t) == Depth(s) + Depth(t)
  {
    if s == [] {
      assert s + t == t;
    } else {
      assert (s + t)[0] == s[0] && (s + t)[1..] == s[1..] + t;
      DepthAppend(s[1..], t);
    }
  }

  lemma {:induction false} MarkedAppend(s: seq<Event>, t: seq<Event>, depth: int)
    ensures Marked(s + t, depth) == Marked(s, depth) + Marked(t, depth + Depth(s))
    decreases s
  {
    if s == [] {
      assert s + t == t;
    } else {
      assert (s + t)[0] == s[0] && (s + t)[1..] == s[1..] + t;
      MarkedAppend(s[1..], t, depth + Change(s[0]));
    }
  }

  /** Sessions are opened and closed by session blocks only, and no call is marked yet. */
  predicate Ordinary(p: Prog) {
    match p
    case Emit(ev) => ev != Opened && ev != Closed && !ev.Within?
    case Leave(_) => true
    case Seq(a, b) => Ordinary(a) && Ordinary(b)
    case Choose(a, b) => Ordinary(a) && Ordinary(b)
    case Repeat(a) => Ordinary(a)
    case Branch(a, b, _, c) => Ordinary(a) && Ordinary(b) && Ordinary(c)
    case Finally(a, b) => Ordinary(a) && Ordinary(b)
    case Session(a) => Ordinary(a)
  }

  /** Where a call is written decides at which depth it runs; and sessions are always closed. */
  lemma {:induction false} MarksAgree(p: Prog, depth: nat, o: Oracle)
    requires Ordinary(p)
    ensures var r := Exec(p, o);
            Depth(r.trace) == 0 && Exec(MarkProg(p, depth), o) == Run(Marked(r.trace, depth), r.exit)
    decreases p, 1, 0
  {
    match p
    case Emit(ev) => assert [ev][1..] == [];
    case Leave(_) =>
    case Seq(a, b) => PairAgrees(p, a, b, depth, o);
    case Choose(a, b) =>
      if o.pick { MarksAgree(a, depth, Kid(o, 0)); } else { MarksAgree(b, depth, Kid(o, 0)); }
    case Repeat(a) => RepeatAgrees(a, depth, o.kids);
    case Branch(a, b, _, c) => PairAgrees(p, a, if Exec(a, Kid(o, 0)).exit == Fell then b else c, depth, o);
    case Finally(a, b) => PairAgrees(p, a, b, depth, o);
    case Session(a) =>
      MarksAgree(a, depth + 1, Kid(o, 0));
      SessionMarks(Exec(a, Kid(o, 0)).trace, depth);
  }

  lemma SessionMarks(t: seq<Event>, depth: int)
    ensures Depth([Opened] + t + [Closed]) == Depth(t)
    ensures Depth(t) == 0 ==> Marked([Opened] + t + [Closed], depth) == [Opened] + Marked(t, depth + 1) + [Closed]
  {
    DepthAppend([Opened] + t, [Closed]);
    DepthAppend([Opened], t);
    MarkedAppend([Opened] + t, [Closed], depth);
    MarkedAppend([Opened], t, depth);
    assert [Opened][1..] == [] && [Closed][1..] == [];
  }

  lemma {:induction false} PairAgrees(p: Prog, a: Prog, b: Prog, depth: nat, o: Oracle)
    requires a < p && b < p && Ordinary(a) && Ordinary(b)
    ensures var r, l := Exec(a, Kid(o, 0)), Exec(b, Kid(o, 1));
            && Depth(r.trace) == 0 && Depth(r.trace + l.trace) == 0
            && Exec(MarkProg(a, depth), Kid(o, 0)) == Run(Marked(r.trace, depth), r.exit)
            && Exec(MarkProg(b, depth), Kid(o, 1)) == Run(Marked(l.trace, depth), l.exit)
            && Marked(r.trace + l.trace, depth) == Marked(r.trace, depth) + Marked(l.trace, depth)
    decreases p, 0, 0
  {
    MarksAgree(a, depth, Kid(o, 0));
    MarksAgree(b, depth, Kid(o, 1));
    LevelJoin(Exec(a, Kid(o, 0)).trace, Exec(b, Kid(o, 1)).trace, depth);
  }

  lemma LevelJoin(t: seq<Event>, u: seq<Event>, depth: int)
    requires Depth(t) == 0 && Depth(u) == 0
    ensures Depth(t + u) == 0 && Marked(t + u, depth) == Marked(t, depth) + Marked(u, depth)
  {
    DepthAppend(t, u);
    MarkedAppend(t, u, depth);
  }

  lemma {:induction false} RepeatAgrees(a: Prog, depth: nat, os: seq<Oracle>)
    requires Ordinary(a)
    ensures var r := ExecRepeat(a, os);
            Depth(r.trace) == 0 && ExecRepeat(MarkProg(a, depth), os) == Run(Marked(r.trace, depth), r.exit)
    decreases a, 2, |os|
  {
    if os != [] {
      MarksAgree(a, depth, os[0]);
      RepeatAgrees(a, depth, os[1..]);
      DepthAppend(Exec(a, os[0]).trace, ExecRepeat(a, os[1..]).trace);
      MarkedAppend(Exec(a, os[0]).trace, ExecRepeat(a, os[1..]).trace, depth);
    }
  }

  lemma {:induction false} MarkedAt(t: seq<Event>, depth: int, i: nat)
    requires i < |t|
    ensures |Marked(t, depth)| == |t| && Marked(t, depth)[i] == Mark(t[i], depth + Depth(t[..i]))
    decreases t
  {
    if i > 0 {
      assert t[..i][0] == t[0] && t[..i][1..] == t[1..][..i-1];
      MarkedAt(t[1..], depth + Change(t[0]), i - 1);
    } else if |t| > 1 {
      MarkedAt(t[1..], depth + Change(t[0]), 0);
    }
  }

  // ----- which calls can be made with a session open -----

  function Ignore(b: bool, ev: Event): bool { b }

  const IDLE: Machine := Ignore

  /** The analysis: can `p` reach a marked call? */
  predicate CanCallOpen(p: Prog, c: Call) {
    CanHit(IDLE, MarkProg(p, 0), false, Within(c), false)
  }

  /** Event number `i` of the run that `o` fixes makes the call while a session is open. */
  ghost predicate MadeOpenAt(p: Prog, c: Call, o: Oracle, i: nat) {
    var t := Exec(p, o).trace;
    i < |t| && t[i] == Called(c) && Depth(t[..i]) > 0
  }

  /** Some run makes the call while a session is open. */
  ghost predicate MadeOpen(p: Prog, c: Call) {
    exists o, i :: MadeOpenAt(p, c, o, i)
  }

  /** The analysis is exact. */
  lemma OpenCallsExactly(p: Prog, c: Call)
    requires Ordinary(p)
    ensures CanCallOpen(p, c) <==> MadeOpen(p, c)
  {
    if CanCallOpen(p, c) {
      var o, i := HitWitness(IDLE, MarkProg(p, 0), false, Within(c), false);
      MarksAgree(p, 0, o);
      MarkedLength(Exec(p, o).trace, 0);
      MarkedAt(Exec(p, o).trace, 0, i);
      NotWithin(p, o, i);
      assert MadeOpenAt(p, c, o, i);
    }
    if o, i: nat :| MadeOpenAt(p, c, o, i) {
      MarksAgree(p, 0, o);
      MarkedAt(Exec(p, o).trace, 0, i);
      IdleBits(false, Exec(MarkProg(p, 0), o).trace[..i]);
      HitSound(IDLE, MarkProg(p, 0), false, o, i);
    }
  }

  lemma {:induction false} IdleBits(b: bool, t: seq<Event>)
    ensures Bits(IDLE, b, t) == b
    decreases t
  {
    if t != [] { IdleBits(b, t[1..]); }
  }

  lemma {:induction false} MarkedLength(t: seq<Event>, depth: int)
    ensures |Marked(t, depth)| == |t|
    decreases t
  {
    if t != [] { MarkedLength(t[1..], depth + Change(t[0])); }
  }

  lemma NotWithin(p: Prog, o: Oracle, i: nat)
    requires Ordinary(p) && i < |Exec(p, o).trace|
    ensures !Exec(p, o).trace[i].Within?
  {
    HitSound(IDLE, p, false, o, i);
    HitIsEmitted(IDLE, p, false, Exec(p, o).trace[i], Bits(IDLE, false, Exec(p, o).trace[..i]));
    OrdinaryEmits(p);
  }

  lemma {:induction false} OrdinaryEmits(p: Prog)
    requires Ordinary(p)
    ensures forall ev | ev in Emits(p) :: !ev.Within?
  {
    match p
    case Emit(_) =>
    case Leave(_) =>
    case Seq(a, b) => OrdinaryEmits(a); OrdinaryEmits(b);
    case Choose(a, b) => OrdinaryEmits(a); OrdinaryEmits(b);
    case Repeat(a) => OrdinaryEmits(a);
    case Branch(a, b, _, c) => OrdinaryEmits(a); OrdinaryEmits(b); OrdinaryEmits(c);
    case Finally(a, b) => OrdinaryEmits(a); OrdinaryEmits(b);
    case Session(a) => OrdinaryEmits(a);
  }

  // ----- code without dead parts -----

  predicate CanExit(p: Prog, x: Exit) {
    CanEnd(IDLE, p, false, x, false)
  }

  /** Whatever can follow a part of the program, and does anything, is reached from it. */
  predicate NoDeadCode(p: Prog) {
    match p
    case Emit(_) => true
    case Leave(_) => true
    case Seq(a, b) => NoDeadCode(a) && NoDeadCode(b) && (Emits(b) != {} ==> CanExit(a, Fell))
    case Choose(a, b) => NoDeadCode(a) && NoDeadCode(b)
    case Repeat(a) => NoDeadCode(a)
    case Branch(a, b, how, c) =>
      && NoDeadCode(a) && NoDeadCode(b) && NoDeadCode(c)
      && (Emits(b) != {} ==> CanExit(a, Fell))
      && (Emits(c) != {} ==> how != Fell && CanExit(a, how))
    case Finally(a, b) => NoDeadCode(a) && NoDeadCode(b)
    case Session(a) => NoDeadCode(a)
  }

  /** Without dead parts, every call written inside a session block can be made there. */
  lemma {:induction false} LiveCallsRun(p: Prog, depth: nat, c: Call)
    requires Ordinary(p) && NoDeadCode(p) && Within(c) in Emits(MarkProg(p, depth))
    ensures CanHit(IDLE, MarkProg(p, depth), false, Within(c), false)
    decreases p, 1
  {
    match p
    case Emit(_) =>
    case Seq(a, b) => LivePair(p, a, b, Fell, depth, c);
    case Choose(a, b) =>
      if Within(c) in Emits(MarkProg(a, depth)) { LiveCallsRun(a, depth, c); } else { LiveCallsRun(b, depth, c); }
    case Repeat(a) => LiveCallsRun(a, depth, c); assert Again(IDLE, MarkProg(a, depth), false, false);
    case Branch(a, b, how, d) =>
      if Within(c) in Emits(MarkProg(d, depth)) {
        MarksEmit(d, depth);
        LivePair(p, a, d, how, depth, c);
      } else {
        LivePair(p, a, b, Fell, depth, c);
      }
    case Finally(a, b) =>
      var x := Exec(a, LEAF).exit;
      EndSound(IDLE, a, false, LEAF);
      IdleBits(false, Exec(a, LEAF).trace);
      LivePair(p, a, b, x, depth, c);
    case Session(a) => LiveCallsRun(a, depth + 1, c);
  }

  lemma {:induction false} LivePair(p: Prog, a: Prog, b: Prog, x: Exit, depth: nat, c: Call)
    requires a < p && b < p && Ordinary(a) && Ordinary(b) && NoDeadCode(a) && NoDeadCode(b) && (Emits(b) != {} ==> CanExit(a, x))
    requires Within(c) in Emits(MarkProg(a, depth)) + Emits(MarkProg(b, depth))
    ensures var m := MarkProg(a, depth);
            || CanHit(IDLE, m, false, Within(c), false)
            || (CanEnd(IDLE, m, false, x, false) && CanHit(IDLE, MarkProg(b, depth), false, Within(c), false))
    decreases p, 0
  {
    if Within(c) in Emits(MarkProg(a, depth)) {
      LiveCallsRun(a, depth, c);
    } else {
      LiveCallsRun(b, depth, c);
      MarksEmit(b, depth);
      MarkedEnds(a, depth, x);
    }
  }

  lemma {:induction false} MarksEmit(p: Prog, depth: nat)
    ensures Emits(p) == {} ==> Emits(MarkProg(p, depth)) == {}
    decreases p
  {
    match p
    case Emit(_) =>
    case Leave(_) =>
    case Seq(a, b) => MarksEmit(a, depth); MarksEmit(b, depth);
    case Choose(a, b) => MarksEmit(a, depth); MarksEmit(b, depth);
    case Repeat(a) => MarksEmit(a, depth);
    case Branch(a, b, _, c) => MarksEmit(a, depth); MarksEmit(b, depth); MarksEmit(c, depth);
    case Finally(a, b) => MarksEmit(a, depth); MarksEmit(b, depth);
    case Session(a) => MarksEmit(a, depth + 1);
  }

  /** Marking calls changes nothing about how a program ends. */
  lemma MarkedEnds(p: Prog, depth: nat, x: Exit)
    requires Ordinary(p)
    ensures CanEnd(IDLE, MarkProg(p, depth), false, x, false) <==> CanExit(p, x)
  {
    var m := MarkProg(p, depth);
    if CanExit(p, x) {
      var o := EndWitness(IDLE, p, false, x, false);
      MarksAgree(p, depth, o);
      EndSound(IDLE, m, false, o);
      IdleBits(false, Exec(m, o).trace);
    }
    if CanEnd(IDLE, m, false, x, false) {
      var o := EndWitness(IDLE, m, false, x, false);
      MarksAgree(p, depth, o);
      EndSound(IDLE, p, false, o);
      IdleBits(false, Exec(p, o).trace);
    }
  }
}
