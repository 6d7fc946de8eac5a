/** The calls written in a piece of code: the breadth-first order in which the auditors visit them,
    the order in which they run, and the set of all of them. */
module Calls {
  import opened Python
  import opened Runs
  import opened Typestate

  function Size(e: Expr): nat {
    1 + match e
        case Op(kids) => Sizes(kids)
        case Invoke(_, kids) => Sizes(kids)
        case IfExp(test, body, orelse) => Size(test) + Size(body) + Size(orelse)
  }

  function Sizes(es: seq<Expr>): nat {
    if es == [] then 0 else Size(es[0]) + Sizes(es[1..])
  }

  lemma {:induction false} SizesAppend(a: seq<Expr>, b: seq<Expr>)
    ensures Sizes(a + b) == Sizes(a) + Sizes(b)
  {
    if a == [] {
      assert a + b == b;
    } else {
      assert (a + b)[1..] == a[1..] + b;
      SizesAppend(a[1..], b);
    }
  }

  /** The child expressions of a node. */
  function Children(e: Expr): (kids: seq<Expr>)
    ensures Sizes(kids) < Size(e)
  {
    match e
    case Op(kids) => kids
    case Invoke(_, kids) => kids
    case IfExp(test, body, orelse) =>
      SizesAppend([test], [body] + [orelse]);
      SizesAppend([body], [orelse]);
      [test] + ([body] + [orelse])
  }

  function Own(e: Expr): seq<Call> {
    if e.Invoke? then [e.call] else []
  }

  /** The calls `ast.walk` meets: the queue is served first in, first out. */
  function Walk(queue: seq<Expr>): seq<Call>
    decreases Sizes(queue)
  {
    if queue == [] then []
    else
      SizesAppend(queue[1..], Children(queue[0]));
      Own(queue[0]) + Walk(queue[1..] + Children(queue[0]))
  }

  /** The calls in the order in which they run, if everything written is evaluated. */
  function Evaluated(e: Expr): seq<Call> {
    match e
    case Op(kids) => EvaluatedAll(kids)
    case Invoke(call, kids) => EvaluatedAll(kids) + [call]
    case IfExp(test, body, orelse) => Evaluated(test) + Evaluated(body) + Evaluated(orelse)
  }

  function EvaluatedAll(es: seq<Expr>): seq<Call> {
    if es == [] then [] else Evaluated(es[0]) + EvaluatedAll(es[1..])
  }

  lemma {:induction false} EvaluatedAppend(a: seq<Expr>, b: seq<Expr>)
    ensures EvaluatedAll(a + b) == EvaluatedAll(a) + EvaluatedAll(b)
  {
    if a == [] {
      assert a + b == b;
    } else {
      assert (a + b)[1..] == a[1..] + b;
      EvaluatedAppend(a[1..], b);
    }
  }

  lemma EvaluatedChildren(e: Expr)
    ensures multiset(Evaluated(e)) == multiset(Own(e)) + multiset(EvaluatedAll(Children(e)))
  {
    if e.IfExp? {
      EvaluatedAppend([e.test], [e.body] + [e.orelse]);
      EvaluatedAppend([e.body], [e.orelse]);
      Alone(e.test);
      Alone(e.body);
      Alone(e.orelse);
    }
  }

  /** The walk visits each call as often as it is written, in whatever order. */
  lemma {:induction false} WalkIsEvaluated(queue: seq<Expr>)
    ensures multiset(Walk(queue)) == multiset(EvaluatedAll(queue))
    decreases Sizes(queue)
  {
    if queue != [] {
      var kids := Children(queue[0]);
      SizesAppend(queue[1..], kids);
      WalkIsEvaluated(queue[1..] + kids);
      EvaluatedAppend(queue[1..], kids);
      EvaluatedChildren(queue[0]);
    }
  }

  /** The calls that the nodes of a level are themselves. */
  function OwnAll(level: seq<Expr>): seq<Call> {
    if level == [] then [] else Own(level[0]) + OwnAll(level[1..])
  }

  function NextLevel(level: seq<Expr>): seq<Expr> {
    if level == [] then [] else Children(level[0]) + NextLevel(level[1..])
  }

  /** The walk is breadth first: the calls of one level, in order, then those of the next. */
  lemma WalkIsByLevels(level: seq<Expr>)
    ensures Walk(level) == OwnAll(level) + Walk(NextLevel(level))
  {
    WalkThrough(level, []);
    assert level + [] == level && [] + NextLevel(level) == NextLevel(level);
  }

  lemma {:induction false} WalkThrough(level: seq<Expr>, rest: seq<Expr>)
    ensures Walk(level + rest) == OwnAll(level) + Walk(rest + NextLevel(level))
  {
    if level == [] {
      assert level + rest == rest && rest + [] == rest;
    } else {
      var kids := Children(level[0]);
      assert (level + rest)[0] == level[0] && (level + rest)[1..] == level[1..] + rest;
      assert level[1..] + rest + kids == level[1..] + (rest + kids);
      assert (rest + kids) + NextLevel(level[1..]) == rest + NextLevel(level);
      WalkThrough(level[1..], rest + kids);
    }
  }

  // ----- every call written in a statement -----

  function ExprCalls(e: Expr): set<Call> {
    set c | c in Evaluated(e)
  }

  function StmtCalls(s: Stmt): set<Call>
    decreases s, 0
  {
    match s
    case If(test, body, orelse) => ExprCalls(test) + BlockCalls(body) + BlockCalls(orelse)
    case For(iter, _, body, orelse) => ExprCalls(iter) + BlockCalls(body) + BlockCalls(orelse)
    case While(test, body, orelse) => ExprCalls(test) + BlockCalls(body) + BlockCalls(orelse)
    case With(items, body) => ItemCalls(items) + BlockCalls(body)
    case Try(body, handlers, orelse, finalbody) =>
      BlockCalls(body) + HandlerCalls(handlers) + BlockCalls(orelse) + BlockCalls(finalbody)
    case _ => set c | c in EvaluatedAll(Operands(s))
  }

  function BlockCalls(ss: seq<Stmt>): set<Call>
    decreases ss, 0
  {
    if ss == [] then {} else StmtCalls(ss[0]) + BlockCalls(ss[1..])
  }

  function HandlerCalls(hs: seq<Handler>): set<Call>
    decreases hs, 0
  {
    if hs == [] then {} else BlockCalls(hs[0].body) + HandlerCalls(hs[1..])
  }

  function ItemCalls(items: seq<WithItem>): set<Call> {
    if items == [] then {} else ExprCalls(items[0].context) + ItemCalls(items[1..])
  }

  // ----- the events a program can perform are among those written -----

  function Emits(p: Prog): set<Event> {
    match p
    case Emit(ev) => {ev}
    case Leave(_) => {}
    case Seq(a, b) => Emits(a) + Emits(b)
    case Choose(a, b) => Emits(a) + Emits(b)
    case Repeat(a) => Emits(a)
    case Branch(a, b, _, c) => Emits(a) + Emits(b) + Emits(c)
    case Finally(a, b) => Emits(a) + Emits(b)
    case Session(a) => {Opened, Closed} + Emits(a)
  }

  lemma {:induction false} HitIsEmitted(m: Machine, p: Prog, b: bool, ev: Event, b2: bool)
    requires CanHit(m, p, b, ev, b2)
    ensures ev in Emits(p)
  {
    match p
    case Emit(_) =>
    case Seq(p1, p2) =>
      if CanHit(m, p1, b, ev, b2) { HitIsEmitted(m, p1, b, ev, b2); }
      else { var b1 :| CanHit(m, p2, b1, ev, b2); HitIsEmitted(m, p2, b1, ev, b2); }
    case Choose(p1, p2) => HitIsEmitted(m, if CanHit(m, p1, b, ev, b2) then p1 else p2, b, ev, b2);
    case Repeat(p1) => var b1 :| CanHit(m, p1, b1, ev, b2); HitIsEmitted(m, p1, b1, ev, b2);
    case Branch(p1, p2, _, p3) =>
      if CanHit(m, p1, b, ev, b2) { HitIsEmitted(m, p1, b, ev, b2); }
      else if b1 :| CanHit(m, p2, b1, ev, b2) { HitIsEmitted(m, p2, b1, ev, b2); }
      else { var b1 :| CanHit(m, p3, b1, ev, b2); HitIsEmitted(m, p3, b1, ev, b2); }
    case Finally(p1, p2) =>
      if CanHit(m, p1, b, ev, b2) { HitIsEmitted(m, p1, b, ev, b2); }
      else { var b1 :| CanHit(m, p2, b1, ev, b2); HitIsEmitted(m, p2, b1, ev, b2); }
    case Session(p1) =>
      if CanHit(m, p1, m(b, Opened), ev, b2) { HitIsEmitted(m, p1, m(b, Opened), ev, b2); }
  }

  lemma Alone(e: Expr)
    ensures EvaluatedAll([e]) == Evaluated(e)
  {
    assert [e][1..] == [] && Evaluated(e) + [] == Evaluated(e);
  }
}
