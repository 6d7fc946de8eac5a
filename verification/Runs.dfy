/** What the Python fragment does when it runs. Statements are given meaning as programs over a small
    core with exits; a run of a program is fixed by an oracle that settles every choice, and yields
    the trace of its events together with the way it ended. */
module Runs {
  import opened Options
  import opened Python

  /** `Entered(BareIf)`: control enters the body of an `if` without `else`.
      `Entered(DynamicLoop)`: control enters the body of a `for` whose iterable may be empty. */
  datatype Guard = BareIf | DynamicLoop

  datatype Event =
    | Called(call: Call)
    | Within(call: Call)     // a call, marked as made while a session block is open
    | Asserted(id: nat)
    | BareReturn(line: nat)
    | Raising
    | Entered(guard: Guard)
    | Opened
    | Closed

  datatype Exit = Fell | Returned | Raised | Broke | Continued

  datatype Prog =
    | Emit(ev: Event)
    | Leave(how: Exit)
    | Seq(first: Prog, second: Prog)
    | Choose(left: Prog, right: Prog)
    | Repeat(body: Prog)
    | Branch(body: Prog, fell: Prog, how: Exit, handler: Prog)  // continue by the way `body` ended
    | Finally(body: Prog, last: Prog)
    | Session(body: Prog)                                       // opened before, closed whatever happens

  datatype Oracle = Oracle(pick: bool, kids: seq<Oracle>)

  datatype Run = Run(trace: seq<Event>, exit: Exit)

  const LEAF := Oracle(false, [])

  function Kid(o: Oracle, i: nat): Oracle {
    if i < |o.kids| then o.kids[i] else LEAF
  }

  function Exec(p: Prog, o: Oracle): Run
    decreases p, 0, 0
  {
    match p
    case Emit(ev) => Run([ev], Fell)
    case Leave(how) => Run([], how)
    case Seq(a, b) =>
      var r := Exec(a, Kid(o, 0));
      if r.exit != Fell then r else After(r, Exec(b, Kid(o, 1)))
    case Choose(a, b) => if o.pick then Exec(a, Kid(o, 0)) else Exec(b, Kid(o, 0))
    case Repeat(a) => ExecRepeat(a, o.kids)
    case Branch(a, fell, how, handler) =>
      var r := Exec(a, Kid(o, 0));
      if r.exit == Fell then After(r, Exec(fell, Kid(o, 1)))
      else if r.exit == how then After(r, Exec(handler, Kid(o, 1)))
      else r
    case Finally(a, last) =>
      var r := Exec(a, Kid(o, 0));
      var l := Exec(last, Kid(o, 1));
      Run(r.trace + l.trace, if l.exit == Fell then r.exit else l.exit)
    case Session(a) =>
      var r := Exec(a, Kid(o, 0));
      Run([Opened] + r.trace + [Closed], r.exit)
  }

  function After(r: Run, next: Run): Run {
    Run(r.trace + next.trace, next.exit)
  }

  function ExecRepeat(a: Prog, os: seq<Oracle>): Run
    decreases a, 1, |os|
  {
    if os == [] then Run([], Fell)
    else
      var r := Exec(a, os[0]);
      if r.exit != Fell then r else After(r, ExecRepeat(a, os[1..]))
  }

  // ----- the meaning of expressions and statements -----

  const RAISE_NOW := Seq(Emit(Raising), Leave(Raised))
  const MAY_RAISE := Choose(RAISE_NOW, Leave(Fell))

  function OfExpr(e: Expr): Prog {
    match e
    case Op(kids) => OfExprs(kids)
    case Invoke(call, kids) => Seq(OfExprs(kids), Seq(Emit(Called(call)), MAY_RAISE))
    case IfExp(test, body, orelse) => Seq(OfExpr(test), Choose(OfExpr(body), OfExpr(orelse)))
  }

  function OfExprs(es: seq<Expr>): Prog {
    if es == [] then Leave(Fell) else Seq(OfExpr(es[0]), OfExprs(es[1..]))
  }

  function OfBlock(ss: seq<Stmt>): Prog
    decreases ss, 0
  {
    if ss == [] then Leave(Fell) else Seq(OfStmt(ss[0]), OfBlock(ss[1..]))
  }

  /** One pass through a loop body; `continue` ends the pass. */
  function Pass(p: Prog): Prog {
    Branch(p, Leave(Fell), Continued, Leave(Fell))
  }

  /** A loop followed by its `else`, which a `break` skips. */
  function Loop(passes: Prog, otherwise: Prog): Prog {
    Branch(passes, otherwise, Broke, Leave(Fell))
  }

  /** A `with` item may swallow the exception its block raises. */
  function Swallow(p: Prog): Prog {
    Branch(p, Leave(Fell), Raised, Choose(Leave(Fell), Leave(Raised)))
  }

  function OfStmt(s: Stmt): Prog
    decreases s, 0
  {
    match s
    case Simple(e) => Seq(OfExpr(e), MAY_RAISE)
    case Assert(id, test) => Seq(OfExpr(test), Seq(Emit(Asserted(id)), MAY_RAISE))
    case Return(line, value) =>
      if value.Some? then Seq(OfExpr(value.value), Leave(Returned))
      else Seq(Emit(BareReturn(line)), Leave(Returned))
    case Raise(e) => Seq(OfExpr(e), RAISE_NOW)
    case Break => Leave(Broke)
    case Continue => Leave(Continued)
    case If(test, body, orelse) =>
      Seq(OfExpr(test),
          Choose(if orelse == [] then Seq(Emit(Entered(BareIf)), OfBlock(body)) else OfBlock(body),
                 OfBlock(orelse)))
    case For(iter, fixed, body, orelse) =>
      var pass := Pass(if fixed then OfBlock(body) else Seq(Emit(Entered(DynamicLoop)), OfBlock(body)));
      Seq(OfExpr(iter),
          Loop(if fixed then Seq(pass, Repeat(pass)) else Repeat(pass), OfBlock(orelse)))
    case While(test, body, orelse) =>
      Loop(Repeat(Pass(Seq(OfExpr(test), OfBlock(body)))), Seq(OfExpr(test), OfBlock(orelse)))
    case With(items, body) => OfWith(items, OfBlock(body))
    case Try(body, handlers, orelse, finalbody) =>
      Finally(Branch(OfBlock(body), OfBlock(orelse), Raised, OfHandlers(handlers)), OfBlock(finalbody))
  }

  /** Several items nest, the first outermost. */
  function OfWith(items: seq<WithItem>, body: Prog): Prog {
    if items == [] then body
    else
      var inner := OfWith(items[1..], body);
      Seq(OfExpr(items[0].context), Swallow(if items[0].opens then Session(inner) else inner))
  }

  /** Any handler may match the exception, or none. */
  function OfHandlers(handlers: seq<Handler>): Prog
    decreases handlers, 0
  {
    if handlers == [] then Leave(Raised)
    else Choose(OfBlock(handlers[0].body), OfHandlers(handlers[1..]))
  }
}
