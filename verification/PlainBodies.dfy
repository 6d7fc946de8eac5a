/** Bodies without early exits: there the vacuity detectors' verdicts need no assumption about runs. */
module PlainBodies {
  import opened Python
  import opened Runs
  import opened Typestate
  import opened Vacuity

  /** No `return`, `raise`, `break` or `continue`, at any depth. */
  predicate Plain(s: Stmt)
    decreases s, 0
  {
    match s
    case Simple(_) => true
    case Assert(_, _) => true
    case If(_, body, orelse) => AllPlain(body) && AllPlain(orelse)
    case For(_, _, body, orelse) => AllPlain(body) && AllPlain(orelse)
    case While(_, body, orelse) => AllPlain(body) && AllPlain(orelse)
    case With(_, body) => AllPlain(body)
    case Try(body, handlers, orelse, finalbody) =>
      AllPlain(body) && HandlersPlain(handlers) && AllPlain(orelse) && AllPlain(finalbody)
    case _ => false
  }

  predicate AllPlain(ss: seq<Stmt>)
    decreases ss, 0
  {
    ss == [] || (Plain(ss[0]) && AllPlain(ss[1..]))
  }

  predicate HandlersPlain(hs: seq<Handler>)
    decreases hs, 0
  {
    hs == [] || (AllPlain(hs[0].body) && HandlersPlain(hs[1..]))
  }

  // ----- a plain body can complete without entering a guard -----

  ghost predicate Completes(g: Guard, p: Prog) { CanEnd(Entry(g), p, false, Fell, false) }

  lemma SeqCompletes(g: Guard, p: Prog, q: Prog)
    requires Completes(g, p) && Completes(g, q)
    ensures Completes(g, Seq(p, q)) && Completes(g, Finally(p, q))
  {
    SeqEnds(Entry(g), p, q, false, false, Fell, false);
  }

  lemma SessionCompletes(g: Guard, p: Prog)
    requires Completes(g, p)
    ensures Completes(g, Session(p))
  {
    var m := Entry(g);
    assert m(false, Opened) == false && m(false, Closed) == false;
    assert CanEnd(m, p, m(false, Opened), Fell, false);
  }

  /** A loop may make no pass at all. */
  lemma RepeatCompletes(g: Guard, p: Prog)
    ensures Completes(g, Repeat(p))
  {
    assert Again(Entry(g), p, false, false);
  }

  lemma EventReached(g: Guard, ev: Event, p: Prog)
    requires ReachedFreely(g, p)
    ensures ReachedFreely(g, Seq(Emit(ev), p))
  {
    if ev != Entered(g) { assert Completes(g, Emit(ev)); }
  }

  lemma BranchCompletes(g: Guard, p: Prog, q: Prog, how: Exit, r: Prog)
    requires Completes(g, p) && Completes(g, q)
    ensures Completes(g, Branch(p, q, how, r))
  {
  }

  lemma {:induction false} ExprCompletes(g: Guard, e: Expr)
    ensures Completes(g, OfExpr(e)) && ReachedFreely(g, OfExpr(e))
    decreases e, 0
  {
    match e
    case Op(kids) => ExprsComplete(g, kids);
    case Invoke(call, kids) =>
      ExprsComplete(g, kids);
      MayRaiseEnds(Entry(g), false);
      EmitThenEnds(Entry(g), Called(call), MAY_RAISE, false, Fell, false);
      SeqCompletes(g, OfExprs(kids), Seq(Emit(Called(call)), MAY_RAISE));
      MayRaiseIsFree(g);
      EventReached(g, Called(call), MAY_RAISE);
    case IfExp(test, body, orelse) =>
      ExprCompletes(g, test);
      ExprCompletes(g, body);
      ExprCompletes(g, orelse);
      SeqCompletes(g, OfExpr(test), Choose(OfExpr(body), OfExpr(orelse)));
  }

  lemma {:induction false} ExprsComplete(g: Guard, es: seq<Expr>)
    ensures Completes(g, OfExprs(es)) && ReachedFreely(g, OfExprs(es))
    decreases es, 0
  {
    if es != [] {
      ExprCompletes(g, es[0]);
      ExprsComplete(g, es[1..]);
      SeqCompletes(g, OfExpr(es[0]), OfExprs(es[1..]));
    }
  }

  lemma MayRaiseIsFree(g: Guard)
    ensures ReachedFreely(g, RAISE_NOW) && ReachedFreely(g, MAY_RAISE)
    ensures Completes(g, Emit(Raising)) && Completes(g, MAY_RAISE)
  {
    MayRaiseEnds(Entry(g), false);
    assert Completes(g, Emit(Raising));
  }

  lemma {:induction false} PlainCompletes(g: Guard, s: Stmt)
    requires Plain(s)
    ensures Completes(g, OfStmt(s))
    decreases s, 0
  {
    match s
    case Simple(e) => MayRaiseIsFree(g); ExprCompletes(g, e); SeqCompletes(g, OfExpr(e), MAY_RAISE);
    case Assert(id, test) => AssertCompletes(g, id, test);
    case If(test, body, orelse) =>
      BlockCompletes(g, body);
      BlockCompletes(g, orelse);
      ExprCompletes(g, test);
      SeqCompletes(g, OfExpr(test), OfStmt(s).second);
    case For(iter, fixed, body, orelse) =>
      BlockCompletes(g, body);
      BlockCompletes(g, orelse);
      ForCompletes(g, s);
    case While(test, body, orelse) =>
      BlockCompletes(g, orelse);
      ExprCompletes(g, test);
      SeqCompletes(g, OfExpr(test), OfBlock(orelse));
      RepeatCompletes(g, Pass(Seq(OfExpr(test), OfBlock(body))));
      BranchCompletes(g, Repeat(Pass(Seq(OfExpr(test), OfBlock(body)))), Seq(OfExpr(test), OfBlock(orelse)), Broke, Leave(Fell));
    case With(items, body) => BlockCompletes(g, body); WithCompletes(g, items, OfBlock(body));
    case Try(body, handlers, orelse, finalbody) =>
      BlockCompletes(g, body);
      BlockCompletes(g, orelse);
      BlockCompletes(g, finalbody);
      BranchCompletes(g, OfBlock(body), OfBlock(orelse), Raised, OfHandlers(handlers));
      SeqCompletes(g, Branch(OfBlock(body), OfBlock(orelse), Raised, OfHandlers(handlers)), OfBlock(finalbody));
  }

  lemma {:induction false} BlockCompletes(g: Guard, ss: seq<Stmt>)
    requires AllPlain(ss)
    ensures Completes(g, OfBlock(ss))
    decreases ss, 0
  {
    if ss != [] {
      PlainCompletes(g, ss[0]);
      BlockCompletes(g, ss[1..]);
      SeqCompletes(g, OfStmt(ss[0]), OfBlock(ss[1..]));
    }
  }

  lemma AssertCompletes(g: Guard, id: nat, test: Expr)
    ensures Completes(g, Seq(Emit(Asserted(id)), MAY_RAISE)) && Completes(g, OfStmt(Assert(id, test)))
  {
    MayRaiseIsFree(g);
    ExprCompletes(g, test);
    EmitThenEnds(Entry(g), Asserted(id), MAY_RAISE, false, Fell, false);
    SeqCompletes(g, OfExpr(test), Seq(Emit(Asserted(id)), MAY_RAISE));
  }

  lemma ForCompletes(g: Guard, s: Stmt)
    requires s.For? && Completes(g, OfBlock(s.body)) && Completes(g, OfBlock(s.orelse))
    ensures Completes(g, OfStmt(s))
  {
    ExprCompletes(g, s.iter);
    var pass := Pass(if s.fixed then OfBlock(s.body) else Seq(Emit(Entered(DynamicLoop)), OfBlock(s.body)));
    var passes := if s.fixed then Seq(pass, Repeat(pass)) else Repeat(pass);
    if s.fixed {
      BranchCompletes(g, OfBlock(s.body), Leave(Fell), Continued, Leave(Fell));
      RepeatCompletes(g, pass);
      SeqCompletes(g, pass, Repeat(pass));
    } else {
      RepeatCompletes(g, pass);
    }
    BranchCompletes(g, passes, OfBlock(s.orelse), Broke, Leave(Fell));
    SeqCompletes(g, OfExpr(s.iter), Loop(passes, OfBlock(s.orelse)));
  }

  lemma {:induction false} WithCompletes(g: Guard, items: seq<WithItem>, body: Prog)
    requires Completes(g, body)
    ensures Completes(g, OfWith(items, body))
    decreases items
  {
    if items != [] {
      var inner := OfWith(items[1..], body);
      WithCompletes(g, items[1..], body);
      ExprCompletes(g, items[0].context);
      SessionCompletes(g, inner);
      var block := if items[0].opens then Session(inner) else inner;
      BranchCompletes(g, block, Leave(Fell), Raised, Choose(Leave(Fell), Leave(Raised)));
      SeqCompletes(g, OfExpr(items[0].context), Swallow(block));
    }
  }

  // ----- everything outside guards is reached -----

  /** Handlers stand only where a statement directly in the `try` body may raise. */
  predicate Handled(s: Stmt)
    decreases s, 0
  {
    match s
    case If(_, body, orelse) => AllHandled(body) && AllHandled(orelse)
    case For(_, _, body, orelse) => AllHandled(body) && AllHandled(orelse)
    case While(_, body, orelse) => AllHandled(body) && AllHandled(orelse)
    case With(_, body) => AllHandled(body)
    case Try(body, handlers, orelse, finalbody) =>
      && (handlers != [] ==> MayThrow(body))
      && AllHandled(body) && HandlersHandled(handlers) && AllHandled(orelse) && AllHandled(finalbody)
    case _ => true
  }

  predicate AllHandled(ss: seq<Stmt>)
    decreases ss, 0
  {
    ss == [] || (Handled(ss[0]) && AllHandled(ss[1..]))
  }

  predicate HandlersHandled(hs: seq<Handler>)
    decreases hs, 0
  {
    hs == [] || (AllHandled(hs[0].body) && HandlersHandled(hs[1..]))
  }

  predicate MayThrow(ss: seq<Stmt>) {
    ss != [] && (ss[0].Simple? || ss[0].Assert? || MayThrow(ss[1..]))
  }

  lemma {:induction false} ThrowsFreely(g: Guard, ss: seq<Stmt>)
    requires AllPlain(ss) && MayThrow(ss)
    ensures CanEnd(Entry(g), OfBlock(ss), false, Raised, false)
  {
    var m, s := Entry(g), ss[0];
    MayRaiseEnds(m, false);
    if s.Simple? {
      ExprCompletes(g, s.e);
      SeqEnds(m, OfExpr(s.e), MAY_RAISE, false, false, Raised, false);
    } else if s.Assert? {
      ExprCompletes(g, s.test);
      EmitThenEnds(m, Asserted(s.id), MAY_RAISE, false, Raised, false);
      SeqEnds(m, OfExpr(s.test), Seq(Emit(Asserted(s.id)), MAY_RAISE), false, false, Raised, false);
    } else {
      PlainCompletes(g, s);
      ThrowsFreely(g, ss[1..]);
      SeqEnds(m, OfStmt(s), OfBlock(ss[1..]), false, false, Raised, false);
    }
  }

  lemma SeqReached(g: Guard, p: Prog, q: Prog)
    requires ReachedFreely(g, p) && ReachedFreely(g, q) && Completes(g, p)
    ensures ReachedFreely(g, Seq(p, q)) && ReachedFreely(g, Finally(p, q))
  {
  }

  /** A branch whose handler does nothing, or can be entered. */
  lemma BranchReached(g: Guard, p: Prog, q: Prog, how: Exit, r: Prog)
    requires ReachedFreely(g, p) && ReachedFreely(g, q) && ReachedFreely(g, r) && Completes(g, p)
    requires Free(g, r) == {} || (how != Fell && CanEnd(Entry(g), p, false, how, false))
    ensures ReachedFreely(g, Branch(p, q, how, r))
  {
  }

  lemma {:induction false} PlainReached(g: Guard, s: Stmt)
    requires Plain(s) && Handled(s)
    ensures ReachedFreely(g, OfStmt(s))
    decreases s, 0
  {
    match s
    case Simple(e) => MayRaiseIsFree(g); ExprCompletes(g, e); SeqReached(g, OfExpr(e), MAY_RAISE);
    case Assert(id, test) => AssertReached(g, id, test);
    case If(test, body, orelse) => BlockReached(g, body); BlockReached(g, orelse); IfReached(g, s);
    case For(iter, fixed, body, orelse) =>
      BlockReached(g, body);
      BlockReached(g, orelse);
      BlockCompletes(g, body);
      ForReached(g, s);
    case While(test, body, orelse) =>
      BlockReached(g, body);
      BlockReached(g, orelse);
      BlockCompletes(g, body);
      WhileReached(g, s);
    case With(items, body) =>
      BlockReached(g, body);
      BlockCompletes(g, body);
      WithReached(g, items, OfBlock(body));
    case Try(body, handlers, orelse, finalbody) =>
      BlockReached(g, body);
      HandlersReached(g, handlers);
      BlockReached(g, orelse);
      BlockReached(g, finalbody);
      TryReached(g, s);
  }

  lemma AssertReached(g: Guard, id: nat, test: Expr)
    ensures ReachedFreely(g, OfStmt(Assert(id, test)))
  {
    MayRaiseIsFree(g);
    ExprCompletes(g, test);
    EventReached(g, Asserted(id), MAY_RAISE);
    SeqReached(g, OfExpr(test), Seq(Emit(Asserted(id)), MAY_RAISE));
  }

  lemma {:induction false} BlockReached(g: Guard, ss: seq<Stmt>)
    requires AllPlain(ss) && AllHandled(ss)
    ensures ReachedFreely(g, OfBlock(ss))
    decreases ss, 0
  {
    if ss != [] {
      PlainReached(g, ss[0]);
      PlainCompletes(g, ss[0]);
      BlockReached(g, ss[1..]);
      SeqReached(g, OfStmt(ss[0]), OfBlock(ss[1..]));
    }
  }

  lemma {:induction false} HandlersReached(g: Guard, hs: seq<Handler>)
    requires HandlersPlain(hs) && HandlersHandled(hs)
    ensures ReachedFreely(g, OfHandlers(hs))
    decreases hs, 0
  {
    if hs != [] {
      BlockReached(g, hs[0].body);
      HandlersReached(g, hs[1..]);
    }
  }

  lemma IfReached(g: Guard, s: Stmt)
    requires s.If? && ReachedFreely(g, OfBlock(s.body)) && ReachedFreely(g, OfBlock(s.orelse))
    ensures ReachedFreely(g, OfStmt(s))
  {
    EventReached(g, Entered(BareIf), OfBlock(s.body));
    ExprCompletes(g, s.test);
    SeqReached(g, OfExpr(s.test), OfStmt(s).second);
  }

  /** Nothing happens after `break` or `continue` itself. */
  lemma LoopReached(g: Guard, pass: Prog, otherwise: Prog)
    requires ReachedFreely(g, pass) && ReachedFreely(g, otherwise)
    ensures ReachedFreely(g, Pass(pass))
    ensures Completes(g, pass) ==> ReachedFreely(g, Loop(pass, otherwise))
  {
    assert Free(g, Leave(Fell)) == {};
  }

  lemma ForReached(g: Guard, s: Stmt)
    requires s.For? && ReachedFreely(g, OfBlock(s.body)) && ReachedFreely(g, OfBlock(s.orelse))
    requires Completes(g, OfBlock(s.body))
    ensures ReachedFreely(g, OfStmt(s))
  {
    var inner := if s.fixed then OfBlock(s.body) else Seq(Emit(Entered(DynamicLoop)), OfBlock(s.body));
    var passes := if s.fixed then Seq(Pass(inner), Repeat(Pass(inner))) else Repeat(Pass(inner));
    EventReached(g, Entered(DynamicLoop), OfBlock(s.body));
    PassesReached(g, inner, s.fixed, passes);
    LoopReached(g, passes, OfBlock(s.orelse));
    ExprCompletes(g, s.iter);
    SeqReached(g, OfExpr(s.iter), Loop(passes, OfBlock(s.orelse)));
  }

  lemma PassesReached(g: Guard, inner: Prog, fixed: bool, passes: Prog)
    requires ReachedFreely(g, inner) && (fixed ==> Completes(g, inner))
    requires passes == if fixed then Seq(Pass(inner), Repeat(Pass(inner))) else Repeat(Pass(inner))
    ensures ReachedFreely(g, passes) && Completes(g, passes)
  {
    LoopReached(g, inner, Leave(Fell));
    RepeatCompletes(g, Pass(inner));
    if fixed {
      BranchCompletes(g, inner, Leave(Fell), Continued, Leave(Fell));
      SeqCompletes(g, Pass(inner), Repeat(Pass(inner)));
      SeqReached(g, Pass(inner), Repeat(Pass(inner)));
    }
  }

  lemma WhileReached(g: Guard, s: Stmt)
    requires s.While? && ReachedFreely(g, OfBlock(s.body)) && ReachedFreely(g, OfBlock(s.orelse))
    ensures ReachedFreely(g, OfStmt(s))
  {
    var inner, otherwise := Seq(OfExpr(s.test), OfBlock(s.body)), Seq(OfExpr(s.test), OfBlock(s.orelse));
    ExprCompletes(g, s.test);
    SeqReached(g, OfExpr(s.test), OfBlock(s.body));
    SeqReached(g, OfExpr(s.test), OfBlock(s.orelse));
    LoopReached(g, inner, otherwise);
    RepeatCompletes(g, Pass(inner));
    LoopReached(g, Repeat(Pass(inner)), otherwise);
  }

  lemma TryReached(g: Guard, s: Stmt)
    requires Plain(s) && Handled(s) && s.Try?
    requires ReachedFreely(g, OfBlock(s.body)) && ReachedFreely(g, OfHandlers(s.handlers))
    requires ReachedFreely(g, OfBlock(s.orelse)) && ReachedFreely(g, OfBlock(s.finalbody))
    ensures ReachedFreely(g, OfStmt(s))
  {
    var guarded := Branch(OfBlock(s.body), OfBlock(s.orelse), Raised, OfHandlers(s.handlers));
    BlockCompletes(g, s.body);
    BlockCompletes(g, s.orelse);
    if s.handlers != [] { ThrowsFreely(g, s.body); }
    BranchReached(g, OfBlock(s.body), OfBlock(s.orelse), Raised, OfHandlers(s.handlers));
    BranchCompletes(g, OfBlock(s.body), OfBlock(s.orelse), Raised, OfHandlers(s.handlers));
    SeqReached(g, guarded, OfBlock(s.finalbody));
  }

  lemma {:induction false} WithReached(g: Guard, items: seq<WithItem>, body: Prog)
    requires ReachedFreely(g, body) && Completes(g, body)
    ensures ReachedFreely(g, OfWith(items, body))
    decreases items
  {
    if items != [] {
      var inner := OfWith(items[1..], body);
      WithReached(g, items[1..], body);
      WithCompletes(g, items[1..], body);
      SessionCompletes(g, inner);
      ExprCompletes(g, items[0].context);
      var block := if items[0].opens then Session(inner) else inner;
      assert Free(g, Choose(Leave(Fell), Leave(Raised))) == {};
      BranchReached(g, block, Leave(Fell), Raised, Choose(Leave(Fell), Leave(Raised)));
      SeqReached(g, OfExpr(items[0].context), Swallow(block));
    }
  }

  // ----- the verdicts on plain bodies -----

  /** On a body without early exits whose assertions are all guarded, some run completes - every such `if`
      false, every such iterable empty - and asserts nothing. */
  lemma PlainVacuousPass(g: Guard, body: seq<Stmt>) returns (o: Oracle)
    requires Distinct(BlockAsserts(body)) && AllGuarded(g, body) && AllPlain(body)
    ensures var r := Exec(OfBlock(body), o);
            r.exit == Fell && forall i | 0 <= i < |r.trace| :: !r.trace[i].Asserted? && r.trace[i] != Entered(g)
  {
    BlockCompletes(g, body);
    o := VacuousPass(g, body);
  }

  /** On a body without early exits, every assertion is guarded exactly when no run that steps over the
      guards executes any. */
  lemma PlainVerdictExactly(g: Guard, body: seq<Stmt>)
    requires Distinct(BlockAsserts(body)) && AllPlain(body) && AllHandled(body)
    ensures AllGuarded(g, body) <==> forall id :: !RunsUnguarded(g, body, id)
  {
    BlockReached(g, body);
    AllGuardedExactly(g, body);
  }

  // ----- whole runs that step over every guard -----

  ghost predicate NoEntry(g: Guard, t: seq<Event>) { forall i | 0 <= i < |t| :: t[i] != Entered(g) }

  /** A run that ends by the exit and enters no guard. */
  ghost predicate Avoids(g: Guard, p: Prog, x: Exit, o: Oracle) {
    Exec(p, o).exit == x && NoEntry(g, Exec(p, o).trace)
  }

  /** It completes, enters no guard, and executes the assertion. */
  ghost predicate CleanBy(g: Guard, p: Prog, id: nat, o: Oracle) {
    Avoids(g, p, Fell, o) && Asserted(id) in Exec(p, o).trace
  }

  ghost predicate Clean(g: Guard, p: Prog, id: nat) { exists o :: CleanBy(g, p, id, o) }

  lemma AvoidingRun(g: Guard, p: Prog, x: Exit) returns (o: Oracle)
    requires CanEnd(Entry(g), p, false, x, false)
    ensures Avoids(g, p, x, o)
  {
    o := EndWitness(Entry(g), p, false, x, false);
    var t := Exec(p, o).trace;
    forall i | 0 <= i < |t| ensures t[i] != Entered(g) { NeverEntered(g, t, i); }
  }

  lemma NoEntryJoin(g: Guard, t: seq<Event>, u: seq<Event>)
    requires NoEntry(g, t) && NoEntry(g, u)
    ensures NoEntry(g, t + u)
  {
  }

  lemma SeqClean(g: Guard, p: Prog, q: Prog, id: nat)
    requires (Clean(g, p, id) && Completes(g, q)) || (Completes(g, p) && Clean(g, q, id))
    ensures Clean(g, Seq(p, q), id) && Clean(g, Finally(p, q), id)
  {
    var a: Oracle, b: Oracle;
    if Clean(g, p, id) && Completes(g, q) {
      a :| CleanBy(g, p, id, a);
      b := AvoidingRun(g, q, Fell);
    } else {
      a := AvoidingRun(g, p, Fell);
      b :| CleanBy(g, q, id, b);
    }
    var o := Oracle(false, [a, b]);
    assert Kid(o, 0) == a && Kid(o, 1) == b;
    NoEntryJoin(g, Exec(p, a).trace, Exec(q, b).trace);
    assert CleanBy(g, Seq(p, q), id, o) && CleanBy(g, Finally(p, q), id, o);
  }

  lemma ChooseClean(g: Guard, p: Prog, q: Prog, id: nat)
    requires Clean(g, p, id) || Clean(g, q, id)
    ensures Clean(g, Choose(p, q), id)
  {
    var left := Clean(g, p, id);
    var a :| CleanBy(g, if left then p else q, id, a);
    var o := Oracle(left, [a]);
    assert Kid(o, 0) == a;
    assert CleanBy(g, Choose(p, q), id, o);
  }

  lemma RepeatClean(g: Guard, p: Prog, id: nat)
    requires Clean(g, p, id)
    ensures Clean(g, Repeat(p), id)
  {
    var a :| CleanBy(g, p, id, a);
    var o := Oracle(false, [a]);
    assert [a][1..] == [] && ExecRepeat(p, []) == Run([], Fell);
    assert Exec(p, a).trace + [] == Exec(p, a).trace;
    assert CleanBy(g, Repeat(p), id, o);
  }

  /** Through the body, then what follows it; or out of the body by the exit, then through the handler. */
  lemma BranchClean(g: Guard, p: Prog, q: Prog, how: Exit, r: Prog, id: nat)
    requires (Clean(g, p, id) && Completes(g, q)) || (Completes(g, p) && Clean(g, q, id))
      || (how != Fell && CanEnd(Entry(g), p, false, how, false) && Clean(g, r, id))
    ensures Clean(g, Branch(p, q, how, r), id)
  {
    var a: Oracle, b: Oracle;
    var next := q;
    if Clean(g, p, id) && Completes(g, q) {
      a :| CleanBy(g, p, id, a);
      b := AvoidingRun(g, q, Fell);
    } else if Completes(g, p) && Clean(g, q, id) {
      a := AvoidingRun(g, p, Fell);
      b :| CleanBy(g, q, id, b);
    } else {
      next := r;
      a := AvoidingRun(g, p, how);
      b :| CleanBy(g, r, id, b);
    }
    var o := Oracle(false, [a, b]);
    assert Kid(o, 0) == a && Kid(o, 1) == b;
    NoEntryJoin(g, Exec(p, a).trace, Exec(next, b).trace);
    assert CleanBy(g, Branch(p, q, how, r), id, o);
  }

  lemma SessionClean(g: Guard, p: Prog, id: nat)
    requires Clean(g, p, id)
    ensures Clean(g, Session(p), id)
  {
    var a :| CleanBy(g, p, id, a);
    var o := Oracle(false, [a]);
    assert Kid(o, 0) == a;
    var t := Exec(p, a).trace;
    assert Asserted(id) in [Opened] + t + [Closed];
    assert CleanBy(g, Session(p), id, o);
  }

  lemma EventClean(g: Guard, ev: Event, p: Prog, id: nat)
    requires ev != Entered(g) && Completes(g, p) && (Clean(g, p, id) || ev == Asserted(id))
    ensures Clean(g, Seq(Emit(ev), p), id)
  {
    assert Completes(g, Emit(ev));
    if ev == Asserted(id) { assert CleanBy(g, Emit(ev), id, LEAF); }
    SeqClean(g, Emit(ev), p, id);
  }

  lemma PassClean(g: Guard, p: Prog, id: nat)
    requires Clean(g, p, id)
    ensures Clean(g, Pass(p), id)
  {
    BranchClean(g, p, Leave(Fell), Continued, Leave(Fell), id);
  }

  /** A loose assertion of a plain body is executed by some run that completes and enters no guard. */
  lemma {:induction false} LooseIsClean(g: Guard, s: Stmt, id: nat)
    requires Plain(s) && Handled(s) && id in Loose(g, s)
    ensures Clean(g, OfStmt(s), id)
    decreases s, 0
  {
    match s
    case Assert(_, test) => AssertIsClean(g, id, test);
    case If(test, body, orelse) =>
      if id in BlockLoose(g, orelse) { BlockIsClean(g, orelse, id); } else { BlockIsClean(g, body, id); }
      IfIsClean(g, s, id);
    case For(iter, fixed, body, orelse) =>
      if id in BlockLoose(g, orelse) { BlockIsClean(g, orelse, id); } else { BlockIsClean(g, body, id); }
      ForIsClean(g, s, id);
    case While(test, body, orelse) =>
      if id in BlockLoose(g, orelse) { BlockIsClean(g, orelse, id); } else { BlockIsClean(g, body, id); }
      WhileIsClean(g, s, id);
    case With(items, body) =>
      BlockIsClean(g, body, id);
      WithIsClean(g, items, OfBlock(body), id);
    case Try(body, handlers, orelse, finalbody) =>
      if id in BlockLoose(g, finalbody) { BlockIsClean(g, finalbody, id); }
      else if id in BlockLoose(g, orelse) { BlockIsClean(g, orelse, id); }
      else if id in HandlerLoose(g, handlers) { HandlerIsClean(g, handlers, id); }
      else { BlockIsClean(g, body, id); }
      TryIsClean(g, s, id);
    case _ =>
  }

  lemma {:induction false} BlockIsClean(g: Guard, ss: seq<Stmt>, id: nat)
    requires AllPlain(ss) && AllHandled(ss) && id in BlockLoose(g, ss)
    ensures Clean(g, OfBlock(ss), id)
    decreases ss, 0
  {
    if id in Loose(g, ss[0]) {
      LooseIsClean(g, ss[0], id);
      BlockCompletes(g, ss[1..]);
    } else {
      PlainCompletes(g, ss[0]);
      BlockIsClean(g, ss[1..], id);
    }
    SeqClean(g, OfStmt(ss[0]), OfBlock(ss[1..]), id);
  }

  lemma {:induction false} HandlerIsClean(g: Guard, hs: seq<Handler>, id: nat)
    requires HandlersPlain(hs) && HandlersHandled(hs) && id in HandlerLoose(g, hs)
    ensures Clean(g, OfHandlers(hs), id)
    decreases hs, 0
  {
    if id in BlockLoose(g, hs[0].body) { BlockIsClean(g, hs[0].body, id); } else { HandlerIsClean(g, hs[1..], id); }
    ChooseClean(g, OfBlock(hs[0].body), OfHandlers(hs[1..]), id);
  }

  lemma AssertIsClean(g: Guard, id: nat, test: Expr)
    ensures Clean(g, OfStmt(Assert(id, test)), id)
  {
    MayRaiseIsFree(g);
    ExprCompletes(g, test);
    EventClean(g, Asserted(id), MAY_RAISE, id);
    SeqClean(g, OfExpr(test), Seq(Emit(Asserted(id)), MAY_RAISE), id);
  }

  lemma IfIsClean(g: Guard, s: Stmt, id: nat)
    requires s.If? && Plain(s)
    requires (!Guards(g, s) && Clean(g, OfBlock(s.body), id)) || Clean(g, OfBlock(s.orelse), id)
    ensures Clean(g, OfStmt(s), id)
  {
    var taken := if s.orelse == [] then Seq(Emit(Entered(BareIf)), OfBlock(s.body)) else OfBlock(s.body);
    if !Guards(g, s) && Clean(g, OfBlock(s.body), id) && s.orelse == [] {
      BlockCompletes(g, s.body);
      EventClean(g, Entered(BareIf), OfBlock(s.body), id);
    }
    ChooseClean(g, taken, OfBlock(s.orelse), id);
    ExprCompletes(g, s.test);
    SeqClean(g, OfExpr(s.test), Choose(taken, OfBlock(s.orelse)), id);
  }

  lemma ForIsClean(g: Guard, s: Stmt, id: nat)
    requires s.For? && Plain(s)
    requires (!Guards(g, s) && Clean(g, OfBlock(s.body), id)) || Clean(g, OfBlock(s.orelse), id)
    ensures Clean(g, OfStmt(s), id)
  {
    var inner := if s.fixed then OfBlock(s.body) else Seq(Emit(Entered(DynamicLoop)), OfBlock(s.body));
    var passes := if s.fixed then Seq(Pass(inner), Repeat(Pass(inner))) else Repeat(Pass(inner));
    BlockCompletes(g, s.body);
    BlockCompletes(g, s.orelse);
    PassesComplete(g, inner, s.fixed, passes);
    if !Guards(g, s) && Clean(g, OfBlock(s.body), id) {
      if !s.fixed { EventClean(g, Entered(DynamicLoop), OfBlock(s.body), id); }
      PassClean(g, inner, id);
      RepeatClean(g, Pass(inner), id);
      RepeatCompletes(g, Pass(inner));
      if s.fixed { SeqClean(g, Pass(inner), Repeat(Pass(inner)), id); }
    }
    BranchClean(g, passes, OfBlock(s.orelse), Broke, Leave(Fell), id);
    ExprCompletes(g, s.iter);
    SeqClean(g, OfExpr(s.iter), Loop(passes, OfBlock(s.orelse)), id);
  }

  lemma PassesComplete(g: Guard, inner: Prog, fixed: bool, passes: Prog)
    requires fixed ==> Completes(g, inner)
    requires passes == if fixed then Seq(Pass(inner), Repeat(Pass(inner))) else Repeat(Pass(inner))
    ensures Completes(g, passes)
  {
    RepeatCompletes(g, Pass(inner));
    if fixed {
      BranchCompletes(g, inner, Leave(Fell), Continued, Leave(Fell));
      SeqCompletes(g, Pass(inner), Repeat(Pass(inner)));
    }
  }

  lemma WhileIsClean(g: Guard, s: Stmt, id: nat)
    requires s.While? && Plain(s) && (Clean(g, OfBlock(s.body), id) || Clean(g, OfBlock(s.orelse), id))
    ensures Clean(g, OfStmt(s), id)
  {
    var inner, otherwise := Seq(OfExpr(s.test), OfBlock(s.body)), Seq(OfExpr(s.test), OfBlock(s.orelse));
    ExprCompletes(g, s.test);
    BlockCompletes(g, s.orelse);
    SeqCompletes(g, OfExpr(s.test), OfBlock(s.orelse));
    RepeatCompletes(g, Pass(inner));
    if Clean(g, OfBlock(s.body), id) {
      SeqClean(g, OfExpr(s.test), OfBlock(s.body), id);
      PassClean(g, inner, id);
      RepeatClean(g, Pass(inner), id);
    } else {
      SeqClean(g, OfExpr(s.test), OfBlock(s.orelse), id);
    }
    BranchClean(g, Repeat(Pass(inner)), otherwise, Broke, Leave(Fell), id);
  }

  lemma TryIsClean(g: Guard, s: Stmt, id: nat)
    requires s.Try? && Plain(s) && Handled(s)
    requires Clean(g, OfBlock(s.body), id) || Clean(g, OfBlock(s.orelse), id) || Clean(g, OfBlock(s.finalbody), id)
      || (s.handlers != [] && Clean(g, OfHandlers(s.handlers), id))
    ensures Clean(g, OfStmt(s), id)
  {
    var guarded := Branch(OfBlock(s.body), OfBlock(s.orelse), Raised, OfHandlers(s.handlers));
    BlockCompletes(g, s.body);
    BlockCompletes(g, s.orelse);
    BlockCompletes(g, s.finalbody);
    BranchCompletes(g, OfBlock(s.body), OfBlock(s.orelse), Raised, OfHandlers(s.handlers));
    if s.handlers != [] { ThrowsFreely(g, s.body); }
    if !Clean(g, OfBlock(s.finalbody), id) {
      BranchClean(g, OfBlock(s.body), OfBlock(s.orelse), Raised, OfHandlers(s.handlers), id);
    }
    SeqClean(g, guarded, OfBlock(s.finalbody), id);
  }

  lemma {:induction false} WithIsClean(g: Guard, items: seq<WithItem>, body: Prog, id: nat)
    requires Clean(g, body, id)
    ensures Clean(g, OfWith(items, body), id)
    decreases items
  {
    if items != [] {
      var inner := OfWith(items[1..], body);
      WithIsClean(g, items[1..], body, id);
      SessionClean(g, inner, id);
      ExprCompletes(g, items[0].context);
      var block := if items[0].opens then Session(inner) else inner;
      BranchClean(g, block, Leave(Fell), Raised, Choose(Leave(Fell), Leave(Raised)), id);
      SeqClean(g, OfExpr(items[0].context), Swallow(block), id);
    }
  }

  /** Some run enters no guard and executes the assertion, however it ends. */
  ghost predicate AssertsAside(g: Guard, body: seq<Stmt>, id: nat) {
    exists o :: NoEntry(g, Exec(OfBlock(body), o).trace) && Asserted(id) in Exec(OfBlock(body), o).trace
  }

  /** Some run enters no guard, executes the assertion and completes. */
  ghost predicate PassesAside(g: Guard, body: seq<Stmt>, id: nat) { Clean(g, OfBlock(body), id) }

  /** With all assertions guarded, no run that enters no guard executes one. */
  lemma GuardedNeverAside(g: Guard, body: seq<Stmt>, id: nat)
    requires Distinct(BlockAsserts(body)) && AllGuarded(g, body)
    ensures !AssertsAside(g, body, id)
  {
    GuardedNeverRuns(g, body, id);
    if o :| NoEntry(g, Exec(OfBlock(body), o).trace) && Asserted(id) in Exec(OfBlock(body), o).trace {
      var t := Exec(OfBlock(body), o).trace;
      var i :| 0 <= i < |t| && t[i] == Asserted(id);
      StaysOut(g, t[..i]);
      assert PerformedAt(Entry(g), OfBlock(body), false, o, i, Asserted(id), false);
    }
  }

  lemma {:induction false} StaysOut(g: Guard, t: seq<Event>)
    requires NoEntry(g, t)
    ensures !Bits(Entry(g), false, t)
  {
    if t != [] { StaysOut(g, t[1..]); }
  }

  lemma CleanIsAside(g: Guard, body: seq<Stmt>, id: nat, o: Oracle)
    requires CleanBy(g, OfBlock(body), id, o)
    ensures AssertsAside(g, body, id)
  {
  }

  lemma GuardedNeverClean(g: Guard, body: seq<Stmt>, id: nat)
    requires Distinct(BlockAsserts(body)) && AllGuarded(g, body)
    ensures !PassesAside(g, body, id)
  {
    GuardedNeverAside(g, body, id);
    if o :| CleanBy(g, OfBlock(body), id, o) { CleanIsAside(g, body, id, o); }
  }

  lemma UnguardedIsClean(g: Guard, body: seq<Stmt>) returns (id: nat)
    requires Distinct(BlockAsserts(body)) && AllPlain(body) && AllHandled(body) && !AllGuarded(g, body)
    ensures PassesAside(g, body, id) && AssertsAside(g, body, id)
  {
    BlockSplits(g, body);
    id :| id in BlockAsserts(body) && !exists k :: k in BlockGuarded(g, body) && id in BlockAsserts(k);
    BlockIsClean(g, body, id);
    var o :| CleanBy(g, OfBlock(body), id, o);
    CleanIsAside(g, body, id, o);
  }

  /** On a body without early exits the verdict is exact over whole runs: every assertion is guarded exactly
      when no run that enters no guard executes any; and if one is not, some such run executes one and
      completes. */
  lemma PlainRunsExactly(g: Guard, body: seq<Stmt>)
    requires Distinct(BlockAsserts(body)) && AllPlain(body) && AllHandled(body)
    ensures AllGuarded(g, body) <==> forall id :: !AssertsAside(g, body, id)
    ensures AllGuarded(g, body) <==> forall id :: !PassesAside(g, body, id)
  {
    if AllGuarded(g, body) {
      forall id ensures !AssertsAside(g, body, id) { GuardedNeverAside(g, body, id); }
      forall id ensures !PassesAside(g, body, id) { GuardedNeverClean(g, body, id); }
    } else {
      var id := UnguardedIsClean(g, body);
    }
  }
}
