/** `_conditional_only` and `_loop_only`: tests all of whose assertions sit in a body that a run may
    step over - that of an `if` without `else`, or that of a `for` over a possibly empty iterable. */
module Vacuity {
  import opened Options
  import opened Python
  import opened Runs
  import opened Typestate
  import opened Calls
  import opened Emitted

  // ----- the detectors -----

  /** The identities of the assertions in a statement, in order. */
  function Asserts(s: Stmt): seq<nat>
    decreases s, 0
  {
    match s
    case Assert(id, _) => [id]
    case If(_, body, orelse) => BlockAsserts(body) + BlockAsserts(orelse)
    case For(_, _, body, orelse) => BlockAsserts(body) + BlockAsserts(orelse)
    case While(_, body, orelse) => BlockAsserts(body) + BlockAsserts(orelse)
    case With(_, body) => BlockAsserts(body)
    case Try(body, handlers, orelse, finalbody) =>
      BlockAsserts(body) + HandlerAsserts(handlers) + BlockAsserts(orelse) + BlockAsserts(finalbody)
    case _ => []
  }

  function BlockAsserts(ss: seq<Stmt>): seq<nat>
    decreases ss, 0
  {
    if ss == [] then [] else Asserts(ss[0]) + BlockAsserts(ss[1..])
  }

  function HandlerAsserts(hs: seq<Handler>): seq<nat>
    decreases hs, 0
  {
    if hs == [] then [] else BlockAsserts(hs[0].body) + HandlerAsserts(hs[1..])
  }

  /** They are the assertions the statement's runs can perform. */
  lemma {:induction false} AssertsArePerformed(s: Stmt, id: nat)
    ensures id in Asserts(s) <==> Asserted(id) in Emits(OfStmt(s))
    decreases s, 0
  {
    var ev := Asserted(id);
    match s
    case If(_, body, orelse) => BlockAssertsArePerformed(body, id); BlockAssertsArePerformed(orelse, id); IfEmits(s, ev);
    case For(_, _, body, orelse) => BlockAssertsArePerformed(body, id); BlockAssertsArePerformed(orelse, id); ForEmits(s, ev);
    case While(_, body, orelse) => BlockAssertsArePerformed(body, id); BlockAssertsArePerformed(orelse, id); WhileEmits(s, ev);
    case With(items, body) => BlockAssertsArePerformed(body, id); WithEmits(items, OfBlock(body), ev);
    case Try(body, handlers, orelse, finalbody) =>
      BlockAssertsArePerformed(body, id);
      HandlerAssertsArePerformed(handlers, id);
      BlockAssertsArePerformed(orelse, id);
      BlockAssertsArePerformed(finalbody, id);
      TryEmits(s, ev);
    case _ => SimpleEmits(s, ev);
  }

  lemma {:induction false} BlockAssertsArePerformed(ss: seq<Stmt>, id: nat)
    ensures id in BlockAsserts(ss) <==> Asserted(id) in Emits(OfBlock(ss))
    decreases ss, 0
  {
    if ss != [] { AssertsArePerformed(ss[0], id); BlockAssertsArePerformed(ss[1..], id); }
  }

  lemma {:induction false} HandlerAssertsArePerformed(hs: seq<Handler>, id: nat)
    ensures id in HandlerAsserts(hs) <==> Asserted(id) in Emits(OfHandlers(hs))
    decreases hs, 0
  {
    if hs != [] { BlockAssertsArePerformed(hs[0].body, id); HandlerAssertsArePerformed(hs[1..], id); }
  }

  /** The body a guard protects, if the statement is one. */
  predicate Guards(g: Guard, s: Stmt) {
    match g
    case BareIf => s.If? && s.orelse == []
    case DynamicLoop => s.For? && !s.fixed
  }

  /** The bodies of all guards of the kind, at any depth. */
  function Guarded(g: Guard, s: Stmt): seq<seq<Stmt>>
    decreases s, 0
  {
    match s
    case If(_, body, orelse) =>
      (if Guards(g, s) then [body] else []) + BlockGuarded(g, body) + BlockGuarded(g, orelse)
    case For(_, _, body, orelse) =>
      (if Guards(g, s) then [body] else []) + BlockGuarded(g, body) + BlockGuarded(g, orelse)
    case While(_, body, orelse) => BlockGuarded(g, body) + BlockGuarded(g, orelse)
    case With(_, body) => BlockGuarded(g, body)
    case Try(body, handlers, orelse, finalbody) =>
      BlockGuarded(g, body) + HandlerGuarded(g, handlers) + BlockGuarded(g, orelse) + BlockGuarded(g, finalbody)
    case _ => []
  }

  function BlockGuarded(g: Guard, ss: seq<Stmt>): seq<seq<Stmt>>
    decreases ss, 0
  {
    if ss == [] then [] else Guarded(g, ss[0]) + BlockGuarded(g, ss[1..])
  }

  function HandlerGuarded(g: Guard, hs: seq<Handler>): seq<seq<Stmt>>
    decreases hs, 0
  {
    if hs == [] then [] else BlockGuarded(g, hs[0].body) + HandlerGuarded(g, hs[1..])
  }

  /** Every assertion of the body sits in a guarded body. */
  predicate AllGuarded(g: Guard, body: seq<Stmt>) {
    forall id :: id in BlockAsserts(body) ==> exists k :: k in BlockGuarded(g, body) && id in BlockAsserts(k)
  }

  /** Starts from all assertions and discards those found under an `if` without `else`. */
  method ConditionalOnly(body: seq<Stmt>) returns (found: bool)
    ensures found <==> BlockAsserts(body) != [] && AllGuarded(BareIf, body)
  {
    var asserts := BlockAsserts(body);
    if asserts == [] {
      return false;
    }
    var unguarded := set id | id in asserts;
    var guards := BlockGuarded(BareIf, body);
    for i := 0 to |guards|
      invariant forall id :: id in unguarded <==> id in asserts && forall j :: 0 <= j < i ==> id !in BlockAsserts(guards[j])
    {
      var inner := BlockAsserts(guards[i]);
      unguarded := set id | id in unguarded && id !in inner;
    }
    found := unguarded == {};
    if found {
      forall id | id in asserts ensures exists k :: k in guards && id in BlockAsserts(k) {
        assert id !in unguarded;
      }
    }
    if AllGuarded(BareIf, body) {
      forall id ensures id !in unguarded {
        if id in asserts {
          var k :| k in guards && id in BlockAsserts(k);
        }
      }
      assert unguarded == {};
    }
  }

  /** Collects the assertions found under a `for` over a dynamic iterable. */
  method LoopOnly(body: seq<Stmt>) returns (found: bool)
    ensures found <==> BlockAsserts(body) != [] && AllGuarded(DynamicLoop, body)
  {
    var asserts := BlockAsserts(body);
    if asserts == [] {
      return false;
    }
    var covered: set<nat>, anyLoop := {}, false;
    var loops := BlockGuarded(DynamicLoop, body);
    for i := 0 to |loops|
      invariant forall id :: id in covered && id in asserts <==> id in asserts && exists j :: 0 <= j < i && id in BlockAsserts(loops[j])
      invariant anyLoop <==> exists id :: id in asserts && id in covered
    {
      var inner := BlockAsserts(loops[i]);
      if exists id :: id in asserts && id in inner {
        anyLoop := true;
        covered := covered + set id | id in inner;
      }
    }
    assert forall k :: k in loops <==> exists j :: 0 <= j < |loops| && loops[j] == k;
    found := anyLoop && forall id | id in asserts :: id in covered;
    assert asserts[0] in asserts;
  }

  // ----- runs that step over every guard -----

  function Entry(g: Guard): Machine {
    (entered, ev) => entered || ev == Entered(g)
  }

  /** Some run executes the assertion without having entered a guarded body. */
  ghost predicate RunsUnguarded(g: Guard, body: seq<Stmt>, id: nat) {
    Performable(Entry(g), OfBlock(body), false, Asserted(id), false)
  }

  /** The events of a program that are not written under a guard. */
  function Free(g: Guard, p: Prog): set<Event> {
    match p
    case Emit(ev) => {ev}
    case Leave(_) => {}
    case Seq(a, b) => if a == Emit(Entered(g)) then {Entered(g)} else Free(g, a) + Free(g, b)
    case Choose(a, b) => Free(g, a) + Free(g, b)
    case Repeat(a) => Free(g, a)
    case Branch(a, b, _, c) => Free(g, a) + Free(g, b) + Free(g, c)
    case Finally(a, b) => Free(g, a) + Free(g, b)
    case Session(a) => {Opened, Closed} + Free(g, a)
  }

  lemma {:induction false} EnteredStays(g: Guard, p: Prog)
    ensures forall x, b :: CanEnd(Entry(g), p, true, x, b) ==> b
    ensures forall ev, b :: CanHit(Entry(g), p, true, ev, b) ==> b
  {
    match p
    case Emit(_) =>
    case Leave(_) =>
    case Seq(p1, p2) => EnteredStays(g, p1); EnteredStays(g, p2);
    case Choose(p1, p2) => EnteredStays(g, p1); EnteredStays(g, p2);
    case Repeat(p1) =>
      EnteredStays(g, p1);
      assert !CanEnd(Entry(g), p1, true, Fell, false) && !Again(Entry(g), p1, true, false);
    case Branch(p1, p2, _, p3) => EnteredStays(g, p1); EnteredStays(g, p2); EnteredStays(g, p3);
    case Finally(p1, p2) => EnteredStays(g, p1); EnteredStays(g, p2);
    case Session(p1) => EnteredStays(g, p1);
  }

  /** Without entering a guard, only free events happen. */
  lemma {:induction false} UnguardedIsFree(g: Guard, p: Prog, ev: Event)
    requires CanHit(Entry(g), p, false, ev, false)
    ensures ev in Free(g, p)
  {
    var m := Entry(g);
    match p
    case Emit(_) =>
    case Seq(p1, p2) =>
      if CanHit(m, p1, false, ev, false) { UnguardedIsFree(g, p1, ev); }
      else {
        var b1 :| CanEnd(m, p1, false, Fell, b1) && CanHit(m, p2, b1, ev, false);
        EnteredStays(g, p2);
        UnguardedIsFree(g, p2, ev);
      }
    case Choose(p1, p2) => UnguardedIsFree(g, if CanHit(m, p1, false, ev, false) then p1 else p2, ev);
    case Repeat(p1) =>
      var b1 :| Again(m, p1, false, b1) && CanHit(m, p1, b1, ev, false);
      EnteredStays(g, p1);
      UnguardedIsFree(g, p1, ev);
    case Branch(p1, p2, how, p3) =>
      EnteredStays(g, p2);
      EnteredStays(g, p3);
      if CanHit(m, p1, false, ev, false) { UnguardedIsFree(g, p1, ev); }
      else if b1 :| CanEnd(m, p1, false, Fell, b1) && CanHit(m, p2, b1, ev, false) { UnguardedIsFree(g, p2, ev); }
      else {
        var b1 :| CanEnd(m, p1, false, how, b1) && CanHit(m, p3, b1, ev, false);
        UnguardedIsFree(g, p3, ev);
      }
    case Finally(p1, p2) =>
      EnteredStays(g, p2);
      if CanHit(m, p1, false, ev, false) { UnguardedIsFree(g, p1, ev); }
      else {
        var y, b1 :| CanEnd(m, p1, false, y, b1) && CanHit(m, p2, b1, ev, false);
        UnguardedIsFree(g, p2, ev);
      }
    case Session(p1) => if CanHit(m, p1, false, ev, false) { UnguardedIsFree(g, p1, ev); }
  }

  /** Whatever is written outside guards can be reached, and reached without entering one. */
  predicate ReachedFreely(g: Guard, p: Prog) {
    match p
    case Emit(_) => true
    case Leave(_) => true
    case Seq(a, b) =>
      a == Emit(Entered(g)) ||
      (ReachedFreely(g, a) && ReachedFreely(g, b) && (Free(g, b) != {} ==> CanEnd(Entry(g), a, false, Fell, false)))
    case Choose(a, b) => ReachedFreely(g, a) && ReachedFreely(g, b)
    case Repeat(a) => ReachedFreely(g, a)
    case Branch(a, b, how, c) =>
      && ReachedFreely(g, a) && ReachedFreely(g, b) && ReachedFreely(g, c)
      && (Free(g, b) != {} ==> CanEnd(Entry(g), a, false, Fell, false))
      && (Free(g, c) != {} ==> how != Fell && CanEnd(Entry(g), a, false, how, false))
    case Finally(a, b) =>
      ReachedFreely(g, a) && ReachedFreely(g, b) && (Free(g, b) != {} ==> exists x :: CanEnd(Entry(g), a, false, x, false))
    case Session(a) => ReachedFreely(g, a)
  }

  lemma {:induction false} FreeIsUnguarded(g: Guard, p: Prog, ev: Event)
    requires ReachedFreely(g, p) && ev in Free(g, p) && !ev.Entered? && ev != Opened && ev != Closed
    ensures CanHit(Entry(g), p, false, ev, false)
  {
    var m := Entry(g);
    match p
    case Emit(_) =>
    case Seq(p1, p2) =>
      if ev in Free(g, p1) { FreeIsUnguarded(g, p1, ev); }
      else { FreeIsUnguarded(g, p2, ev); SeqHits(m, p1, p2, false, false, ev, false); }
    case Choose(p1, p2) => FreeIsUnguarded(g, if ev in Free(g, p1) then p1 else p2, ev);
    case Repeat(p1) => FreeIsUnguarded(g, p1, ev); assert Again(m, p1, false, false);
    case Branch(p1, p2, how, p3) =>
      if ev in Free(g, p1) { FreeIsUnguarded(g, p1, ev); }
      else if ev in Free(g, p2) { FreeIsUnguarded(g, p2, ev); assert CanEnd(m, p1, false, Fell, false); }
      else { FreeIsUnguarded(g, p3, ev); assert CanEnd(m, p1, false, how, false); }
    case Finally(p1, p2) =>
      if ev in Free(g, p1) { FreeIsUnguarded(g, p1, ev); }
      else { FreeIsUnguarded(g, p2, ev); var x :| CanEnd(m, p1, false, x, false); }
    case Session(p1) => FreeIsUnguarded(g, p1, ev);
  }

  // ----- what is written outside guards -----

  /** The assertions of a statement that no guard protects. */
  function Loose(g: Guard, s: Stmt): set<nat>
    decreases s, 0
  {
    match s
    case Assert(id, _) => {id}
    case If(_, body, orelse) => (if Guards(g, s) then {} else BlockLoose(g, body)) + BlockLoose(g, orelse)
    case For(_, _, body, orelse) => (if Guards(g, s) then {} else BlockLoose(g, body)) + BlockLoose(g, orelse)
    case While(_, body, orelse) => BlockLoose(g, body) + BlockLoose(g, orelse)
    case With(_, body) => BlockLoose(g, body)
    case Try(body, handlers, orelse, finalbody) =>
      BlockLoose(g, body) + HandlerLoose(g, handlers) + BlockLoose(g, orelse) + BlockLoose(g, finalbody)
    case _ => {}
  }

  function BlockLoose(g: Guard, ss: seq<Stmt>): set<nat>
    decreases ss, 0
  {
    if ss == [] then {} else Loose(g, ss[0]) + BlockLoose(g, ss[1..])
  }

  function HandlerLoose(g: Guard, hs: seq<Handler>): set<nat>
    decreases hs, 0
  {
    if hs == [] then {} else BlockLoose(g, hs[0].body) + HandlerLoose(g, hs[1..])
  }

  /** The free assertions of `p` are exactly these. */
  ghost predicate Frees(g: Guard, p: Prog, ids: set<nat>) {
    forall id :: Asserted(id) in Free(g, p) <==> id in ids
  }

  lemma FreePair(g: Guard, p: Prog, q: Prog, x: set<nat>, y: set<nat>)
    requires Frees(g, p, x) && Frees(g, q, y)
    ensures p != Emit(Entered(g)) ==> Frees(g, Seq(p, q), x + y)
    ensures Frees(g, Choose(p, q), x + y) && Frees(g, Finally(p, q), x + y)
    ensures Frees(g, Repeat(p), x) && Frees(g, Session(p), x)
  {
  }

  lemma FreeBranch(g: Guard, p: Prog, q: Prog, how: Exit, r: Prog, x: set<nat>, y: set<nat>, z: set<nat>)
    requires Frees(g, p, x) && Frees(g, q, y) && Frees(g, r, z)
    ensures Frees(g, Branch(p, q, how, r), x + y + z)
  {
  }

  lemma FreeLeaves(g: Guard)
    ensures forall how :: Frees(g, Leave(how), {})
    ensures Frees(g, RAISE_NOW, {}) && Frees(g, MAY_RAISE, {})
  {
    assert Free(g, RAISE_NOW) == {Raising} && Free(g, MAY_RAISE) == {Raising};
  }

  lemma FreeLoop(g: Guard, pass: Prog, otherwise: Prog, x: set<nat>, y: set<nat>)
    requires Frees(g, pass, x) && Frees(g, otherwise, y)
    ensures Frees(g, Pass(pass), x) && Frees(g, Loop(pass, otherwise), x + y)
  {
    FreeLeaves(g);
    FreeBranch(g, pass, Leave(Fell), Continued, Leave(Fell), x, {}, {});
    FreeBranch(g, pass, otherwise, Broke, Leave(Fell), x, y, {});
    assert x + {} + {} == x && x + y + {} == x + y;
  }

  lemma {:induction false} FreeExpr(g: Guard, e: Expr)
    ensures Frees(g, OfExpr(e), {}) && forall ev :: OfExpr(e) != Emit(ev)
    decreases e, 0
  {
    FreeLeaves(g);
    match e
    case Op(kids) => FreeExprs(g, kids);
    case Invoke(call, kids) =>
      FreeExprs(g, kids);
      assert Free(g, Seq(Emit(Called(call)), MAY_RAISE)) == {Called(call)} + Free(g, MAY_RAISE);
      FreePair(g, OfExprs(kids), Seq(Emit(Called(call)), MAY_RAISE), {}, {});
    case IfExp(test, body, orelse) =>
      FreeExpr(g, test);
      FreeExpr(g, body);
      FreeExpr(g, orelse);
      FreePair(g, OfExpr(body), OfExpr(orelse), {}, {});
      FreePair(g, OfExpr(test), Choose(OfExpr(body), OfExpr(orelse)), {}, {});
  }

  lemma {:induction false} FreeExprs(g: Guard, es: seq<Expr>)
    ensures Frees(g, OfExprs(es), {}) && forall ev :: OfExprs(es) != Emit(ev)
    decreases es, 0
  {
    FreeLeaves(g);
    if es != [] {
      FreeExpr(g, es[0]);
      FreeExprs(g, es[1..]);
      FreePair(g, OfExpr(es[0]), OfExprs(es[1..]), {}, {});
    }
  }

  /** What is free in the program is what is loose in the text. */
  lemma {:induction false} FreeStmt(g: Guard, s: Stmt)
    ensures Frees(g, OfStmt(s), Loose(g, s)) && forall ev :: OfStmt(s) != Emit(ev)
    decreases s, 0
  {
    match s
    case If(_, body, orelse) => FreeBlock(g, body); FreeBlock(g, orelse); FreeIf(g, s);
    case For(_, _, body, orelse) => FreeBlock(g, body); FreeBlock(g, orelse); FreeFor(g, s);
    case While(_, body, orelse) => FreeBlock(g, body); FreeBlock(g, orelse); FreeWhile(g, s);
    case With(items, body) => FreeBlock(g, body); FreeWith(g, items, OfBlock(body), BlockLoose(g, body));
    case Try(body, handlers, orelse, finalbody) =>
      FreeBlock(g, body);
      FreeHandlers(g, handlers);
      FreeBlock(g, orelse);
      FreeBlock(g, finalbody);
      FreeTry(g, s);
    case _ => FreeSimple(g, s);
  }

  lemma {:induction false} FreeBlock(g: Guard, ss: seq<Stmt>)
    ensures Frees(g, OfBlock(ss), BlockLoose(g, ss)) && forall ev :: OfBlock(ss) != Emit(ev)
    decreases ss, 0
  {
    FreeLeaves(g);
    if ss != [] {
      FreeStmt(g, ss[0]);
      FreeBlock(g, ss[1..]);
      FreePair(g, OfStmt(ss[0]), OfBlock(ss[1..]), Loose(g, ss[0]), BlockLoose(g, ss[1..]));
    }
  }

  lemma {:induction false} FreeHandlers(g: Guard, hs: seq<Handler>)
    ensures Frees(g, OfHandlers(hs), HandlerLoose(g, hs))
    decreases hs, 0
  {
    FreeLeaves(g);
    if hs != [] {
      FreeBlock(g, hs[0].body);
      FreeHandlers(g, hs[1..]);
      FreePair(g, OfBlock(hs[0].body), OfHandlers(hs[1..]), BlockLoose(g, hs[0].body), HandlerLoose(g, hs[1..]));
    }
  }

  lemma FreeSimple(g: Guard, s: Stmt)
    requires !Compound(s)
    ensures Frees(g, OfStmt(s), Loose(g, s)) && forall ev :: OfStmt(s) != Emit(ev)
  {
    FreeLeaves(g);
    if s.Return? && s.value.None? {
      assert Free(g, OfStmt(s)) == {BareReturn(s.line)} + Free(g, Leave(Returned));
    } else if Operands(s) != [] {
      var rest := OfStmt(s).second;
      FreeExpr(g, Operands(s)[0]);
      if s.Assert? {
        assert Free(g, rest) == {Asserted(s.id)} + Free(g, MAY_RAISE);
        assert Frees(g, rest, {s.id});
      }
      FreePair(g, OfExpr(Operands(s)[0]), rest, {}, Loose(g, s));
      assert {} + Loose(g, s) == Loose(g, s);
    }
  }

  lemma FreeIf(g: Guard, s: Stmt)
    requires s.If? && Frees(g, OfBlock(s.body), BlockLoose(g, s.body)) && Frees(g, OfBlock(s.orelse), BlockLoose(g, s.orelse))
    ensures Frees(g, OfStmt(s), Loose(g, s))
  {
    var taken := if s.orelse == [] then Seq(Emit(Entered(BareIf)), OfBlock(s.body)) else OfBlock(s.body);
    var x, y := if Guards(g, s) then {} else BlockLoose(g, s.body), BlockLoose(g, s.orelse);
    assert Frees(g, taken, x);
    FreeExpr(g, s.test);
    FreePair(g, taken, OfBlock(s.orelse), x, y);
    FreePair(g, OfExpr(s.test), Choose(taken, OfBlock(s.orelse)), {}, x + y);
    assert {} + (x + y) == Loose(g, s);
  }

  lemma FreeFor(g: Guard, s: Stmt)
    requires s.For? && Frees(g, OfBlock(s.body), BlockLoose(g, s.body)) && Frees(g, OfBlock(s.orelse), BlockLoose(g, s.orelse))
    ensures Frees(g, OfStmt(s), Loose(g, s))
  {
    var inner := if s.fixed then OfBlock(s.body) else Seq(Emit(Entered(DynamicLoop)), OfBlock(s.body));
    var pass := Pass(inner);
    var passes := if s.fixed then Seq(pass, Repeat(pass)) else Repeat(pass);
    var x, y := if Guards(g, s) then {} else BlockLoose(g, s.body), BlockLoose(g, s.orelse);
    assert Frees(g, inner, x);
    FreeExpr(g, s.iter);
    FreeLoop(g, inner, OfBlock(s.orelse), x, y);
    FreePair(g, pass, Repeat(pass), x, x);
    FreePair(g, pass, OfBlock(s.orelse), x, y);
    FreePair(g, pass, Repeat(pass), x, x);
    assert x + x == x;
    assert Frees(g, passes, x);
    FreeLoop(g, passes, OfBlock(s.orelse), x, y);
    FreePair(g, OfExpr(s.iter), Loop(passes, OfBlock(s.orelse)), {}, x + y);
    assert {} + (x + y) == Loose(g, s);
  }

  lemma FreeWhile(g: Guard, s: Stmt)
    requires s.While? && Frees(g, OfBlock(s.body), BlockLoose(g, s.body)) && Frees(g, OfBlock(s.orelse), BlockLoose(g, s.orelse))
    ensures Frees(g, OfStmt(s), Loose(g, s))
  {
    var x, y := BlockLoose(g, s.body), BlockLoose(g, s.orelse);
    var inner, otherwise := Seq(OfExpr(s.test), OfBlock(s.body)), Seq(OfExpr(s.test), OfBlock(s.orelse));
    FreeExpr(g, s.test);
    FreePair(g, OfExpr(s.test), OfBlock(s.body), {}, x);
    FreePair(g, OfExpr(s.test), OfBlock(s.orelse), {}, y);
    assert {} + x == x && {} + y == y;
    FreeLoop(g, inner, otherwise, x, y);
    FreePair(g, Pass(inner), otherwise, x, y);
    FreeLoop(g, Repeat(Pass(inner)), otherwise, x, y);
  }

  lemma FreeTry(g: Guard, s: Stmt)
    requires s.Try? && Frees(g, OfBlock(s.body), BlockLoose(g, s.body)) && Frees(g, OfHandlers(s.handlers), HandlerLoose(g, s.handlers))
    requires Frees(g, OfBlock(s.orelse), BlockLoose(g, s.orelse)) && Frees(g, OfBlock(s.finalbody), BlockLoose(g, s.finalbody))
    ensures Frees(g, OfStmt(s), Loose(g, s))
  {
    var b, h := BlockLoose(g, s.body), HandlerLoose(g, s.handlers);
    var e, f := BlockLoose(g, s.orelse), BlockLoose(g, s.finalbody);
    var guarded := Branch(OfBlock(s.body), OfBlock(s.orelse), Raised, OfHandlers(s.handlers));
    FreeBranch(g, OfBlock(s.body), OfBlock(s.orelse), Raised, OfHandlers(s.handlers), b, e, h);
    FreePair(g, guarded, OfBlock(s.finalbody), b + e + h, f);
    assert (b + e + h) + f == Loose(g, s);
  }

  lemma {:induction false} FreeWith(g: Guard, items: seq<WithItem>, body: Prog, x: set<nat>)
    requires Frees(g, body, x) && forall ev :: body != Emit(ev)
    ensures Frees(g, OfWith(items, body), x) && forall ev :: OfWith(items, body) != Emit(ev)
    decreases items
  {
    if items != [] {
      var inner := OfWith(items[1..], body);
      var block := if items[0].opens then Session(inner) else inner;
      FreeWith(g, items[1..], body, x);
      FreeLeaves(g);
      FreeExpr(g, items[0].context);
      FreePair(g, inner, Leave(Fell), x, {});
      FreePair(g, Leave(Fell), Leave(Raised), {}, {});
      FreeBranch(g, block, Leave(Fell), Raised, Choose(Leave(Fell), Leave(Raised)), x, {}, {} + {});
      FreePair(g, OfExpr(items[0].context), Swallow(block), {}, x + {} + ({} + {}));
      assert {} + (x + {} + ({} + {})) == x;
    }
  }

  // ----- discarding identities is discarding occurrences -----

  predicate Distinct(ids: seq<nat>) {
    forall i, j | 0 <= i < j < |ids| :: ids[i] != ids[j]
  }

  /** The loose ones among `ids` are those in no guarded body; and guarded bodies hold no others. */
  ghost predicate Splits(loose: set<nat>, ids: seq<nat>, guarded: seq<seq<Stmt>>) {
    && (forall id :: id in loose <==> id in ids && forall k :: k in guarded ==> id !in BlockAsserts(k))
    && (forall k, id :: k in guarded && id in BlockAsserts(k) ==> id in ids)
  }

  lemma SplitsJoin(x: set<nat>, a: seq<nat>, j: seq<seq<Stmt>>, y: set<nat>, b: seq<nat>, k: seq<seq<Stmt>>)
    requires Distinct(a + b)
    requires Distinct(a) ==> Splits(x, a, j)
    requires Distinct(b) ==> Splits(y, b, k)
    ensures Splits(x + y, a + b, j + k)
  {
    DistinctParts(a, b);
    assert forall l :: l in j + k <==> l in j || l in k;
    assert forall id :: id in a + b <==> id in a || id in b;
    forall id ensures id in x + y <==> id in a + b && forall l :: l in j + k ==> id !in BlockAsserts(l) {
      if id in x {
        assert id in a && forall l :: l in k ==> id !in BlockAsserts(l);
      } else if id in y {
        assert id in b && forall l :: l in j ==> id !in BlockAsserts(l);
      }
    }
  }

  lemma DistinctParts(a: seq<nat>, b: seq<nat>)
    requires Distinct(a + b)
    ensures Distinct(a) && Distinct(b) && forall id :: id in a ==> id !in b
  {
    forall i, j | 0 <= i < j < |a| ensures a[i] != a[j] {
      assert (a + b)[i] == a[i] && (a + b)[j] == a[j];
    }
    forall i, j | 0 <= i < j < |b| ensures b[i] != b[j] {
      assert (a + b)[|a| + i] == b[i] && (a + b)[|a| + j] == b[j];
    }
    forall i, j | 0 <= i < |a| && 0 <= j < |b| ensures a[i] != b[j] {
      assert (a + b)[i] == a[i] && (a + b)[|a| + j] == b[j];
    }
  }

  lemma {:induction false} StmtSplits(g: Guard, s: Stmt)
    requires Distinct(Asserts(s))
    ensures Splits(Loose(g, s), Asserts(s), Guarded(g, s))
    decreases s, 0
  {
    match s
    case If(_, body, orelse) => TwoBlocksSplit(g, s, body, orelse);
    case For(_, _, body, orelse) => TwoBlocksSplit(g, s, body, orelse);
    case While(_, body, orelse) => TwoBlocksSplit(g, s, body, orelse);
    case With(_, body) => BlockSplits(g, body);
    case Try(body, handlers, orelse, finalbody) =>
      var b, h, e, f := BlockAsserts(body), HandlerAsserts(handlers), BlockAsserts(orelse), BlockAsserts(finalbody);
      DistinctParts(b + h + e, f);
      DistinctParts(b + h, e);
      DistinctParts(b, h);
      BlockSplits(g, body);
      HandlersSplit(g, handlers);
      BlockSplits(g, orelse);
      BlockSplits(g, finalbody);
      var x, y, z := BlockLoose(g, body), HandlerLoose(g, handlers), BlockLoose(g, orelse);
      var j, k, l := BlockGuarded(g, body), HandlerGuarded(g, handlers), BlockGuarded(g, orelse);
      SplitsJoin(x, b, j, y, h, k);
      SplitsJoin(x + y, b + h, j + k, z, e, l);
      SplitsJoin(x + y + z, b + h + e, j + k + l, BlockLoose(g, finalbody), f, BlockGuarded(g, finalbody));
    case _ =>
  }

  lemma {:induction false} TwoBlocksSplit(g: Guard, s: Stmt, body: seq<Stmt>, orelse: seq<Stmt>)
    requires match s case If(_, b, e) => b == body && e == orelse
                     case For(_, _, b, e) => b == body && e == orelse
                     case While(_, b, e) => b == body && e == orelse
                     case _ => false
    requires Distinct(Asserts(s))
    ensures Splits(Loose(g, s), Asserts(s), Guarded(g, s))
    decreases s, -1
  {
    var a, b := BlockAsserts(body), BlockAsserts(orelse);
    var x, y, j, k := BlockLoose(g, body), BlockLoose(g, orelse), BlockGuarded(g, body), BlockGuarded(g, orelse);
    DistinctParts(a, b);
    BlockSplits(g, body);
    BlockSplits(g, orelse);
    if Guards(g, s) {
      assert Splits({}, a, [body] + j) by {
        assert body in [body] + j;
        assert forall l :: l in [body] + j <==> l == body || l in j;
      }
      SplitsJoin({}, a, [body] + j, y, b, k);
    } else {
      SplitsJoin(x, a, j, y, b, k);
      assert [] + j + k == j + k;
    }
  }

  lemma {:induction false} BlockSplits(g: Guard, ss: seq<Stmt>)
    requires Distinct(BlockAsserts(ss))
    ensures Splits(BlockLoose(g, ss), BlockAsserts(ss), BlockGuarded(g, ss))
    decreases ss, 0
  {
    if ss != [] {
      DistinctParts(Asserts(ss[0]), BlockAsserts(ss[1..]));
      StmtSplits(g, ss[0]);
      BlockSplits(g, ss[1..]);
      SplitsJoin(Loose(g, ss[0]), Asserts(ss[0]), Guarded(g, ss[0]),
                 BlockLoose(g, ss[1..]), BlockAsserts(ss[1..]), BlockGuarded(g, ss[1..]));
    }
  }

  lemma {:induction false} HandlersSplit(g: Guard, hs: seq<Handler>)
    requires Distinct(HandlerAsserts(hs))
    ensures Splits(HandlerLoose(g, hs), HandlerAsserts(hs), HandlerGuarded(g, hs))
    decreases hs, 0
  {
    if hs != [] {
      DistinctParts(BlockAsserts(hs[0].body), HandlerAsserts(hs[1..]));
      BlockSplits(g, hs[0].body);
      HandlersSplit(g, hs[1..]);
      SplitsJoin(BlockLoose(g, hs[0].body), BlockAsserts(hs[0].body), BlockGuarded(g, hs[0].body),
                 HandlerLoose(g, hs[1..]), HandlerAsserts(hs[1..]), HandlerGuarded(g, hs[1..]));
    }
  }

  // ----- what the detectors are worth -----

  /** When every assertion is guarded, no run that steps over the guards executes one. */
  lemma GuardedNeverRuns(g: Guard, body: seq<Stmt>, id: nat)
    requires Distinct(BlockAsserts(body)) && AllGuarded(g, body)
    ensures !RunsUnguarded(g, body, id)
  {
    HitsExactly(Entry(g), OfBlock(body), false, Asserted(id), false);
    BlockSplits(g, body);
    FreeBlock(g, body);
    assert id !in BlockLoose(g, body);
    if RunsUnguarded(g, body, id) {
      UnguardedIsFree(g, OfBlock(body), Asserted(id));
    }
  }

  lemma LooseRuns(g: Guard, body: seq<Stmt>, id: nat)
    requires ReachedFreely(g, OfBlock(body)) && id in BlockLoose(g, body)
    ensures RunsUnguarded(g, body, id)
  {
    FreeBlock(g, body);
    FreeIsUnguarded(g, OfBlock(body), Asserted(id));
    HitsExactly(Entry(g), OfBlock(body), false, Asserted(id), false);
  }

  /** Where everything outside guards can be reached, the verdict is exact: every assertion is guarded
      iff no run that steps over the guards executes any. */
  lemma AllGuardedExactly(g: Guard, body: seq<Stmt>)
    requires Distinct(BlockAsserts(body)) && ReachedFreely(g, OfBlock(body))
    ensures AllGuarded(g, body) <==> forall id :: !RunsUnguarded(g, body, id)
  {
    BlockSplits(g, body);
    if AllGuarded(g, body) {
      forall id ensures !RunsUnguarded(g, body, id) { GuardedNeverRuns(g, body, id); }
    } else {
      var id :| id in BlockAsserts(body) && !exists k :: k in BlockGuarded(g, body) && id in BlockAsserts(k);
      LooseRuns(g, body, id);
    }
  }

  /** If the body can complete without entering a guard, then a test all of whose assertions are
      guarded has a completing run - every such `if` false, every such iterable empty - that asserts
      nothing. */
  lemma VacuousPass(g: Guard, body: seq<Stmt>) returns (o: Oracle)
    requires Distinct(BlockAsserts(body)) && AllGuarded(g, body)
    requires CanEnd(Entry(g), OfBlock(body), false, Fell, false)
    ensures var r := Exec(OfBlock(body), o);
            r.exit == Fell && forall i | 0 <= i < |r.trace| :: !r.trace[i].Asserted? && r.trace[i] != Entered(g)
  {
    var p := OfBlock(body);
    o := EndWitness(Entry(g), p, false, Fell, false);
    var t := Exec(p, o).trace;
    forall i | 0 <= i < |t| ensures !t[i].Asserted? && t[i] != Entered(g) {
      NeverEntered(g, t, i);
      if t[i].Asserted? {
        GuardedNeverRuns(g, body, t[i].id);
        assert PerformedAt(Entry(g), p, false, o, i, t[i], false);
      }
    }
  }

  lemma NeverEntered(g: Guard, t: seq<Event>, i: nat)
    requires i < |t| && !Bits(Entry(g), false, t)
    ensures !Bits(Entry(g), false, t[..i]) && t[i] != Entered(g)
  {
    assert t == t[..i] + t[i..] && t[i..] == [t[i]] + t[i+1..];
    BitsAppend(Entry(g), false, t[..i], t[i..]);
    BitsAppend(Entry(g), Bits(Entry(g), false, t[..i]), [t[i]], t[i+1..]);
    assert [t[i]][1..] == [];
    OnceEntered(g, t[i..]);
    OnceEntered(g, t[i+1..]);
  }

  lemma {:induction false} OnceEntered(g: Guard, t: seq<Event>)
    ensures Bits(Entry(g), true, t)
  {
    if t != [] { OnceEntered(g, t[1..]); }
  }
}
