/** What a statement's program can perform is what is written in the statement: its calls, and those
    of them written inside a session block. */
module Written {
  import opened Options
  import opened Python
  import opened Runs
  import opened Calls
  import opened Depths

  /** Of the calls of a statement that runs at the given depth, those made with a session open. */
  function StmtOpen(s: Stmt, depth: nat): set<Call>
    decreases s, 0
  {
    match s
    case If(test, body, orelse) => ExprOpen(test, depth) + BlockOpen(body, depth) + BlockOpen(orelse, depth)
    case For(iter, _, body, orelse) => ExprOpen(iter, depth) + BlockOpen(body, depth) + BlockOpen(orelse, depth)
    case While(test, body, orelse) => ExprOpen(test, depth) + BlockOpen(body, depth) + BlockOpen(orelse, depth)
    case With(items, body) => ItemsOpen(items, depth) + BlockOpen(body, depth + Opens(items))
    case Try(body, handlers, orelse, finalbody) =>
      BlockOpen(body, depth) + HandlersOpen(handlers, depth) + BlockOpen(orelse, depth) + BlockOpen(finalbody, depth)
    case _ => if depth > 0 then StmtCalls(s) else {}
  }

  function ExprOpen(e: Expr, depth: nat): set<Call> {
    if depth > 0 then ExprCalls(e) else {}
  }

  function BlockOpen(ss: seq<Stmt>, depth: nat): set<Call>
    decreases ss, 0
  {
    if ss == [] then {} else StmtOpen(ss[0], depth) + BlockOpen(ss[1..], depth)
  }

  function HandlersOpen(hs: seq<Handler>, depth: nat): set<Call>
    decreases hs, 0
  {
    if hs == [] then {} else BlockOpen(hs[0].body, depth) + HandlersOpen(hs[1..], depth)
  }

  /** The context expression of an item runs inside the sessions of the items before it. */
  function ItemsOpen(items: seq<WithItem>, depth: nat): set<Call> {
    if items == [] then {}
    else ExprOpen(items[0].context, depth) + ItemsOpen(items[1..], depth + (if items[0].opens then 1 else 0))
  }

  /** How many sessions the items open. */
  function Opens(items: seq<WithItem>): nat {
    if items == [] then 0 else (if items[0].opens then 1 else 0) + Opens(items[1..])
  }

  /** The calls marked in `p`, when it runs at the given depth, are exactly these. */
  ghost predicate Marks(p: Prog, depth: nat, calls: set<Call>) {
    && Ordinary(p)
    && forall c :: Within(c) in Emits(MarkProg(p, depth)) <==> c in calls
  }

  lemma {:induction false} ExprMarks(e: Expr, depth: nat)
    ensures Marks(OfExpr(e), depth, ExprOpen(e, depth))
    decreases e, 0
  {
    match e
    case Op(kids) => ExprsMark(kids, depth);
    case Invoke(call, kids) =>
      ExprsMark(kids, depth);
      NoMarks(depth);
      var rest := Seq(Emit(Called(call)), MAY_RAISE);
      assert Ordinary(rest) by { assert Ordinary(Emit(Called(call))); }
      assert MarkProg(rest, depth) == Seq(Emit(Mark(Called(call), depth)), MarkProg(MAY_RAISE, depth));
      assert Emits(MarkProg(rest, depth)) == {Mark(Called(call), depth)} + Emits(MarkProg(MAY_RAISE, depth));
      assert Emits(MarkProg(OfExpr(e), depth)) == Emits(MarkProg(OfExprs(kids), depth)) + Emits(MarkProg(rest, depth));
    case IfExp(test, body, orelse) =>
      ExprMarks(test, depth);
      ExprMarks(body, depth);
      ExprMarks(orelse, depth);
  }

  lemma {:induction false} ExprsMark(es: seq<Expr>, depth: nat)
    ensures Marks(OfExprs(es), depth, if depth > 0 then set c | c in EvaluatedAll(es) else {})
    decreases es, 0
  {
    if es != [] {
      ExprMarks(es[0], depth);
      ExprsMark(es[1..], depth);
    }
  }

  lemma NoMarks(depth: nat)
    ensures Marks(RAISE_NOW, depth, {}) && Marks(MAY_RAISE, depth, {})
    ensures forall how :: Marks(Leave(how), depth, {})
  {
    assert MarkProg(RAISE_NOW, depth) == RAISE_NOW && MarkProg(MAY_RAISE, depth) == MAY_RAISE;
  }

  lemma MarkPair(p: Prog, q: Prog, depth: nat, x: set<Call>, y: set<Call>)
    requires Marks(p, depth, x) && Marks(q, depth, y)
    ensures Marks(Seq(p, q), depth, x + y) && Marks(Choose(p, q), depth, x + y)
    ensures Marks(Finally(p, q), depth, x + y)
  {
  }

  lemma MarkBranch(p: Prog, q: Prog, how: Exit, r: Prog, depth: nat, x: set<Call>, y: set<Call>, z: set<Call>)
    requires Marks(p, depth, x) && Marks(q, depth, y) && Marks(r, depth, z)
    ensures Marks(Branch(p, q, how, r), depth, x + y + z)
  {
  }

  lemma MarkLoop(pass: Prog, otherwise: Prog, depth: nat, x: set<Call>, y: set<Call>)
    requires Marks(pass, depth, x) && Marks(otherwise, depth, y)
    ensures Marks(Pass(pass), depth, x) && Marks(Repeat(pass), depth, x)
    ensures Marks(Loop(pass, otherwise), depth, x + y)
  {
    NoMarks(depth);
    MarkBranch(pass, Leave(Fell), Continued, Leave(Fell), depth, x, {}, {});
    MarkBranch(pass, otherwise, Broke, Leave(Fell), depth, x, y, {});
    assert x + {} + {} == x && x + y + {} == x + y;
  }

  lemma MarkSwallow(p: Prog, depth: nat, x: set<Call>)
    requires Marks(p, depth, x)
    ensures Marks(Swallow(p), depth, x)
  {
    NoMarks(depth);
    MarkPair(Leave(Fell), Leave(Raised), depth, {}, {});
    MarkBranch(p, Leave(Fell), Raised, Choose(Leave(Fell), Leave(Raised)), depth, x, {}, {} + {});
    assert x + {} + ({} + {}) == x;
  }

  lemma MarkFirst(ev: Event, p: Prog, depth: nat, x: set<Call>)
    requires Marks(p, depth, x) && !ev.Called? && !ev.Within? && ev != Opened && ev != Closed
    ensures Marks(Seq(Emit(ev), p), depth, x)
  {
    assert Emits(MarkProg(Emit(ev), depth)) == {ev};
  }

  lemma SimpleMarks(s: Stmt, depth: nat)
    requires !Compound(s)
    ensures Marks(OfStmt(s), depth, StmtOpen(s, depth))
  {
    NoMarks(depth);
    if s.Assert? {
      MarkFirst(Asserted(s.id), MAY_RAISE, depth, {});
    }
    if s.Return? && s.value.None? {
      MarkFirst(BareReturn(s.line), Leave(Returned), depth, {});
    } else if Operands(s) != [] {
      var e := Operands(s)[0];
      ExprMarks(e, depth);
      Alone(e);
      MarkPair(OfExpr(e), OfStmt(s).second, depth, ExprOpen(e, depth), {});
      assert ExprOpen(e, depth) + {} == StmtOpen(s, depth);
    }
  }

  /** A call is made with a session open only where the code says so. */
  lemma {:induction false} StmtMarks(s: Stmt, depth: nat)
    ensures Marks(OfStmt(s), depth, StmtOpen(s, depth))
    decreases s, 0
  {
    match s
    case If(test, body, orelse) => BlockMarks(body, depth); BlockMarks(orelse, depth); IfMarks(s, depth);
    case For(_, _, body, orelse) => BlockMarks(body, depth); BlockMarks(orelse, depth); ForMarks(s, depth);
    case While(_, body, orelse) => BlockMarks(body, depth); BlockMarks(orelse, depth); WhileMarks(s, depth);
    case With(items, body) =>
      BlockMarks(body, depth + Opens(items));
      WithMarks(items, OfBlock(body), depth, BlockOpen(body, depth + Opens(items)));
    case Try(body, handlers, orelse, finalbody) =>
      BlockMarks(body, depth);
      HandlersMark(handlers, depth);
      BlockMarks(orelse, depth);
      BlockMarks(finalbody, depth);
      TryMarks(s, depth);
    case _ => SimpleMarks(s, depth);
  }

  lemma {:induction false} BlockMarks(ss: seq<Stmt>, depth: nat)
    ensures Marks(OfBlock(ss), depth, BlockOpen(ss, depth))
    decreases ss, 0
  {
    if ss == [] {
      NoMarks(depth);
    } else {
      StmtMarks(ss[0], depth);
      BlockMarks(ss[1..], depth);
      MarkPair(OfStmt(ss[0]), OfBlock(ss[1..]), depth, StmtOpen(ss[0], depth), BlockOpen(ss[1..], depth));
    }
  }

  lemma {:induction false} HandlersMark(hs: seq<Handler>, depth: nat)
    ensures Marks(OfHandlers(hs), depth, HandlersOpen(hs, depth))
    decreases hs, 0
  {
    if hs == [] {
      NoMarks(depth);
    } else {
      BlockMarks(hs[0].body, depth);
      HandlersMark(hs[1..], depth);
      MarkPair(OfBlock(hs[0].body), OfHandlers(hs[1..]), depth, BlockOpen(hs[0].body, depth), HandlersOpen(hs[1..], depth));
    }
  }

  lemma IfMarks(s: Stmt, depth: nat)
    requires s.If?
    requires Marks(OfBlock(s.body), depth, BlockOpen(s.body, depth))
    requires Marks(OfBlock(s.orelse), depth, BlockOpen(s.orelse, depth))
    ensures Marks(OfStmt(s), depth, StmtOpen(s, depth))
  {
    var x, y := BlockOpen(s.body, depth), BlockOpen(s.orelse, depth);
    var taken := if s.orelse == [] then Seq(Emit(Entered(BareIf)), OfBlock(s.body)) else OfBlock(s.body);
    ExprMarks(s.test, depth);
    MarkFirst(Entered(BareIf), OfBlock(s.body), depth, x);
    MarkPair(taken, OfBlock(s.orelse), depth, x, y);
    MarkPair(OfExpr(s.test), Choose(taken, OfBlock(s.orelse)), depth, ExprOpen(s.test, depth), x + y);
    assert ExprOpen(s.test, depth) + (x + y) == StmtOpen(s, depth);
  }

  lemma ForMarks(s: Stmt, depth: nat)
    requires s.For?
    requires Marks(OfBlock(s.body), depth, BlockOpen(s.body, depth))
    requires Marks(OfBlock(s.orelse), depth, BlockOpen(s.orelse, depth))
    ensures Marks(OfStmt(s), depth, StmtOpen(s, depth))
  {
    var e, x, y := ExprOpen(s.iter, depth), BlockOpen(s.body, depth), BlockOpen(s.orelse, depth);
    var inner := if s.fixed then OfBlock(s.body) else Seq(Emit(Entered(DynamicLoop)), OfBlock(s.body));
    var passes := if s.fixed then Seq(Pass(inner), Repeat(Pass(inner))) else Repeat(Pass(inner));
    ExprMarks(s.iter, depth);
    MarkFirst(Entered(DynamicLoop), OfBlock(s.body), depth, x);
    MarkLoop(inner, OfBlock(s.orelse), depth, x, y);
    MarkLoop(Pass(inner), OfBlock(s.orelse), depth, x, y);
    MarkPair(Pass(inner), Repeat(Pass(inner)), depth, x, x);
    assert x + x == x;
    MarkLoop(passes, OfBlock(s.orelse), depth, x, y);
    MarkPair(OfExpr(s.iter), Loop(passes, OfBlock(s.orelse)), depth, e, x + y);
    assert e + (x + y) == StmtOpen(s, depth);
  }

  lemma WhileMarks(s: Stmt, depth: nat)
    requires s.While?
    requires Marks(OfBlock(s.body), depth, BlockOpen(s.body, depth))
    requires Marks(OfBlock(s.orelse), depth, BlockOpen(s.orelse, depth))
    ensures Marks(OfStmt(s), depth, StmtOpen(s, depth))
  {
    var e, x, y := ExprOpen(s.test, depth), BlockOpen(s.body, depth), BlockOpen(s.orelse, depth);
    var inner, otherwise := Seq(OfExpr(s.test), OfBlock(s.body)), Seq(OfExpr(s.test), OfBlock(s.orelse));
    ExprMarks(s.test, depth);
    MarkPair(OfExpr(s.test), OfBlock(s.body), depth, e, x);
    MarkPair(OfExpr(s.test), OfBlock(s.orelse), depth, e, y);
    MarkLoop(inner, otherwise, depth, e + x, e + y);
    MarkLoop(Pass(inner), otherwise, depth, e + x, e + y);
    MarkLoop(Repeat(Pass(inner)), otherwise, depth, e + x, e + y);
    assert (e + x) + (e + y) == StmtOpen(s, depth);
  }

  lemma TryMarks(s: Stmt, depth: nat)
    requires s.Try?
    requires Marks(OfBlock(s.body), depth, BlockOpen(s.body, depth))
    requires Marks(OfHandlers(s.handlers), depth, HandlersOpen(s.handlers, depth))
    requires Marks(OfBlock(s.orelse), depth, BlockOpen(s.orelse, depth))
    requires Marks(OfBlock(s.finalbody), depth, BlockOpen(s.finalbody, depth))
    ensures Marks(OfStmt(s), depth, StmtOpen(s, depth))
  {
    var b, h := BlockOpen(s.body, depth), HandlersOpen(s.handlers, depth);
    var e, f := BlockOpen(s.orelse, depth), BlockOpen(s.finalbody, depth);
    MarkBranch(OfBlock(s.body), OfBlock(s.orelse), Raised, OfHandlers(s.handlers), depth, b, e, h);
    MarkPair(Branch(OfBlock(s.body), OfBlock(s.orelse), Raised, OfHandlers(s.handlers)), OfBlock(s.finalbody),
             depth, b + e + h, f);
    assert (b + e + h) + f == StmtOpen(s, depth);
  }

  lemma {:induction false} WithMarks(items: seq<WithItem>, body: Prog, depth: nat, x: set<Call>)
    requires Marks(body, depth + Opens(items), x)
    ensures Marks(OfWith(items, body), depth, ItemsOpen(items, depth) + x)
    decreases items
  {
    if items != [] {
      var depth' := depth + if items[0].opens then 1 else 0;
      var inner, y := OfWith(items[1..], body), ItemsOpen(items[1..], depth') + x;
      WithMarks(items[1..], body, depth', x);
      var block := if items[0].opens then Session(inner) else inner;
      assert Marks(block, depth, y);
      MarkSwallow(block, depth, y);
      ExprMarks(items[0].context, depth);
      MarkPair(OfExpr(items[0].context), Swallow(block), depth, ExprOpen(items[0].context, depth), y);
      assert ExprOpen(items[0].context, depth) + y == ItemsOpen(items, depth) + x;
    }
  }

  // ----- inside a session everything counts -----

  lemma {:induction false} AllOpen(s: Stmt, depth: nat)
    requires depth > 0
    ensures StmtOpen(s, depth) == StmtCalls(s)
    decreases s, 0
  {
    match s
    case If(_, body, orelse) => AllOpenBlock(body, depth); AllOpenBlock(orelse, depth);
    case For(_, _, body, orelse) => AllOpenBlock(body, depth); AllOpenBlock(orelse, depth);
    case While(_, body, orelse) => AllOpenBlock(body, depth); AllOpenBlock(orelse, depth);
    case With(items, body) => AllOpenItems(items, depth); AllOpenBlock(body, depth + Opens(items));
    case Try(body, handlers, orelse, finalbody) =>
      AllOpenBlock(body, depth);
      AllOpenHandlers(handlers, depth);
      AllOpenBlock(orelse, depth);
      AllOpenBlock(finalbody, depth);
    case _ =>
  }

  lemma {:induction false} AllOpenBlock(ss: seq<Stmt>, depth: nat)
    requires depth > 0
    ensures BlockOpen(ss, depth) == BlockCalls(ss)
    decreases ss, 0
  {
    if ss != [] {
      AllOpen(ss[0], depth);
      AllOpenBlock(ss[1..], depth);
    }
  }

  lemma {:induction false} AllOpenHandlers(hs: seq<Handler>, depth: nat)
    requires depth > 0
    ensures HandlersOpen(hs, depth) == HandlerCalls(hs)
    decreases hs, 0
  {
    if hs != [] {
      AllOpenBlock(hs[0].body, depth);
      AllOpenHandlers(hs[1..], depth);
    }
  }

  lemma {:induction false} AllOpenItems(items: seq<WithItem>, depth: nat)
    requires depth > 0
    ensures ItemsOpen(items, depth) == ItemCalls(items)
    decreases items
  {
    if items != [] {
      AllOpenItems(items[1..], depth + if items[0].opens then 1 else 0);
    }
  }

  lemma {:induction false} EveryCallIsMarked(p: Prog, depth: nat, c: Call)
    requires Ordinary(p) && depth > 0
    ensures Called(c) in Emits(p) <==> Within(c) in Emits(MarkProg(p, depth))
    decreases p
  {
    match p
    case Emit(_) =>
    case Leave(_) =>
    case Seq(a, b) => EveryCallIsMarked(a, depth, c); EveryCallIsMarked(b, depth, c);
    case Choose(a, b) => EveryCallIsMarked(a, depth, c); EveryCallIsMarked(b, depth, c);
    case Repeat(a) => EveryCallIsMarked(a, depth, c);
    case Branch(a, b, _, d) =>
      EveryCallIsMarked(a, depth, c); EveryCallIsMarked(b, depth, c); EveryCallIsMarked(d, depth, c);
    case Finally(a, b) => EveryCallIsMarked(a, depth, c); EveryCallIsMarked(b, depth, c);
    case Session(a) => EveryCallIsMarked(a, depth + 1, c);
  }

  /** A statement can make the calls written in it, and no others. */
  lemma EmitsOfStmt(s: Stmt)
    ensures forall c :: Called(c) in Emits(OfStmt(s)) <==> c in StmtCalls(s)
  {
    StmtMarks(s, 1);
    AllOpen(s, 1);
    forall c ensures Called(c) in Emits(OfStmt(s)) <==> c in StmtCalls(s) {
      EveryCallIsMarked(OfStmt(s), 1, c);
    }
  }

  lemma EmitsOfBlock(ss: seq<Stmt>)
    ensures forall c :: Called(c) in Emits(OfBlock(ss)) <==> c in BlockCalls(ss)
  {
    BlockMarks(ss, 1);
    AllOpenBlock(ss, 1);
    forall c ensures Called(c) in Emits(OfBlock(ss)) <==> c in BlockCalls(ss) {
      EveryCallIsMarked(OfBlock(ss), 1, c);
    }
  }

  lemma {:induction false} MarkedIsCalled(p: Prog, depth: nat, c: Call)
    requires Ordinary(p) && Within(c) in Emits(MarkProg(p, depth))
    ensures Called(c) in Emits(p)
    decreases p
  {
    match p
    case Emit(_) =>
    case Seq(a, b) =>
      if Within(c) in Emits(MarkProg(a, depth)) { MarkedIsCalled(a, depth, c); } else { MarkedIsCalled(b, depth, c); }
    case Choose(a, b) =>
      if Within(c) in Emits(MarkProg(a, depth)) { MarkedIsCalled(a, depth, c); } else { MarkedIsCalled(b, depth, c); }
    case Repeat(a) => MarkedIsCalled(a, depth, c);
    case Branch(a, b, _, d) =>
      if Within(c) in Emits(MarkProg(a, depth)) { MarkedIsCalled(a, depth, c); }
      else if Within(c) in Emits(MarkProg(b, depth)) { MarkedIsCalled(b, depth, c); }
      else { MarkedIsCalled(d, depth, c); }
    case Finally(a, b) =>
      if Within(c) in Emits(MarkProg(a, depth)) { MarkedIsCalled(a, depth, c); } else { MarkedIsCalled(b, depth, c); }
    case Session(a) => MarkedIsCalled(a, depth + 1, c);
  }

  lemma OpenAreCalls(ss: seq<Stmt>, depth: nat)
    ensures BlockOpen(ss, depth) <= BlockCalls(ss)
  {
    BlockMarks(ss, depth);
    EmitsOfBlock(ss);
    forall c | c in BlockOpen(ss, depth) ensures c in BlockCalls(ss) {
      MarkedIsCalled(OfBlock(ss), depth, c);
    }
  }
}
