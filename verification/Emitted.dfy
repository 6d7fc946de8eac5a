/** Which assertions and bare returns a statement's program can perform: those written in it. */
module Emitted {
  import opened Options
  import opened Python
  import opened Runs
  import opened Calls

  predicate OfInterest(ev: Event) { ev.Asserted? || ev.BareReturn? }

  lemma {:induction false} ExprEmitsCalls(e: Expr)
    ensures forall ev | ev in Emits(OfExpr(e)) :: ev.Called? || ev.Raising?
    decreases e, 0
  {
    match e
    case Op(kids) => ExprsEmitCalls(kids);
    case Invoke(call, kids) =>
      ExprsEmitCalls(kids);
      MayRaiseEmits();
      assert Emits(Seq(Emit(Called(call)), MAY_RAISE)) == {Called(call), Raising};
    case IfExp(test, body, orelse) => ExprEmitsCalls(test); ExprEmitsCalls(body); ExprEmitsCalls(orelse);
  }

  lemma {:induction false} ExprsEmitCalls(es: seq<Expr>)
    ensures forall ev | ev in Emits(OfExprs(es)) :: ev.Called? || ev.Raising?
    decreases es, 0
  {
    if es != [] { ExprEmitsCalls(es[0]); ExprsEmitCalls(es[1..]); }
  }

  lemma MayRaiseEmits()
    ensures Emits(RAISE_NOW) == {Raising} && Emits(MAY_RAISE) == {Raising}
  {
    assert Emits(RAISE_NOW) == {Raising};
  }

  /** A simple statement performs itself. */
  predicate Performs(s: Stmt, ev: Event) {
    (s.Assert? && ev == Asserted(s.id)) || (s.Return? && s.value.None? && ev == BareReturn(s.line))
  }

  lemma SimpleEmits(s: Stmt, ev: Event)
    requires !Compound(s) && OfInterest(ev)
    ensures ev in Emits(OfStmt(s)) <==> Performs(s, ev)
  {
    MayRaiseEmits();
    if Operands(s) != [] { ExprEmitsCalls(Operands(s)[0]); }
    if s.Assert? { assert Emits(Seq(Emit(Asserted(s.id)), MAY_RAISE)) == {Asserted(s.id), Raising}; }
  }

  lemma IfEmits(s: Stmt, ev: Event)
    requires s.If? && OfInterest(ev)
    ensures ev in Emits(OfStmt(s)) <==> ev in Emits(OfBlock(s.body)) + Emits(OfBlock(s.orelse))
  {
    ExprEmitsCalls(s.test);
    assert Emits(Seq(Emit(Entered(BareIf)), OfBlock(s.body))) == {Entered(BareIf)} + Emits(OfBlock(s.body));
  }

  lemma LoopEmits(pass: Prog, otherwise: Prog)
    ensures Emits(Pass(pass)) == Emits(pass) && Emits(Loop(pass, otherwise)) == Emits(pass) + Emits(otherwise)
  {
    assert Emits(Leave(Fell)) == {};
  }

  lemma ForEmits(s: Stmt, ev: Event)
    requires s.For? && OfInterest(ev)
    ensures ev in Emits(OfStmt(s)) <==> ev in Emits(OfBlock(s.body)) + Emits(OfBlock(s.orelse))
  {
    var inner := if s.fixed then OfBlock(s.body) else Seq(Emit(Entered(DynamicLoop)), OfBlock(s.body));
    var passes := if s.fixed then Seq(Pass(inner), Repeat(Pass(inner))) else Repeat(Pass(inner));
    ExprEmitsCalls(s.iter);
    LoopEmits(inner, OfBlock(s.orelse));
    LoopEmits(passes, OfBlock(s.orelse));
    assert Emits(Seq(Emit(Entered(DynamicLoop)), OfBlock(s.body))) == {Entered(DynamicLoop)} + Emits(OfBlock(s.body));
  }

  lemma WhileEmits(s: Stmt, ev: Event)
    requires s.While? && OfInterest(ev)
    ensures ev in Emits(OfStmt(s)) <==> ev in Emits(OfBlock(s.body)) + Emits(OfBlock(s.orelse))
  {
    var inner, otherwise := Seq(OfExpr(s.test), OfBlock(s.body)), Seq(OfExpr(s.test), OfBlock(s.orelse));
    ExprEmitsCalls(s.test);
    LoopEmits(inner, otherwise);
    LoopEmits(Repeat(Pass(inner)), otherwise);
  }

  lemma {:induction false} WithEmits(items: seq<WithItem>, body: Prog, ev: Event)
    requires OfInterest(ev)
    ensures ev in Emits(OfWith(items, body)) <==> ev in Emits(body)
    decreases items
  {
    if items != [] {
      var inner := OfWith(items[1..], body);
      var block := if items[0].opens then Session(inner) else inner;
      WithEmits(items[1..], body, ev);
      ExprEmitsCalls(items[0].context);
      assert Emits(Leave(Fell)) == {} && Emits(Choose(Leave(Fell), Leave(Raised))) == {};
      assert ev in Emits(Swallow(block)) <==> ev in Emits(inner);
    }
  }

  lemma TryEmits(s: Stmt, ev: Event)
    requires s.Try?
    ensures ev in Emits(OfStmt(s)) <==>
      ev in Emits(OfBlock(s.body)) + Emits(OfHandlers(s.handlers)) + Emits(OfBlock(s.orelse)) + Emits(OfBlock(s.finalbody))
  {
    var guarded := Branch(OfBlock(s.body), OfBlock(s.orelse), Raised, OfHandlers(s.handlers));
    assert Emits(OfStmt(s)) == Emits(guarded) + Emits(OfBlock(s.finalbody));
  }

  /** What a part of a statement performs, the statement performs. */
  ghost predicate PartOf(ss: seq<Stmt>, s: Stmt) { Emits(OfBlock(ss)) <= Emits(OfStmt(s)) }

  lemma TwoPartsEmit(s: Stmt)
    requires s.If? || s.For? || s.While?
    ensures match s case If(_, b, e) => PartOf(b, s) && PartOf(e, s)
                    case For(_, _, b, e) => PartOf(b, s) && PartOf(e, s)
                    case While(_, b, e) => PartOf(b, s) && PartOf(e, s)
  {
    match s
    case If(_, body, orelse) =>
      assert Emits(Seq(Emit(Entered(BareIf)), OfBlock(body))) == {Entered(BareIf)} + Emits(OfBlock(body));
    case For(_, fixed, body, orelse) =>
      var inner := if fixed then OfBlock(body) else Seq(Emit(Entered(DynamicLoop)), OfBlock(body));
      var passes := if fixed then Seq(Pass(inner), Repeat(Pass(inner))) else Repeat(Pass(inner));
      LoopEmits(inner, OfBlock(orelse));
      LoopEmits(passes, OfBlock(orelse));
      assert Emits(Seq(Emit(Entered(DynamicLoop)), OfBlock(body))) == {Entered(DynamicLoop)} + Emits(OfBlock(body));
    case While(test, body, orelse) =>
      LoopEmits(Seq(OfExpr(test), OfBlock(body)), Seq(OfExpr(test), OfBlock(orelse)));
      LoopEmits(Repeat(Pass(Seq(OfExpr(test), OfBlock(body)))), Seq(OfExpr(test), OfBlock(orelse)));
  }

  lemma {:induction false} WithPartEmits(items: seq<WithItem>, body: Prog)
    ensures Emits(body) <= Emits(OfWith(items, body))
    decreases items
  {
    if items != [] {
      var inner := OfWith(items[1..], body);
      WithPartEmits(items[1..], body);
      assert Emits(inner) <= Emits(Swallow(if items[0].opens then Session(inner) else inner));
    }
  }

  lemma TryPartsEmit(s: Stmt)
    requires s.Try?
    ensures PartOf(s.body, s) && PartOf(s.orelse, s) && PartOf(s.finalbody, s) && Emits(OfHandlers(s.handlers)) <= Emits(OfStmt(s))
  {
    forall ev: Event ensures ev in Emits(OfStmt(s)) <==>
      ev in Emits(OfBlock(s.body)) + Emits(OfHandlers(s.handlers)) + Emits(OfBlock(s.orelse)) + Emits(OfBlock(s.finalbody))
    {
      TryEmits(s, ev);
    }
  }
}
