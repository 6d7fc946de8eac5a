/** Each hypothesis under which `_release_line` is sound is needed: bodies for which it reports a line
    although a run completes with the transaction held, each failing one hypothesis only. */
module ReleaseGaps {
  import opened Options
  import opened Python
  import opened Runs
  import opened Typestate
  import opened Calls
  import opened Release

  function CallStmt(line: nat, op: SessionOp, slow: Option<string>): Stmt {
    Simple(Invoke(Call(line, op, slow, false), []))
  }

  lemma CallRuns(line: nat, op: SessionOp, slow: Option<string>, b: bool)
    ensures var s, ev := CallStmt(line, op, slow), Called(Call(line, op, slow, false));
            && CanEnd(HELD, OfStmt(s), b, Fell, Step(b, ev))
            && CanHit(HELD, OfStmt(s), b, ev, b)
            && StmtCalls(s) == {ev.call} && OwnCalls(s) == [ev.call]
  {
    var c := Call(line, op, slow, false);
    var s, ev := CallStmt(line, op, slow), Called(c);
    var call := Seq(Emit(ev), MAY_RAISE);
    MayRaiseEnds(HELD, Step(b, ev));
    EmitThenEnds(HELD, ev, MAY_RAISE, b, Fell, Step(b, ev));
    assert CanEnd(HELD, OfExprs([]), b, Fell, b);
    SeqEnds(HELD, OfExprs([]), call, b, b, Fell, Step(b, ev));
    assert CanHit(HELD, call, b, ev, b);
    SeqHits(HELD, OfExprs([]), call, b, b, ev, b);
    assert OfExpr(s.e) == Seq(OfExprs([]), call);
    SeqEnds(HELD, OfExpr(s.e), MAY_RAISE, b, Step(b, ev), Fell, Step(b, ev));
    Alone(s.e);
    assert Walk([s.e]) == [c] + Walk([s.e][1..] + []);
  }

  lemma {:induction false} BlockEndsThen(m: Machine, a: seq<Stmt>, c: seq<Stmt>, b: bool, b1: bool, x: Exit, b2: bool)
    requires CanEnd(m, OfBlock(a), b, Fell, b1)
    ensures CanEnd(m, OfBlock(c), b1, x, b2) ==> CanEnd(m, OfBlock(a + c), b, x, b2)
    ensures forall ev, b3 :: CanHit(m, OfBlock(c), b1, ev, b3) ==> CanHit(m, OfBlock(a + c), b, ev, b3)
  {
    if a == [] {
      assert a + c == c;
    } else {
      var b0 :| CanEnd(m, OfStmt(a[0]), b, Fell, b0) && CanEnd(m, OfBlock(a[1..]), b0, Fell, b1);
      assert (a + c)[0] == a[0] && (a + c)[1..] == a[1..] + c;
      BlockEndsThen(m, a[1..], c, b0, b1, x, b2);
    }
  }

  lemma {:induction false} TopCallsAppend(a: seq<Stmt>, c: seq<Stmt>)
    ensures TopCalls(a + c) == TopCalls(a) + TopCalls(c)
  {
    if a == [] {
      assert a + c == c;
    } else {
      assert (a + c)[0] == a[0] && (a + c)[1..] == a[1..] + c;
      TopCallsAppend(a[1..], c);
    }
  }

  lemma {:induction false} BlockCallsAppend(a: seq<Stmt>, c: seq<Stmt>)
    ensures BlockCalls(a + c) == BlockCalls(a) + BlockCalls(c)
  {
    if a == [] {
      assert a + c == c;
    } else {
      assert (a + c)[0] == a[0] && (a + c)[1..] == a[1..] + c;
      BlockCallsAppend(a[1..], c);
    }
  }

  /** A body that can complete with the transaction held, in spite of the line reported for it, lets
      a real defect through as soon as slow work follows. */
  lemma HeldAtEndLeaks(body: seq<Stmt>, line: nat, category: string)
    requires ReleaseOf(TopCalls(body)) == Some(line) && CanEnd(HELD, OfBlock(body), true, Fell, true)
    ensures var more := body + [CallStmt(line + 1, NoOp, Some(category))];
            ReleaseOf(TopCalls(more)) == Some(line) && LeaksPast(more, line)
  {
    var s := CallStmt(line + 1, NoOp, Some(category));
    CallRuns(line + 1, NoOp, Some(category), true);
    assert OfBlock([s]) == Seq(OfStmt(s), OfBlock([s][1..]));
    assert CanHit(HELD, OfBlock([s]), true, Called(s.e.call), true);
    BlockEndsThen(HELD, body, [s], true, true, Fell, true);
    TopCallsAppend(body, [s]);
    BlockCallsAppend(body, [s]);
    assert TopCalls([s]) == OwnCalls(s) + TopCalls([s][1..]) == [s.e.call];
    ReleaseAppend(TopCalls(body), [s.e.call]);
    assert SessionOps([s.e.call]) == [];
    assert s.e.call in BlockCalls([s]);
  }

  // ----- reading off small pieces -----

  lemma WalkStep(e: Expr, rest: seq<Expr>)
    ensures Walk([e] + rest) == Own(e) + Walk(rest + Children(e))
  {
    assert ([e] + rest)[1..] == rest;
  }

  lemma OneCall(c: Call, held: bool)
    ensures SessionOps([c]) == (if c.op == NoOp then [] else [c])
    ensures AfterCalls(held, [c]) == Step(held, Called(c))
    ensures Evaluated(Invoke(c, [])) == [c] && Firm(Invoke(c, []))
  {
    assert [c][1..] == [] && EvaluatedAll([]) + [c] == [c];
  }

  lemma OneStatement(s: Stmt, b: bool, b1: bool)
    requires CanEnd(HELD, OfStmt(s), b, Fell, b1)
    ensures CanEnd(HELD, OfBlock([s]), b, Fell, b1)
  {
    assert [s][1..] == [];
    assert OfBlock([s]) == Seq(OfStmt(s), Leave(Fell));
    SeqEnds(HELD, OfStmt(s), Leave(Fell), b, b1, Fell, b1);
  }

  lemma OneStatementReads(s: Stmt)
    ensures TopCalls([s]) == OwnCalls(s) && BlockCalls([s]) == StmtCalls(s)
    ensures LinesInOrder([s])
    ensures !Compound(s) ==> RearmsAreClosed([s]) && (AllSteady([s]) <==> Steady(s))
  {
    assert [s][1..] == [] && OwnCalls(s) + [] == OwnCalls(s);
    assert TopCalls([s]) == OwnCalls(s) + TopCalls([s][1..]);
    assert s in [s];
  }

  // ----- a database call in a branch, after the close -----

  /** `if cond: db.query(...)` */
  function QueryBranch(): Stmt {
    If(NOTHING, [CallStmt(3, Rearm, None)], [])
  }

  lemma QueryBranchRearms()
    ensures CanEnd(HELD, OfStmt(QueryBranch()), false, Fell, true)
    ensures StmtCalls(QueryBranch()) == {Call(3, Rearm, None, false)}
  {
    var query := CallStmt(3, Rearm, None);
    CallRuns(3, Rearm, None, false);
    OneStatement(query, false, true);
    TakenBranch([query], false, true);
    OneStatementReads(query);
  }

  lemma TakenBranch(body: seq<Stmt>, b: bool, b1: bool)
    requires CanEnd(HELD, OfBlock(body), b, Fell, b1)
    ensures CanEnd(HELD, OfStmt(If(NOTHING, body, [])), b, Fell, b1)
    ensures StmtCalls(If(NOTHING, body, [])) == BlockCalls(body)
  {
    var taken := Seq(Emit(Entered(BareIf)), OfBlock(body));
    EmitThenEnds(HELD, Entered(BareIf), OfBlock(body), b, Fell, b1);
    assert CanEnd(HELD, OfExpr(NOTHING), b, Fell, b);
    SeqEnds(HELD, OfExpr(NOTHING), Choose(taken, OfBlock([])), b, b, Fell, b1);
  }

  /** The branch is stepped over, so the close before it is taken for the last word. */
  lemma RearmInBranchIsMissed()
    ensures var body := [CallStmt(1, Close, None)] + [QueryBranch()];
            && LinesInOrder(body) && AllSteady(body) && !RearmsAreClosed(body)
            && ReleaseOf(TopCalls(body)) == Some(1) && CanEnd(HELD, OfBlock(body), true, Fell, true)
  {
    var close, branch := CallStmt(1, Close, None), QueryBranch();
    CallRuns(1, Close, None, true);
    OneStatement(close, true, false);
    QueryBranchRearms();
    OneStatement(branch, false, true);
    BlockEndsThen(HELD, [close], [branch], true, false, Fell, true);
    CloseThenReads(close, branch);
  }

  lemma CloseThenReads(close: Stmt, branch: Stmt)
    requires close == CallStmt(1, Close, None) && branch.If? && StmtCalls(branch) == {Call(3, Rearm, None, false)}
    ensures var body := [close] + [branch];
            && LinesInOrder(body) && AllSteady(body) && !RearmsAreClosed(body)
            && ReleaseOf(TopCalls(body)) == Some(1)
  {
    CallRuns(1, Close, None, true);
    OneCall(close.e.call, true);
    TopCallsAppend([close], [branch]);
    OneStatementReads(close);
    OneStatementReads(branch);
    assert ([close] + [branch])[1..] == [branch];
    assert ReleaseOf([]) == None;
    assert Call(3, Rearm, None, false) in StmtCalls(branch);
  }

  // ----- two session calls in one statement -----

  /** `f(g(db.close()), db.query(...))` */
  function CloseThenQuery(): Expr {
    Op([Op([Invoke(Call(1, Close, None, false), [])])] + [Invoke(Call(1, Rearm, None, false), [])])
  }

  lemma CloseThenQueryReads()
    ensures Walk([CloseThenQuery()]) == [Call(1, Rearm, None, false)] + [Call(1, Close, None, false)]
    ensures Evaluated(CloseThenQuery()) == [Call(1, Close, None, false)] + [Call(1, Rearm, None, false)]
    ensures Firm(CloseThenQuery())
  {
    var close, query := Call(1, Close, None, false), Call(1, Rearm, None, false);
    var inner, outer := Op([Invoke(close, [])]), Invoke(query, []);
    OneCall(close, true);
    OneCall(query, true);
    CloseThenQueryWalks();
    EvaluatedAppend([inner], [outer]);
    Alone(inner);
    Alone(outer);
    Alone(Invoke(close, []));
    assert Firm(inner);
  }

  lemma CloseThenQueryWalks()
    ensures Walk([CloseThenQuery()]) == [Call(1, Rearm, None, false)] + [Call(1, Close, None, false)]
  {
    var close, query := Call(1, Close, None, false), Call(1, Rearm, None, false);
    var inner, outer := Op([Invoke(close, [])]), Invoke(query, []);
    WalkStep(CloseThenQuery(), []);
    assert [CloseThenQuery()] + [] == [CloseThenQuery()] && [] + ([inner] + [outer]) == [inner] + [outer];
    WalkStep(inner, [outer]);
    WalkStep(outer, [Invoke(close, [])]);
    WalkStep(Invoke(close, []), []);
    assert [Invoke(close, [])] + [] == [Invoke(close, [])];
  }

  /** The walk meets the shallower call first, though it runs last: the close is taken for the last
      word, and the transaction is held. */
  lemma NestedCloseIsReadLast()
    ensures var body := [Simple(CloseThenQuery())];
            && LinesInOrder(body) && RearmsAreClosed(body) && !AllSteady(body)
            && ReleaseOf(TopCalls(body)) == Some(1) && CanEnd(HELD, OfBlock(body), true, Fell, true)
  {
    var close, query := Call(1, Close, None, false), Call(1, Rearm, None, false);
    var e := CloseThenQuery();
    CloseThenQueryReads();
    OneCall(close, true);
    OneCall(query, false);
    OneStatementReads(Simple(e));
    SessionOpsAppend([query], [close]);
    ReleaseAppend([query], [close]);
    assert ReleaseOf([close]) == Some(1);
    AfterCallsAppend(true, [close], [query]);
    CompletesHeld(e);
  }

  lemma CompletesHeld(e: Expr)
    requires Firm(e) && AfterCalls(true, Evaluated(e))
    ensures CanEnd(HELD, OfBlock([Simple(e)]), true, Fell, true)
  {
    var b := ExprFalls(HELD, e, true);
    FirmEnd(e, true, b);
    MayRaiseEnds(HELD, b);
    SeqEnds(HELD, OfExpr(e), MAY_RAISE, true, true, Fell, true);
    OneStatement(Simple(e), true, true);
  }

  // ----- a close in a conditional expression -----

  /** `db.close() if cond else None` */
  function MaybeClose(): Expr {
    IfExp(NOTHING, Invoke(Call(1, Close, None, false), []), NOTHING)
  }

  /** The conditional close reads as an unconditional release. */
  lemma ConditionalCloseIsTrusted()
    ensures var body := [Simple(MaybeClose())];
            && LinesInOrder(body) && RearmsAreClosed(body) && !AllSteady(body)
            && ReleaseOf(TopCalls(body)) == Some(1) && CanEnd(HELD, OfBlock(body), true, Fell, true)
  {
    var e, close := MaybeClose(), Call(1, Close, None, false);
    OneCall(close, true);
    MaybeCloseReads();
    OneStatementReads(Simple(e));
    assert ReleaseOf([close]) == Some(1);
    assert CanEnd(HELD, OfExpr(NOTHING), true, Fell, true);
    SeqEnds(HELD, OfExpr(NOTHING), Choose(OfExpr(e.body), OfExpr(NOTHING)), true, true, Fell, true);
    MayRaiseEnds(HELD, true);
    SeqEnds(HELD, OfExpr(e), MAY_RAISE, true, true, Fell, true);
    OneStatement(Simple(e), true, true);
    assert !Firm(e) && e in Operands(Simple(e));
  }

  lemma MaybeCloseReads()
    ensures Walk([MaybeClose()]) == [Call(1, Close, None, false)]
  {
    var close := Invoke(Call(1, Close, None, false), []);
    WalkStep(MaybeClose(), []);
    assert [MaybeClose()] + [] == [MaybeClose()] && [] + Children(MaybeClose()) == [NOTHING] + ([close] + [NOTHING]);
    WalkStep(NOTHING, [close] + [NOTHING]);
    assert ([close] + [NOTHING]) + [] == [close] + [NOTHING];
    WalkStep(close, [NOTHING]);
    assert [NOTHING] + [] == [NOTHING];
    WalkStep(NOTHING, []);
  }
}
