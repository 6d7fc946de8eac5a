/** Where the verdict of `_bare_returns` is exact: against what a run does before it returns, and against what
    is written. */
module SilentReturns {
  import opened Options
  import opened Python
  import opened Runs
  import opened Typestate
  import opened Calls
  import opened Emitted
  import opened Written
  import opened BareReturns

  // ----- the lists hold every return -----

  predicate Bare(ss: seq<Stmt>, line: nat) {
    exists t :: t in ss && IsBare(t, line)
  }

  predicate BareIn(lists: seq<seq<Stmt>>, line: nat) {
    exists k :: k in lists && Bare(k, line)
  }

  lemma BareInParts(a: seq<seq<Stmt>>, b: seq<seq<Stmt>>, line: nat)
    ensures BareIn(a + b, line) <==> BareIn(a, line) || BareIn(b, line)
  {
    if k :| k in a && Bare(k, line) { assert k in a + b; }
    if k :| k in b && Bare(k, line) { assert k in a + b; }
  }

  /** A statement can perform a bare return exactly if it is one, or one stands in a list under it. */
  lemma {:induction false} ReturnsAreListed(s: Stmt, line: nat)
    ensures BareReturn(line) in Emits(OfStmt(s)) <==> IsBare(s, line) || BareIn(Lists(s), line)
    decreases s, 0
  {
    var ev := BareReturn(line);
    match s
    case If(_, body, orelse) =>
      IfEmits(s, ev);
      BlockReturnsAreListed(body, line);
      BlockReturnsAreListed(orelse, line);
      BareInParts(BlockLists(body), BlockLists(orelse), line);
    case For(_, _, body, orelse) =>
      ForEmits(s, ev);
      BlockReturnsAreListed(body, line);
      BlockReturnsAreListed(orelse, line);
      BareInParts(BlockLists(body), BlockLists(orelse), line);
    case While(_, body, orelse) =>
      WhileEmits(s, ev);
      BlockReturnsAreListed(body, line);
      BlockReturnsAreListed(orelse, line);
      BareInParts(BlockLists(body), BlockLists(orelse), line);
    case With(items, body) =>
      WithEmits(items, OfBlock(body), ev);
      BlockReturnsAreListed(body, line);
    case Try(body, handlers, orelse, finalbody) =>
      TryEmits(s, ev);
      BlockReturnsAreListed(body, line);
      HandlerReturnsAreListed(handlers, line);
      BlockReturnsAreListed(orelse, line);
      BlockReturnsAreListed(finalbody, line);
      var b, e, f, h := BlockLists(body), BlockLists(orelse), BlockLists(finalbody), HandlerLists(handlers);
      BareInParts(b, e, line);
      BareInParts(b + e, f, line);
      BareInParts(b + e + f, h, line);
    case _ =>
      SimpleEmits(s, ev);
  }

  lemma {:induction false} BlockReturnsAreListed(ss: seq<Stmt>, line: nat)
    ensures BareReturn(line) in Emits(OfBlock(ss)) <==> BareIn(BlockLists(ss), line)
    decreases ss, 1
  {
    RestReturnsAreListed(ss, line);
    BareInParts([ss], InnerLists(ss), line);
    assert BareIn([ss], line) <==> Bare(ss, line) by { assert ss in [ss]; }
  }

  lemma {:induction false} RestReturnsAreListed(ss: seq<Stmt>, line: nat)
    ensures BareReturn(line) in Emits(OfBlock(ss)) <==> Bare(ss, line) || BareIn(InnerLists(ss), line)
    decreases ss, 0
  {
    if ss != [] {
      ReturnsAreListed(ss[0], line);
      RestReturnsAreListed(ss[1..], line);
      BareInParts(Lists(ss[0]), InnerLists(ss[1..]), line);
      assert Bare(ss, line) <==> IsBare(ss[0], line) || Bare(ss[1..], line) by {
        if Bare(ss[1..], line) { var t :| t in ss[1..] && IsBare(t, line); assert t in ss; }
      }
    }
  }

  lemma {:induction false} HandlerReturnsAreListed(hs: seq<Handler>, line: nat)
    ensures BareReturn(line) in Emits(OfHandlers(hs)) <==> BareIn(HandlerLists(hs), line)
    decreases hs, 0
  {
    if hs != [] {
      BlockReturnsAreListed(hs[0].body, line);
      HandlerReturnsAreListed(hs[1..], line);
      BareInParts(BlockLists(hs[0].body), HandlerLists(hs[1..]), line);
    }
  }

  // ----- stepping over what is no evidence -----

  /** Control goes past the statement, and unless the statement is evidence it can do so silently: no early
      exit; what a branch or loop may skip may be anything; but evidence does not stand where the verdict does
      not count it though every run meets it - a test, an `else` or `finally` part. */
  predicate Passable(s: Stmt)
    decreases s, 0
  {
    match s
    case Simple(_) => true
    case Assert(_, _) => true
    case If(test, _, orelse) => !ExprEvidence(test) && AllPassable(orelse) && !Evidence(orelse)
    case For(iter, fixed, _, orelse) => !fixed && !ExprEvidence(iter) && AllPassable(orelse) && !Evidence(orelse)
    case While(test, _, orelse) => !ExprEvidence(test) && AllPassable(orelse) && !Evidence(orelse)
    case With(_, body) => AllPassable(body)
    case Try(body, _, orelse, finalbody) =>
      AllPassable(body) && AllPassable(orelse) && AllPassable(finalbody) && !Evidence(orelse) && !Evidence(finalbody)
    case _ => false
  }

  predicate AllPassable(ss: seq<Stmt>)
    decreases ss, 1
  {
    forall s | s in ss :: Passable(s)
  }

  predicate Falls(p: Prog) { CanEnd(NOTED, p, false, Fell, false) }

  lemma SeqFalls(p: Prog, q: Prog)
    requires Falls(p) && Falls(q)
    ensures Falls(Seq(p, q))
  {
    SeqEnds(NOTED, p, q, false, false, Fell, false);
  }

  lemma {:induction false} ExprPasses(e: Expr)
    requires !ExprEvidence(e)
    ensures Falls(OfExpr(e))
    decreases e, 0
  {
    match e
    case Op(kids) => ExprsPass(kids);
    case Invoke(call, kids) =>
      ExprsPass(kids);
      assert !call.reports by { assert call in Evaluated(e); }
      MayRaiseEnds(NOTED, false);
      EmitThenEnds(NOTED, Called(call), MAY_RAISE, false, Fell, false);
      SeqFalls(OfExprs(kids), Seq(Emit(Called(call)), MAY_RAISE));
    case IfExp(test, body, orelse) =>
      assert forall c :: c in Evaluated(test) || c in Evaluated(body) ==> c in Evaluated(e);
      ExprPasses(test);
      ExprPasses(body);
      SeqFalls(OfExpr(test), Choose(OfExpr(body), OfExpr(orelse)));
  }

  lemma {:induction false} ExprsPass(es: seq<Expr>)
    requires forall c | c in EvaluatedAll(es) :: !c.reports
    ensures Falls(OfExprs(es))
    decreases es, 0
  {
    if es != [] {
      ExprPasses(es[0]);
      ExprsPass(es[1..]);
      SeqFalls(OfExpr(es[0]), OfExprs(es[1..]));
    }
  }

  /** A statement that is no evidence can be stepped over with nothing noted. */
  lemma {:induction false} NoEvidencePasses(s: Stmt)
    requires Passable(s) && !UnconditionalEvidence(s)
    ensures Falls(OfStmt(s))
    decreases s, 0
  {
    match s
    case Simple(e) =>
      assert e in Operands(s);
      ExprPasses(e);
      MayRaiseEnds(NOTED, false);
      SeqFalls(OfExpr(e), MAY_RAISE);
    case If(test, _, orelse) =>
      ExprPasses(test);
      NoEvidenceBlock(orelse);
      IfPasses(s);
    case For(iter, _, body, orelse) =>
      ExprPasses(iter);
      NoEvidenceBlock(orelse);
      LoopPasses(Pass(Seq(Emit(Entered(DynamicLoop)), OfBlock(body))), OfBlock(orelse));
      SeqFalls(OfExpr(iter), Loop(Repeat(Pass(Seq(Emit(Entered(DynamicLoop)), OfBlock(body)))), OfBlock(orelse)));
    case While(test, body, orelse) =>
      ExprPasses(test);
      NoEvidenceBlock(orelse);
      SeqFalls(OfExpr(test), OfBlock(orelse));
      LoopPasses(Pass(Seq(OfExpr(test), OfBlock(body))), Seq(OfExpr(test), OfBlock(orelse)));
    case With(items, body) =>
      NoEvidenceBlock(body);
      WithPasses(items, OfBlock(body));
    case Try(body, handlers, orelse, finalbody) =>
      NoEvidenceBlock(body);
      NoEvidenceBlock(orelse);
      NoEvidenceBlock(finalbody);
      TryPasses(s);
  }

  lemma {:induction false} NoEvidenceBlock(ss: seq<Stmt>)
    requires AllPassable(ss) && !Evidence(ss)
    ensures Falls(OfBlock(ss))
    decreases ss, 1
  {
    if ss != [] {
      assert ss[0] in ss && forall t :: t in ss[1..] ==> t in ss;
      NoEvidencePasses(ss[0]);
      NoEvidenceBlock(ss[1..]);
      SeqFalls(OfStmt(ss[0]), OfBlock(ss[1..]));
    }
  }

  lemma IfPasses(s: Stmt)
    requires s.If? && Falls(OfExpr(s.test)) && Falls(OfBlock(s.orelse))
    ensures Falls(OfStmt(s))
  {
    var taken := if s.orelse == [] then Seq(Emit(Entered(BareIf)), OfBlock(s.body)) else OfBlock(s.body);
    assert Falls(Choose(taken, OfBlock(s.orelse)));
    SeqFalls(OfExpr(s.test), Choose(taken, OfBlock(s.orelse)));
  }

  lemma LoopPasses(pass: Prog, otherwise: Prog)
    requires Falls(otherwise)
    ensures Falls(Loop(Repeat(pass), otherwise))
  {
    assert Again(NOTED, pass, false, false);
    assert Falls(Repeat(pass));
  }

  lemma {:induction false} WithPasses(items: seq<WithItem>, body: Prog)
    requires Falls(body) && forall i | i in items :: !ExprEvidence(i.context)
    ensures Falls(OfWith(items, body))
    decreases items
  {
    if items != [] {
      var inner := OfWith(items[1..], body);
      var block := if items[0].opens then Session(inner) else inner;
      WithPasses(items[1..], body);
      ExprPasses(items[0].context);
      SessionIsTransparent(inner);
      assert Falls(block) && Falls(Leave(Fell)) && Falls(Swallow(block));
      SeqFalls(OfExpr(items[0].context), Swallow(block));
    }
  }

  lemma TryPasses(s: Stmt)
    requires s.Try? && Falls(OfBlock(s.body)) && Falls(OfBlock(s.orelse)) && Falls(OfBlock(s.finalbody))
    ensures Falls(OfStmt(s))
  {
    var guarded := Branch(OfBlock(s.body), OfBlock(s.orelse), Raised, OfHandlers(s.handlers));
    assert Falls(guarded);
    assert CanEnd(NOTED, Finally(guarded, OfBlock(s.finalbody)), false, Fell, false);
  }

  // ----- where the verdict is exact -----

  lemma {:induction false} PassThenReach(pre: seq<Stmt>, rest: seq<Stmt>, line: nat)
    requires AllPassable(pre) && !Evidence(pre) && Reaches(OfBlock(rest), line)
    ensures Reaches(OfBlock(pre + rest), line)
  {
    if pre == [] {
      assert pre + rest == rest;
    } else {
      assert pre[0] in pre && forall t :: t in pre[1..] ==> t in pre;
      assert (pre + rest)[0] == pre[0] && (pre + rest)[1..] == pre[1..] + rest;
      NoEvidencePasses(pre[0]);
      PassThenReach(pre[1..], rest, line);
      SeqHits(NOTED, OfStmt(pre[0]), OfBlock(pre[1..] + rest), false, false, BareReturn(line), false);
    }
  }

  lemma OneReturn(s: Stmt, line: nat)
    requires Reaches(OfStmt(s), line)
    ensures Reaches(OfBlock([s]), line)
  {
    assert OfBlock([s]) == Seq(OfStmt(s), OfBlock([s][1..]));
  }

  lemma {:induction false} MemberEmits(ss: seq<Stmt>, t: Stmt)
    requires t in ss
    ensures Emits(OfStmt(t)) <= Emits(OfBlock(ss))
  {
    if t != ss[0] { MemberEmits(ss[1..], t); }
  }

  /** Where no statement of `pre` performs the return, the verdict can only come from what follows it. */
  lemma ReportedAfter(pre: seq<Stmt>, last: Stmt, line: nat)
    requires BareReturn(line) !in Emits(OfBlock(pre)) && Verdict(pre + [last], line)
    ensures !Evidence(pre) && (IsBare(last, line) || exists k :: k in Lists(last) && Direct(k, line))
  {
    var body := pre + [last];
    var i :| 0 <= i < |body| && !Evidence(body[..i]) &&
             (IsBare(body[i], line) || exists k :: k in Lists(body[i]) && Direct(k, line));
    forall k | k in Lists(body[i]) && Direct(k, line) ensures Bare(k, line) { DirectIsBare(k, line); }
    if i < |pre| {
      MemberEmits(pre, pre[i]);
      ReturnsAreListed(pre[i], line);
    } else {
      assert body[..i] == pre;
    }
  }

  lemma DirectIsBare(k: seq<Stmt>, line: nat)
    requires Direct(k, line)
    ensures Bare(k, line)
  {
  }

  /** After statements that control goes past - `with` and `try` blocks to any depth, branches and loops that may
      be skipped - a return is reported exactly when some exception-free run reaches it with nothing asserted or
      reported. */
  lemma ReturnExactly(pre: seq<Stmt>, line: nat)
    requires AllPassable(pre) && AllWhole(pre) && BareReturn(line) !in Emits(OfBlock(pre))
    ensures Verdict(pre + [Return(line, None)], line) <==> SilentReturn(pre + [Return(line, None)], line)
  {
    var exit := Return(line, None);
    var body := pre + [exit];
    assert forall s :: s in body ==> s in pre || s == exit;
    if SilentReturn(body, line) { SilentReturnIsReported(body, line); }
    if Verdict(body, line) {
      ReportedAfter(pre, exit, line);
      OneReturn(exit, line);
      PassThenReach(pre, [exit], line);
      SilentReturnExactly(body, line);
    }
  }

  /** And so is one inside a branch, which is reported by what comes before it there and before the branch. */
  lemma BranchReturnExactly(outer: seq<Stmt>, test: Expr, inner: seq<Stmt>, line: nat)
    requires AllPassable(outer) && AllPassable(inner) && AllWhole(outer) && AllWhole(inner) && !ExprEvidence(test)
    requires BareReturn(line) !in Emits(OfBlock(outer)) && BareReturn(line) !in Emits(OfBlock(inner))
    ensures var body := outer + [If(test, inner + [Return(line, None)], [])];
      Verdict(body, line) <==> SilentReturn(body, line)
  {
    var exit := Return(line, None);
    var block := inner + [exit];
    var branch := If(test, block, []);
    var body := outer + [branch];
    assert forall s :: s in block ==> s in inner || s == exit;
    assert NoHalfEvidence(branch);
    assert forall s :: s in body ==> s in outer || s == branch;
    if SilentReturn(body, line) { SilentReturnIsReported(body, line); }
    if Verdict(body, line) {
      ReportedAfter(outer, branch, line);
      InnerNotEvidence(test, inner, line);
      OneReturn(exit, line);
      PassThenReach(inner, [exit], line);
      BranchReached(test, block, line);
      OneReturn(branch, line);
      PassThenReach(outer, [branch], line);
      SilentReturnExactly(body, line);
    }
  }

  lemma BranchReached(test: Expr, block: seq<Stmt>, line: nat)
    requires !ExprEvidence(test) && Reaches(OfBlock(block), line)
    ensures Reaches(OfStmt(If(test, block, [])), line)
  {
    var ev, taken := BareReturn(line), Seq(Emit(Entered(BareIf)), OfBlock(block));
    ExprPasses(test);
    assert CanEnd(NOTED, Emit(Entered(BareIf)), false, Fell, false);
    SeqHits(NOTED, Emit(Entered(BareIf)), OfBlock(block), false, false, ev, false);
    assert CanHit(NOTED, Choose(taken, OfBlock([])), false, ev, false);
    SeqHits(NOTED, OfExpr(test), Choose(taken, OfBlock([])), false, false, ev, false);
  }

  lemma InnerNotEvidence(test: Expr, inner: seq<Stmt>, line: nat)
    requires BareReturn(line) !in Emits(OfBlock(inner))
    requires exists k :: k in Lists(If(test, inner + [Return(line, None)], [])) && Direct(k, line)
    ensures !Evidence(inner)
  {
    var exit := Return(line, None);
    var block := inner + [exit];
    var k :| k in Lists(If(test, block, [])) && Direct(k, line);
    DirectIsBare(k, line);
    RestReturnsAreListed(inner, line);
    InnerOfSnoc(inner, exit);
    assert k == block;
    var j :| 0 <= j < |k| && IsBare(k[j], line) && !Evidence(k[..j]);
    assert forall i | 0 <= i < |inner| :: block[i] in inner;
    assert j == |inner| && k[..j] == inner;
  }

  lemma {:induction false} InnerOfSnoc(inner: seq<Stmt>, last: Stmt)
    requires !Compound(last)
    ensures InnerLists(inner + [last]) == InnerLists(inner)
  {
    if inner == [] {
      assert inner + [last] == [last] && [last][1..] == [];
    } else {
      assert (inner + [last])[0] == inner[0] && (inner + [last])[1..] == inner[1..] + [last];
      InnerOfSnoc(inner[1..], last);
    }
  }

  // ----- a test that checks nothing -----

  /** An assertion, or a call that asserts or reports. */
  predicate Telling(ev: Event) { ev.Asserted? || (ev.Called? && ev.call.reports) }

  ghost predicate Tells(p: Prog) { exists ev | ev in Emits(p) :: Telling(ev) }

  lemma {:induction false} EvidenceTells(s: Stmt)
    requires UnconditionalEvidence(s)
    ensures Tells(OfStmt(s))
    decreases s, 0
  {
    EmitsOfStmt(s);
    match s
    case Assert(id, test) =>
      SimpleEmits(s, Asserted(id));
    case With(items, body) =>
      if i :| i in items && ExprEvidence(i.context) {
        var c :| c in Evaluated(i.context) && c.reports;
        InItems(items, i, c);
        assert Called(c) in Emits(OfStmt(s)) && Telling(Called(c));
      } else {
        EvidenceBlockTells(body);
        WithPartEmits(items, OfBlock(body));
      }
    case Try(body, _, _, _) =>
      EvidenceBlockTells(body);
      TryPartsEmit(s);
    case Simple(e) => OperandTells(s, e);
    case Return(_, value) => OperandTells(s, value.value);
    case Raise(e) => OperandTells(s, e);
  }

  lemma OperandTells(s: Stmt, e: Expr)
    requires !Compound(s) && Operands(s) == [e] && ExprEvidence(e)
    ensures Tells(OfStmt(s))
  {
    EmitsOfStmt(s);
    Alone(e);
    var c :| c in Evaluated(e) && c.reports;
    assert c in EvaluatedAll(Operands(s));
    assert Called(c) in Emits(OfStmt(s)) && Telling(Called(c));
  }

  lemma {:induction false} EvidenceBlockTells(ss: seq<Stmt>)
    requires Evidence(ss)
    ensures Tells(OfBlock(ss))
    decreases ss, 1
  {
    var s :| s in ss && UnconditionalEvidence(s);
    EvidenceTells(s);
    MemberEmits(ss, s);
  }

  lemma {:induction false} InItems(items: seq<WithItem>, i: WithItem, c: Call)
    requires i in items && c in Evaluated(i.context)
    ensures c in ItemCalls(items)
  {
    if items[0] != i { InItems(items[1..], i, c); }
  }

  /** What a list under a statement performs, the statement performs. */
  lemma {:induction false} ListedEmits(s: Stmt, k: seq<Stmt>)
    requires k in Lists(s)
    ensures Emits(OfBlock(k)) <= Emits(OfStmt(s))
    decreases s, 0
  {
    match s
    case If(_, body, orelse) => TwoPartsEmit(s); BlockListedEmits(if k in BlockLists(body) then body else orelse, k);
    case For(_, _, body, orelse) => TwoPartsEmit(s); BlockListedEmits(if k in BlockLists(body) then body else orelse, k);
    case While(_, body, orelse) => TwoPartsEmit(s); BlockListedEmits(if k in BlockLists(body) then body else orelse, k);
    case With(items, body) => WithPartEmits(items, OfBlock(body)); BlockListedEmits(body, k);
    case Try(body, handlers, orelse, finalbody) =>
      TryPartsEmit(s);
      if k in HandlerLists(handlers) {
        HandlerListedEmits(handlers, k);
      } else {
        BlockListedEmits(if k in BlockLists(body) then body else if k in BlockLists(orelse) then orelse else finalbody, k);
      }
  }

  lemma {:induction false} BlockListedEmits(ss: seq<Stmt>, k: seq<Stmt>)
    requires k in BlockLists(ss)
    ensures Emits(OfBlock(k)) <= Emits(OfBlock(ss))
    decreases ss, 1
  {
    if k != ss { RestListedEmits(ss, k); }
  }

  lemma {:induction false} RestListedEmits(ss: seq<Stmt>, k: seq<Stmt>)
    requires k in InnerLists(ss)
    ensures Emits(OfBlock(k)) <= Emits(OfBlock(ss))
    decreases ss, 0
  {
    if k in Lists(ss[0]) { ListedEmits(ss[0], k); } else { RestListedEmits(ss[1..], k); }
  }

  lemma {:induction false} HandlerListedEmits(hs: seq<Handler>, k: seq<Stmt>)
    requires k in HandlerLists(hs)
    ensures Emits(OfBlock(k)) <= Emits(OfHandlers(hs))
    decreases hs, 0
  {
    if k in BlockLists(hs[0].body) { BlockListedEmits(hs[0].body, k); } else { HandlerListedEmits(hs[1..], k); }
  }

  /** In a test in which nothing asserts or reports, every bare return that is written is reported, wherever it
      stands, and no other line is. */
  lemma NothingToldAllReported(body: seq<Stmt>, line: nat)
    requires !Tells(OfBlock(body))
    ensures Verdict(body, line) <==> BareReturn(line) in Emits(OfBlock(body))
  {
    BlockReturnsAreListed(body, line);
    if Verdict(body, line) { VerdictIsWritten(body, line); }
    if BareReturn(line) in Emits(OfBlock(body)) {
      var k :| k in BlockLists(body) && Bare(k, line);
      NoEvidenceIn(body, k);
      NoEvidenceIn(body, body);
      var t :| t in k && IsBare(t, line);
      var j :| 0 <= j < |k| && k[j] == t;
      assert forall x :: x in k[..j] ==> x in k;
      assert Direct(k, line);
      ListedIsReported(body, k, line);
    }
  }

  lemma NoEvidenceIn(body: seq<Stmt>, k: seq<Stmt>)
    requires !Tells(OfBlock(body)) && k in BlockLists(body)
    ensures !Evidence(k)
  {
    BlockListedEmits(body, k);
    if Evidence(k) { EvidenceBlockTells(k); }
  }

  lemma VerdictIsWritten(body: seq<Stmt>, line: nat)
    requires Verdict(body, line)
    ensures BareReturn(line) in Emits(OfBlock(body))
  {
    var i :| 0 <= i < |body| && !Evidence(body[..i]) &&
             (IsBare(body[i], line) || exists k :: k in Lists(body[i]) && Direct(k, line));
    MemberEmits(body, body[i]);
    ReturnsAreListed(body[i], line);
    if k :| k in Lists(body[i]) && Direct(k, line) { DirectIsBare(k, line); }
  }

  lemma {:induction false} ListedIsReported(body: seq<Stmt>, k: seq<Stmt>, line: nat)
    requires !Evidence(body) && k in BlockLists(body) && Direct(k, line)
    ensures Verdict(body, line)
  {
    if k == body {
      var j :| 0 <= j < |k| && IsBare(k[j], line) && !Evidence(k[..j]);
    } else {
      var i := ListedUnder(body, k);
      assert forall x :: x in body[..i] ==> x in body;
    }
  }

  lemma {:induction false} ListedUnder(ss: seq<Stmt>, k: seq<Stmt>) returns (i: nat)
    requires k in InnerLists(ss)
    ensures i < |ss| && k in Lists(ss[i])
  {
    if k in Lists(ss[0]) {
      i := 0;
    } else {
      i := ListedUnder(ss[1..], k);
      i := i + 1;
    }
  }

  // ----- a caught exception -----

  /** `try: raise E(c) except: pass`, then a return. */
  function CaughtRaise(c: Call): Stmt { Try([Raise(Invoke(c, []))], [Handler([])], [], []) }

  /** It is reported exactly when some run reaches the return with nothing asserted or reported: when the call
      that makes the exception does not report. */
  lemma CaughtRaiseExactly(c: Call)
    ensures var body := [CaughtRaise(c)] + [Return(9, None)];
      (Verdict(body, 9) <==> EverSilent(body, 9)) && (EverSilent(body, 9) <==> !c.reports)
  {
    var s, exit := CaughtRaise(c), Return(9, None);
    var body := [s] + [exit];
    assert body[1..] == [exit];
    RaiseIsEvidence(c);
    VerdictCons(body, 9);
    VerdictCons([exit], 9);
    NoReturnUnder(c);
    EverSilentExactly(body, 9);
    CaughtRaiseEnds(c);
    if ReachesEver(OfStmt(s), 9) { HitIsEmitted(ASSERTED_ONLY, OfStmt(s), false, BareReturn(9), false); }
    LastReturnReached(s, c.reports);
  }

  lemma RaiseIsEvidence(c: Call)
    ensures UnconditionalEvidence(CaughtRaise(c)) <==> c.reports
  {
    var raise := Raise(Invoke(c, []));
    assert EvaluatedAll([]) == [] && Evaluated(Invoke(c, [])) == EvaluatedAll([]) + [c];
    assert Operands(raise) == [Invoke(c, [])];
    assert UnconditionalEvidence(raise) <==> c.reports by {
      assert c in Evaluated(Invoke(c, [])) && Invoke(c, []) in Operands(raise);
    }
    assert raise in [raise];
  }

  lemma NoReturnUnder(c: Call)
    ensures BareReturn(9) !in Emits(OfStmt(CaughtRaise(c)))
    ensures forall k | k in Lists(CaughtRaise(c)) :: !Direct(k, 9)
  {
    var s, raise := CaughtRaise(c), Raise(Invoke(c, []));
    TryEmits(s, BareReturn(9));
    SimpleEmits(raise, BareReturn(9));
    assert [raise][1..] == [] && Emits(OfBlock([raise])) == Emits(OfStmt(raise)) + Emits(OfBlock([]));
    assert [Handler([])][1..] == [] && Emits(OfHandlers([Handler([])])) == Emits(OfBlock([])) + Emits(OfHandlers([]));
    ReturnsAreListed(s, 9);
    forall k | k in Lists(s) ensures !Direct(k, 9) { if Direct(k, 9) { DirectIsBare(k, 9); } }
  }

  /** The program always raises, with or without a note. */
  ghost predicate Raises(p: Prog, noted: bool) {
    forall b1 :: !CanEnd(ASSERTED_ONLY, p, false, Fell, b1) && (CanEnd(ASSERTED_ONLY, p, false, Raised, b1) <==> b1 == noted)
  }

  /** When the program completes, it is with or without a note. */
  ghost predicate FallsWith(p: Prog, noted: bool) {
    forall b1 :: CanEnd(ASSERTED_ONLY, p, false, Fell, b1) <==> b1 == noted
  }

  lemma CaughtRaiseEnds(c: Call)
    ensures FallsWith(OfStmt(CaughtRaise(c)), c.reports)
  {
    var block, handlers := OfBlock([Raise(Invoke(c, []))]), OfHandlers([Handler([])]);
    RaiseEnds(c);
    assert OfBlock([]) == Leave(Fell);
    assert handlers == Choose(Leave(Fell), Leave(Raised)) by { assert [Handler([])][1..] == [] && OfHandlers([]) == Leave(Raised); }
    var guarded := Branch(block, Leave(Fell), Raised, handlers);
    HandledEnds(block, handlers, c.reports);
    LastEnds(guarded, c.reports);
    assert OfStmt(CaughtRaise(c)) == Finally(guarded, Leave(Fell));
  }

  lemma HandledEnds(block: Prog, handlers: Prog, noted: bool)
    requires handlers == Choose(Leave(Fell), Leave(Raised)) && Raises(block, noted)
    ensures FallsWith(Branch(block, Leave(Fell), Raised, handlers), noted)
  {
    var m, p := ASSERTED_ONLY, Branch(block, Leave(Fell), Raised, handlers);
    forall b1 ensures CanEnd(m, p, false, Fell, b1) <==> b1 == noted {
      HandlerFalls(b1);
      HandlerFalls(noted);
      assert CanEnd(m, block, false, Raised, noted) && !CanEnd(m, block, false, Raised, !noted);
      assert !CanEnd(m, block, false, Fell, true) && !CanEnd(m, block, false, Fell, false);
    }
  }

  lemma HandlerFalls(b1: bool)
    ensures forall b :: CanEnd(ASSERTED_ONLY, Choose(Leave(Fell), Leave(Raised)), b, Fell, b1) <==> b == b1
  {
  }

  lemma LastEnds(p: Prog, noted: bool)
    requires FallsWith(p, noted)
    ensures FallsWith(Finally(p, Leave(Fell)), noted)
  {
    forall b, x, b1 ensures CanEnd(ASSERTED_ONLY, Leave(Fell), b, x, b1) <==> x == Fell && b1 == b { }
    assert CanEnd(ASSERTED_ONLY, p, false, Fell, noted) && !CanEnd(ASSERTED_ONLY, p, false, Fell, !noted);
  }

  ghost predicate RaisedWith(p: Prog, noted: bool) {
    forall b1 :: CanEnd(ASSERTED_ONLY, p, false, Raised, b1) <==> b1 == noted
  }

  lemma CallEnds(c: Call)
    ensures FallsWith(Seq(Emit(Called(c)), MAY_RAISE), c.reports) && RaisedWith(Seq(Emit(Called(c)), MAY_RAISE), c.reports)
  {
    var m := ASSERTED_ONLY;
    MayRaiseEnds(m, c.reports);
    assert m(false, Called(c)) == c.reports && m(c.reports, Raising) == c.reports;
    forall x, b1 ensures CanEnd(m, Seq(Emit(Called(c)), MAY_RAISE), false, x, b1) <==> CanEnd(m, MAY_RAISE, c.reports, x, b1) {
      EmitThenEnds(m, Called(c), MAY_RAISE, false, x, b1);
    }
  }

  lemma AfterNothing(p: Prog, noted: bool)
    requires FallsWith(p, noted) && RaisedWith(p, noted)
    ensures FallsWith(Seq(Leave(Fell), p), noted) && RaisedWith(Seq(Leave(Fell), p), noted)
  {
    forall x, b1 ensures CanEnd(ASSERTED_ONLY, Seq(Leave(Fell), p), false, x, b1) <==> CanEnd(ASSERTED_ONLY, p, false, x, b1) {
      assert CanEnd(ASSERTED_ONLY, Leave(Fell), false, Fell, false);
    }
  }

  lemma ThenRaises(p: Prog, noted: bool)
    requires FallsWith(p, noted) && RaisedWith(p, noted)
    ensures Raises(Seq(p, RAISE_NOW), noted)
  {
    var m := ASSERTED_ONLY;
    forall b1 ensures !CanEnd(m, Seq(p, RAISE_NOW), false, Fell, b1)
              ensures CanEnd(m, Seq(p, RAISE_NOW), false, Raised, b1) <==> b1 == noted
    {
      forall b0, x ensures CanEnd(m, RAISE_NOW, b0, x, b1) <==> x == Raised && b1 == b0 {
        EmitThenEnds(m, Raising, Leave(Raised), b0, x, b1);
      }
      assert CanEnd(m, p, false, Fell, noted) && CanEnd(m, p, false, Raised, noted);
    }
  }

  lemma ThenNothing(p: Prog, noted: bool)
    requires Raises(p, noted)
    ensures Raises(Seq(p, Leave(Fell)), noted)
  {
    var m := ASSERTED_ONLY;
    forall b1 ensures !CanEnd(m, Seq(p, Leave(Fell)), false, Fell, b1)
              ensures CanEnd(m, Seq(p, Leave(Fell)), false, Raised, b1) <==> CanEnd(m, p, false, Raised, b1)
    {
      assert !CanEnd(m, p, false, Fell, true) && !CanEnd(m, p, false, Fell, false);
    }
  }

  lemma RaiseEnds(c: Call)
    ensures Raises(OfBlock([Raise(Invoke(c, []))]), c.reports)
  {
    var raise, call := Raise(Invoke(c, [])), Seq(Emit(Called(c)), MAY_RAISE);
    CallEnds(c);
    AfterNothing(call, c.reports);
    ThenRaises(Seq(Leave(Fell), call), c.reports);
    ThenNothing(Seq(Seq(Leave(Fell), call), RAISE_NOW), c.reports);
    assert OfExprs([]) == Leave(Fell) && OfExpr(Invoke(c, [])) == Seq(OfExprs([]), call);
    assert OfStmt(raise) == Seq(OfExpr(Invoke(c, [])), RAISE_NOW);
    assert OfBlock([raise]) == Seq(OfStmt(raise), OfBlock([])) by { assert [raise][1..] == []; }
  }

  lemma LastReturnReached(s: Stmt, noted: bool)
    requires FallsWith(OfStmt(s), noted)
    requires !ReachesEver(OfStmt(s), 9)
    ensures ReachesEver(OfBlock([s] + [Return(9, None)]), 9) <==> !noted
  {
    var exit, m, ev := Return(9, None), ASSERTED_ONLY, BareReturn(9);
    var body, leave := [s] + [exit], Seq(Emit(ev), Leave(Returned));
    assert body[1..] == [exit] && [exit][1..] == [] && OfStmt(exit) == leave;
    assert OfBlock([exit]) == Seq(leave, OfBlock([]));
    forall b ensures CanHit(m, OfBlock([exit]), b, ev, false) <==> !b { ReturnHits(ev, b); }
    assert OfBlock(body) == Seq(OfStmt(s), OfBlock([exit]));
    assert CanHit(m, OfBlock(body), false, ev, false)
      <==> exists b1 :: CanEnd(m, OfStmt(s), false, Fell, b1) && CanHit(m, OfBlock([exit]), b1, ev, false);
    if !noted { assert CanEnd(m, OfStmt(s), false, Fell, false); }
  }

  lemma ReturnHits(ev: Event, b: bool)
    ensures CanHit(ASSERTED_ONLY, Seq(Seq(Emit(ev), Leave(Returned)), OfBlock([])), b, ev, false) <==> !b
  {
    var leave := Seq(Emit(ev), Leave(Returned));
    assert OfBlock([]) == Leave(Fell);
    assert CanHit(ASSERTED_ONLY, Emit(ev), b, ev, false) <==> !b;
    assert CanHit(ASSERTED_ONLY, leave, b, ev, false) <==> !b;
    assert forall b1 :: !CanHit(ASSERTED_ONLY, Leave(Fell), b1, ev, false);
  }
}
