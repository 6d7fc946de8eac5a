/** `_release_line`: the line after which a caller-owned session is taken to be released, and what
    that line is worth in every run of the function. */
module Release {
  import opened Options
  import opened Python
  import opened Runs
  import opened Typestate
  import opened Calls
  import opened Written

  /** The calls `_release_line` looks at, in its order: those of the top-level simple statements. */
  function TopCalls(body: seq<Stmt>): seq<Call> {
    if body == [] then []
    else OwnCalls(body[0]) + TopCalls(body[1..])
  }

  /** The line of the last call that touches the session, if that call is a close. */
  function ReleaseOf(calls: seq<Call>): Option<nat> {
    if calls == [] then None
    else
      var last := calls[|calls|-1];
      match last.op
      case Close => Some(last.line)
      case Rearm => None
      case NoOp => ReleaseOf(calls[..|calls|-1])
  }

  lemma ReleaseStep(done: seq<Call>, c: Call)
    ensures ReleaseOf(done + [c]) ==
            match c.op case Close => Some(c.line) case Rearm => None case NoOp => ReleaseOf(done)
  {
    assert (done + [c])[..|done|] == done;
  }

  /** The top-level calls of one statement. */
  function OwnCalls(s: Stmt): seq<Call> {
    if Compound(s) then [] else Walk(Operands(s))
  }

  lemma {:induction false} TopCallsSnoc(body: seq<Stmt>, i: nat)
    requires i < |body|
    ensures TopCalls(body[..i+1]) == TopCalls(body[..i]) + OwnCalls(body[i])
  {
    assert body[..i+1][0] == body[0] && body[..i+1][1..] == body[1..][..i];
    if i > 0 {
      assert body[..i][1..] == body[1..][..i-1];
      TopCallsSnoc(body[1..], i - 1);
    }
  }

  method ReleaseLine(body: seq<Stmt>) returns (released: Option<nat>)
    ensures released == ReleaseOf(TopCalls(body))
  {
    released := None;
    for i := 0 to |body|
      invariant released == ReleaseOf(TopCalls(body[..i]))
    {
      TopCallsSnoc(body, i);
      if Compound(body[i]) {
        assert TopCalls(body[..i+1]) == TopCalls(body[..i]);
      } else {
        released := ReleaseWithin(Walk(Operands(body[i])), released, TopCalls(body[..i]));
      }
    }
    assert body[..|body|] == body;
  }

  /** The inner loop: the calls of one simple statement, met after those `before` it. */
  method ReleaseWithin(calls: seq<Call>, entry: Option<nat>, ghost before: seq<Call>) returns (released: Option<nat>)
    requires entry == ReleaseOf(before)
    ensures released == ReleaseOf(before + calls)
  {
    released := entry;
    assert before + calls[..0] == before;
    for j := 0 to |calls|
      invariant released == ReleaseOf(before + calls[..j])
    {
      assert before + calls[..j+1] == (before + calls[..j]) + [calls[j]];
      ReleaseStep(before + calls[..j], calls[j]);
      if calls[j].op == Close {
        released := Some(calls[j].line);
      } else if released.Some? && calls[j].op == Rearm {
        released := None;
      }
    }
    assert calls[..|calls|] == calls;
  }

  /** What the result says: it is the line of a close after which no top-level simple statement
      touches the session; without one, every such close is followed by a re-arming call. */
  lemma {:induction false} ReleaseIsLastClose(calls: seq<Call>)
    ensures match ReleaseOf(calls)
            case Some(line) => exists k :: ReleasedAt(calls, k) && calls[k].line == line
            case None => forall k :: !ReleasedAt(calls, k)
  {
    if calls != [] {
      var n := |calls| - 1;
      if calls[n].op == Close {
        assert ReleasedAt(calls, n);
      } else if calls[n].op == NoOp {
        ReleaseIsLastClose(calls[..n]);
        assert forall k :: ReleasedAt(calls[..n], k) <==> ReleasedAt(calls, k);
      }
    }
  }

  ghost predicate ReleasedAt(calls: seq<Call>, k: int) {
    && 0 <= k < |calls| && calls[k].op == Close
    && forall j | k < j < |calls| :: calls[j].op == NoOp
  }

  // ----- what the released line promises -----

  /** Whether the transaction is held: a close releases it, a database call re-arms it. */
  function Step(held: bool, ev: Event): bool {
    if !ev.Called? || ev.call.op == NoOp then held else ev.call.op == Rearm
  }

  const HELD: Machine := Step

  /** A slow call that the session-parameter rule passes over because of the line. */
  predicate Suppressed(c: Call, line: nat) {
    c.slow.Some? && c.line > line
  }

  /** No run of the body makes a suppressed call while the transaction is held. */
  ghost predicate SuppressionSound(body: seq<Stmt>, line: nat) {
    forall o, i: nat ::
      var t := Exec(OfBlock(body), o).trace;
      i < |t| && t[i].Called? && Suppressed(t[i].call, line) ==> !Bits(HELD, true, t[..i])
  }

  /** The check that decides it: does the analysis let a suppressed call meet a held transaction? */
  predicate LeaksPast(body: seq<Stmt>, line: nat) {
    exists c :: c in BlockCalls(body) && Suppressed(c, line) && CanHit(HELD, OfBlock(body), true, Called(c), true)
  }

  /** Suppressing after `line` is sound exactly when the body does not leak past it. */
  lemma SuppressionExactly(body: seq<Stmt>, line: nat)
    ensures SuppressionSound(body, line) <==> !LeaksPast(body, line)
  {
    var p := OfBlock(body);
    if LeaksPast(body, line) {
      var c :| c in BlockCalls(body) && Suppressed(c, line) && CanHit(HELD, p, true, Called(c), true);
      var o, i := HitWitness(HELD, p, true, Called(c), true);
      assert Exec(p, o).trace[i].call == c;
    }
    forall o, i: nat | i < |Exec(p, o).trace| && Exec(p, o).trace[i].Called? &&
                       Suppressed(Exec(p, o).trace[i].call, line) && !LeaksPast(body, line)
      ensures !Bits(HELD, true, Exec(p, o).trace[..i])
    {
      var t := Exec(p, o).trace;
      HitSound(HELD, p, true, o, i);
      HitIsEmitted(HELD, p, true, t[i], Bits(HELD, true, t[..i]));
      EmitsOfBlock(body);
    }
  }

  // ----- when the line can be trusted -----

  /** The calls that touch the session. */
  function SessionOps(calls: seq<Call>): seq<Call> {
    if calls == [] then []
    else (if calls[0].op == NoOp then [] else [calls[0]]) + SessionOps(calls[1..])
  }

  /** No call that touches the session sits in a branch of a conditional expression. */
  predicate Firm(e: Expr) {
    match e
    case Op(kids) => forall k | k in kids :: Firm(k)
    case Invoke(_, kids) => forall k | k in kids :: Firm(k)
    case IfExp(test, body, orelse) =>
      Firm(test) && SessionOps(Evaluated(body)) == [] && SessionOps(Evaluated(orelse)) == []
  }

  /** A simple statement touches the session at most once, unconditionally, and makes no slow call on
      a later line of the same statement. */
  predicate Steady(s: Stmt)
    requires !Compound(s)
  {
    && (forall e | e in Operands(s) :: Firm(e))
    && |SessionOps(OwnCalls(s))| <= 1
    && forall c, d | c in OwnCalls(s) && d in OwnCalls(s) && c.op != NoOp :: !Suppressed(d, c.line)
  }

  predicate AllSteady(body: seq<Stmt>) {
    forall s | s in body && !Compound(s) :: Steady(s)
  }

  /** Calls of earlier statements are on no later lines than those of later statements. */
  predicate LinesInOrder(body: seq<Stmt>) {
    body != [] ==>
      && (forall c, d | c in StmtCalls(body[0]) && d in BlockCalls(body[1..]) :: c.line <= d.line)
      && LinesInOrder(body[1..])
  }

  /** Every compound statement that may re-arm the session is followed by a top-level close. */
  predicate RearmsAreClosed(body: seq<Stmt>) {
    body != [] ==>
      && (Compound(body[0]) && (exists c :: c in StmtCalls(body[0]) && c.op == Rearm) ==>
            ReleaseOf(TopCalls(body[1..])).Some?)
      && RearmsAreClosed(body[1..])
  }

  function AfterCalls(held: bool, calls: seq<Call>): bool
    decreases calls
  {
    if calls == [] then held else AfterCalls(Step(held, Called(calls[0])), calls[1..])
  }

  lemma {:induction false} AfterCallsAppend(held: bool, a: seq<Call>, b: seq<Call>)
    ensures AfterCalls(held, a + b) == AfterCalls(AfterCalls(held, a), b)
    decreases a
  {
    if a == [] {
      assert a + b == b;
    } else {
      assert (a + b)[0] == a[0] && (a + b)[1..] == a[1..] + b;
      AfterCallsAppend(Step(held, Called(a[0])), a[1..], b);
    }
  }

  lemma {:induction false} SessionOpsDecide(held: bool, calls: seq<Call>)
    ensures AfterCalls(held, calls) == AfterCalls(held, SessionOps(calls))
    decreases calls
  {
    if calls != [] {
      SessionOpsDecide(Step(held, Called(calls[0])), calls[1..]);
      if calls[0].op != NoOp {
        assert SessionOps(calls)[1..] == SessionOps(calls[1..]);
      } else {
        assert SessionOps(calls) == SessionOps(calls[1..]);
      }
    }
  }

  lemma {:induction false} SessionOpsAppend(a: seq<Call>, b: seq<Call>)
    ensures SessionOps(a + b) == SessionOps(a) + SessionOps(b)
  {
    if a == [] {
      assert a + b == b;
    } else {
      assert (a + b)[0] == a[0] && (a + b)[1..] == a[1..] + b;
      SessionOpsAppend(a[1..], b);
    }
  }

  /** The release line remembers exactly the last call that touches the session. */
  lemma {:induction false} ReleaseAppend(a: seq<Call>, b: seq<Call>)
    ensures ReleaseOf(a + b) == if SessionOps(b) == [] then ReleaseOf(a) else ReleaseOf(b)
    decreases |b|
  {
    if b == [] {
      assert a + b == a;
    } else {
      var n := |b| - 1;
      assert (a + b)[..|a| + n] == a + b[..n] && b == b[..n] + [b[n]];
      ReleaseAppend(a, b[..n]);
      SessionOpsAppend(b[..n], [b[n]]);
    }
  }

  lemma {:induction false} ReleasedIffNotHeld(held: bool, calls: seq<Call>)
    ensures ReleaseOf(calls).Some? ==> !AfterCalls(held, calls)
    ensures ReleaseOf(calls).None? ==> AfterCalls(true, calls)
    decreases |calls|
  {
    if calls != [] {
      var n := |calls| - 1;
      assert calls == calls[..n] + [calls[n]];
      ReleasedIffNotHeld(held, calls[..n]);
      AfterCallsAppend(held, calls[..n], [calls[n]]);
      AfterCallsAppend(true, calls[..n], [calls[n]]);
      assert [calls[n]][1..] == [];
    }
  }

  /** Two orders of the same calls, at most one of which touches the session, leave it alike. */
  lemma OrderIsIrrelevant(held: bool, a: seq<Call>, b: seq<Call>)
    requires multiset(a) == multiset(b) && |SessionOps(a)| <= 1
    ensures AfterCalls(held, a) == AfterCalls(held, b)
  {
    SessionOpsDecide(held, a);
    SessionOpsDecide(held, b);
    SameSessionOps(a, b);
  }

  lemma SameSessionOps(a: seq<Call>, b: seq<Call>)
    requires multiset(a) == multiset(b) && |SessionOps(a)| <= 1
    ensures SessionOps(a) == SessionOps(b)
  {
    SessionOpsCount(a);
    SessionOpsCount(b);
    SingletonByCounts(SessionOps(a), SessionOps(b));
  }

  lemma SingletonByCounts(x: seq<Call>, y: seq<Call>)
    requires |x| <= 1 && forall c :: multiset(x)[c] == multiset(y)[c]
    ensures x == y
  {
    assert multiset(x) == multiset(y);
    assert |x| == |multiset(x)| == |multiset(y)| == |y|;
    if |x| == 1 {
      assert multiset(y)[x[0]] == 1;
    }
  }

  lemma {:induction false} SessionOpsCount(calls: seq<Call>)
    ensures forall c :: multiset(SessionOps(calls))[c] == if c.op == NoOp then 0 else multiset(calls)[c]
  {
    if calls != [] {
      assert calls == [calls[0]] + calls[1..];
      SessionOpsCount(calls[1..]);
    }
  }

  /** A firm expression that completes has had the effect of its calls, in order. */
  lemma {:induction false} FirmEnd(e: Expr, b: bool, b1: bool)
    requires Firm(e) && CanEnd(HELD, OfExpr(e), b, Fell, b1)
    ensures b1 == AfterCalls(b, Evaluated(e))
    decreases e, 0
  {
    match e
    case Op(kids) => FirmEnds(kids, b, b1);
    case Invoke(call, kids) =>
      var b0 :| CanEnd(HELD, OfExprs(kids), b, Fell, b0) &&
                CanEnd(HELD, Seq(Emit(Called(call)), MAY_RAISE), b0, Fell, b1);
      FirmEnds(kids, b, b0);
      EmitThenEnds(HELD, Called(call), MAY_RAISE, b0, Fell, b1);
      MayRaiseEnds(HELD, Step(b0, Called(call)));
      assert [call][1..] == [] && AfterCalls(b0, [call]) == b1;
      AfterCallsAppend(b, EvaluatedAll(kids), [call]);
    case IfExp(test, body, orelse) =>
      var b0 :| CanEnd(HELD, OfExpr(test), b, Fell, b0) &&
                CanEnd(HELD, Choose(OfExpr(body), OfExpr(orelse)), b0, Fell, b1);
      FirmEnd(test, b, b0);
      AfterCallsAppend(b, Evaluated(test) + Evaluated(body), Evaluated(orelse));
      AfterCallsAppend(b, Evaluated(test), Evaluated(body));
      IdleBranch(body, b0, b1);
      IdleBranch(orelse, b0, b1);
      SessionOpsDecide(b0, Evaluated(body));
      SessionOpsDecide(b0, Evaluated(orelse));
  }

  lemma {:induction false} FirmEnds(es: seq<Expr>, b: bool, b1: bool)
    requires (forall e | e in es :: Firm(e)) && CanEnd(HELD, OfExprs(es), b, Fell, b1)
    ensures b1 == AfterCalls(b, EvaluatedAll(es))
    decreases es, 0
  {
    if es != [] {
      var b0 :| CanEnd(HELD, OfExpr(es[0]), b, Fell, b0) && CanEnd(HELD, OfExprs(es[1..]), b0, Fell, b1);
      FirmEnd(es[0], b, b0);
      FirmEnds(es[1..], b0, b1);
      AfterCallsAppend(b, Evaluated(es[0]), EvaluatedAll(es[1..]));
    }
  }

  /** A branch without session calls is firm, and leaves the session as it was. */
  lemma IdleBranch(e: Expr, b: bool, b1: bool)
    requires SessionOps(Evaluated(e)) == []
    ensures CanEnd(HELD, OfExpr(e), b, Fell, b1) ==> b1 == b
    decreases e, 1
  {
    if CanEnd(HELD, OfExpr(e), b, Fell, b1) {
      IdleIsFirm(e);
      FirmEnd(e, b, b1);
      SessionOpsDecide(b, Evaluated(e));
    }
  }

  lemma {:induction false} IdleIsFirm(e: Expr)
    requires SessionOps(Evaluated(e)) == []
    ensures Firm(e)
    decreases e, 0
  {
    match e
    case Op(kids) => IdleAreFirm(kids);
    case Invoke(call, kids) => SessionOpsAppend(EvaluatedAll(kids), [call]); IdleAreFirm(kids);
    case IfExp(test, body, orelse) =>
      SessionOpsAppend(Evaluated(test) + Evaluated(body), Evaluated(orelse));
      SessionOpsAppend(Evaluated(test), Evaluated(body));
      IdleIsFirm(test);
  }

  lemma {:induction false} IdleAreFirm(es: seq<Expr>)
    requires SessionOps(EvaluatedAll(es)) == []
    ensures forall e | e in es :: Firm(e)
    decreases es, 0
  {
    if es != [] {
      SessionOpsAppend(Evaluated(es[0]), EvaluatedAll(es[1..]));
      IdleIsFirm(es[0]);
      IdleAreFirm(es[1..]);
    }
  }

  /** A steady statement that completes leaves the session as its calls do, in the walk's order. */
  lemma SteadyEnd(s: Stmt, b: bool, b1: bool)
    requires !Compound(s) && Steady(s) && CanEnd(HELD, OfStmt(s), b, Fell, b1)
    ensures b1 == AfterCalls(b, OwnCalls(s))
  {
    var e := Operands(s)[0];
    var rest := if s.Simple? then MAY_RAISE else Seq(Emit(Asserted(s.id)), MAY_RAISE);
    assert OfStmt(s) == Seq(OfExpr(e), rest);
    var b0 :| CanEnd(HELD, OfExpr(e), b, Fell, b0) && CanEnd(HELD, rest, b0, Fell, b1);
    if s.Assert? {
      EmitThenEnds(HELD, Asserted(s.id), MAY_RAISE, b0, Fell, b1);
    }
    MayRaiseEnds(HELD, b0);
    FirmEnd(e, b, b0);
    WalkIsEvaluated(Operands(s));
    Alone(e);
    OrderIsIrrelevant(b, OwnCalls(s), Evaluated(e));
  }

  // ----- soundness of the line -----

  /** A program that never re-arms the session keeps a released session released. */
  lemma {:induction false} Quiet(p: Prog)
    requires forall c | Called(c) in Emits(p) :: c.op != Rearm
    ensures forall x: Exit, b2 :: CanEnd(HELD, p, false, x, b2) ==> !b2
    ensures forall ev, b2 :: CanHit(HELD, p, false, ev, b2) ==> !b2
  {
    match p
    case Emit(_) =>
    case Leave(_) =>
    case Seq(p1, p2) => Quiet(p1); Quiet(p2);
    case Choose(p1, p2) => Quiet(p1); Quiet(p2);
    case Repeat(p1) =>
      Quiet(p1);
      assert !CanEnd(HELD, p1, false, Fell, true) && !Again(HELD, p1, false, true);
    case Branch(p1, p2, _, p3) => Quiet(p1); Quiet(p2); Quiet(p3);
    case Finally(p1, p2) => Quiet(p1); Quiet(p2);
    case Session(p1) => Quiet(p1);
  }

  lemma OwnCallsAreWritten(s: Stmt)
    requires !Compound(s)
    ensures forall c :: c in OwnCalls(s) <==> c in StmtCalls(s)
  {
    WalkIsEvaluated(Operands(s));
    forall c ensures c in OwnCalls(s) <==> c in EvaluatedAll(Operands(s)) {
      assert c in OwnCalls(s) <==> c in multiset(OwnCalls(s));
      assert c in EvaluatedAll(Operands(s)) <==> c in multiset(EvaluatedAll(Operands(s)));
    }
  }

  lemma {:induction false} TopCallsAreWritten(body: seq<Stmt>)
    ensures forall c | c in TopCalls(body) :: c in BlockCalls(body)
  {
    if body != [] {
      TopCallsAreWritten(body[1..]);
      if !Compound(body[0]) {
        OwnCallsAreWritten(body[0]);
      }
    }
  }

  /** The line is that of a close on it. */
  lemma {:induction false} ReleaseLineIsClose(calls: seq<Call>)
    requires ReleaseOf(calls).Some?
    ensures exists c :: c in calls && c.op == Close && c.line == ReleaseOf(calls).value
    decreases |calls|
  {
    var n := |calls| - 1;
    if calls[n].op == Close {
      assert calls[n] in calls;
    } else {
      ReleaseLineIsClose(calls[..n]);
    }
  }

  /** Neither a call of an earlier statement nor one of the closing statement is suppressed. */
  lemma NotSuppressedBefore(s: Stmt, rest: seq<Stmt>, line: nat, c: Call)
    requires (!Compound(s) ==> Steady(s)) && LinesInOrder([s] + rest) && c in StmtCalls(s)
    requires ReleaseOf(OwnCalls(s) + TopCalls(rest)) == Some(line)
    ensures !Suppressed(c, line)
  {
    ReleaseAppend(OwnCalls(s), TopCalls(rest));
    if SessionOps(TopCalls(rest)) != [] {
      ReleaseLineIsClose(TopCalls(rest));
      TopCallsAreWritten(rest);
      assert ([s] + rest)[1..] == rest;
    } else {
      ReleaseLineIsClose(OwnCalls(s));
      OwnCallsAreWritten(s);
    }
  }

  lemma {:induction false} NeverRearmed(body: seq<Stmt>)
    requires RearmsAreClosed(body) && SessionOps(TopCalls(body)) == []
    ensures forall c | c in BlockCalls(body) :: c.op != Rearm
  {
    if body != [] {
      SessionOpsAppend(OwnCalls(body[0]), TopCalls(body[1..]));
      ReleaseAppend([], TopCalls(body[1..]));
      assert [] + TopCalls(body[1..]) == TopCalls(body[1..]);
      NeverRearmed(body[1..]);
      if !Compound(body[0]) {
        OwnCallsAreWritten(body[0]);
        SessionOpsCount(OwnCalls(body[0]));
        forall c | c in StmtCalls(body[0]) ensures c.op != Rearm {
          assert multiset(SessionOps(OwnCalls(body[0])))[c] == 0 && c in multiset(OwnCalls(body[0]));
        }
      }
    }
  }

  lemma {:induction false} NoLeak(body: seq<Stmt>, line: nat, b: bool, c: Call)
    requires AllSteady(body) && LinesInOrder(body) && RearmsAreClosed(body)
    requires ReleaseOf(TopCalls(body)) == Some(line) && Suppressed(c, line)
    ensures !CanHit(HELD, OfBlock(body), b, Called(c), true)
  {
    var s, rest := body[0], body[1..];
    ReleaseAppend(OwnCalls(s), TopCalls(rest));
    EmitsOfStmt(s);
    assert body == [s] + rest;
    if CanHit(HELD, OfBlock(body), b, Called(c), true) {
      if CanHit(HELD, OfStmt(s), b, Called(c), true) {
        HitIsEmitted(HELD, OfStmt(s), b, Called(c), true);
        NotSuppressedBefore(s, rest, line, c);
      } else {
        var b1 :| CanEnd(HELD, OfStmt(s), b, Fell, b1) && CanHit(HELD, OfBlock(rest), b1, Called(c), true);
        if SessionOps(TopCalls(rest)) != [] {
          NoLeak(rest, line, b1, c);
        } else {
          SteadyEnd(s, b, b1);
          ReleasedIffNotHeld(b, OwnCalls(s));
          NeverRearmed(rest);
          EmitsOfBlock(rest);
          Quiet(OfBlock(rest));
        }
      }
    }
  }

  /** Suppression is sound when simple statements are steady, lines follow the order of statements,
      and every compound statement that may re-arm the session is followed by a top-level close. */
  lemma TidySuppressionIsSound(body: seq<Stmt>, line: nat)
    requires ReleaseOf(TopCalls(body)) == Some(line)
    requires AllSteady(body) && LinesInOrder(body) && RearmsAreClosed(body)
    ensures SuppressionSound(body, line)
  {
    SuppressionExactly(body, line);
    forall c | Suppressed(c, line) ensures !CanHit(HELD, OfBlock(body), true, Called(c), true) {
      NoLeak(body, line, true, c);
    }
  }

  /** On straight-line code the line is exact: there is one iff the code, when it completes, leaves
      the transaction released. */
  lemma StraightLineIsExact(body: seq<Stmt>, held: bool)
    requires forall s | s in body :: (s.Simple? || s.Assert?) && Steady(s)
    ensures CanEnd(HELD, OfBlock(body), true, Fell, held) <==> held == ReleaseOf(TopCalls(body)).None?
  {
    StraightLineEnds(body, true, held);
    ReleasedIffNotHeld(true, TopCalls(body));
  }

  lemma {:induction false} StraightLineEnds(body: seq<Stmt>, b: bool, b1: bool)
    requires forall s | s in body :: (s.Simple? || s.Assert?) && Steady(s)
    ensures CanEnd(HELD, OfBlock(body), b, Fell, b1) <==> b1 == AfterCalls(b, TopCalls(body))
  {
    if body != [] {
      var s, rest := body[0], body[1..];
      var b0 := AfterCalls(b, OwnCalls(s));
      var b' := SimpleFalls(HELD, s, b);
      SteadyEnd(s, b, b');
      StraightLineEnds(rest, b0, b1);
      AfterCallsAppend(b, OwnCalls(s), TopCalls(rest));
      if CanEnd(HELD, OfBlock(body), b, Fell, b1) {
        var b2 :| CanEnd(HELD, OfStmt(s), b, Fell, b2) && CanEnd(HELD, OfBlock(rest), b2, Fell, b1);
        SteadyEnd(s, b, b2);
      }
    }
  }

  lemma SimpleFalls(m: Machine, s: Stmt, b: bool) returns (b1: bool)
    requires s.Simple? || s.Assert?
    ensures CanEnd(m, OfStmt(s), b, Fell, b1)
  {
    if s.Simple? {
      b1 := ExprFalls(m, s.e, b);
      MayRaiseEnds(m, b1);
      SeqEnds(m, OfExpr(s.e), MAY_RAISE, b, b1, Fell, b1);
    } else {
      var b0 := ExprFalls(m, s.test, b);
      b1 := m(b0, Asserted(s.id));
      MayRaiseEnds(m, b1);
      EmitThenEnds(m, Asserted(s.id), MAY_RAISE, b0, Fell, b1);
      SeqEnds(m, OfExpr(s.test), Seq(Emit(Asserted(s.id)), MAY_RAISE), b, b0, Fell, b1);
    }
  }

  /** A close that is written only inside compound statements never yields a release. */
  lemma {:induction false} NestedCloseIsNoRelease(body: seq<Stmt>)
    requires forall s, c | s in body && !Compound(s) && c in StmtCalls(s) :: c.op != Close
    ensures ReleaseOf(TopCalls(body)).None?
  {
    if body != [] {
      NestedCloseIsNoRelease(body[1..]);
      ReleaseAppend(OwnCalls(body[0]), TopCalls(body[1..]));
      if ReleaseOf(OwnCalls(body[0])).Some? {
        ReleaseLineIsClose(OwnCalls(body[0]));
        OwnCallsAreWritten(body[0]);
      }
    }
  }
}
