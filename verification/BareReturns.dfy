/** `_bare_returns`: the lines of `return` statements that a test may reach before it has asserted or
    reported anything. */
module BareReturns {
  import opened Options
  import opened Python
  import opened Runs
  import opened Typestate
  import opened Calls

  predicate ExprEvidence(e: Expr) {
    exists c :: c in Evaluated(e) && c.reports
  }

  /** Running the statement is taken to assert or report something. */
  predicate UnconditionalEvidence(s: Stmt) {
    match s
    case Assert(_, _) => true
    case If(_, _, _) => false
    case For(_, _, _, _) => false
    case While(_, _, _) => false
    case With(items, body) =>
      (exists i :: i in items && ExprEvidence(i.context)) || exists b :: b in body && UnconditionalEvidence(b)
    case Try(body, _, _, _) => exists b :: b in body && UnconditionalEvidence(b)
    case _ => exists e :: e in Operands(s) && ExprEvidence(e)
  }

  predicate Evidence(ss: seq<Stmt>) {
    exists s :: s in ss && UnconditionalEvidence(s)
  }

  /** Every statement list under a statement, at every depth. */
  function Lists(s: Stmt): seq<seq<Stmt>>
    decreases s, 0
  {
    match s
    case If(_, body, orelse) => BlockLists(body) + BlockLists(orelse)
    case For(_, _, body, orelse) => BlockLists(body) + BlockLists(orelse)
    case While(_, body, orelse) => BlockLists(body) + BlockLists(orelse)
    case With(_, body) => BlockLists(body)
    case Try(body, handlers, orelse, finalbody) =>
      BlockLists(body) + BlockLists(orelse) + BlockLists(finalbody) + HandlerLists(handlers)
    case _ => []
  }

  /** A block, and every list under its statements. */
  function BlockLists(ss: seq<Stmt>): seq<seq<Stmt>>
    decreases ss, 1
  {
    [ss] + InnerLists(ss)
  }

  function InnerLists(ss: seq<Stmt>): seq<seq<Stmt>>
    decreases ss, 0
  {
    if ss == [] then [] else Lists(ss[0]) + InnerLists(ss[1..])
  }

  function HandlerLists(hs: seq<Handler>): seq<seq<Stmt>>
    decreases hs, 0
  {
    if hs == [] then [] else BlockLists(hs[0].body) + HandlerLists(hs[1..])
  }

  // ----- the walk -----

  function StmtSize(s: Stmt): nat
    decreases s, 0
  {
    match s
    case If(_, body, orelse) => 1 + BlockSize(body) + BlockSize(orelse)
    case For(_, _, body, orelse) => 1 + BlockSize(body) + BlockSize(orelse)
    case While(_, body, orelse) => 1 + BlockSize(body) + BlockSize(orelse)
    case With(_, body) => 1 + BlockSize(body)
    case Try(body, handlers, orelse, finalbody) =>
      1 + BlockSize(body) + BlockSize(orelse) + BlockSize(finalbody) + HandlersSize(handlers)
    case _ => 1
  }

  function BlockSize(ss: seq<Stmt>): nat
    decreases ss, 0
  {
    if ss == [] then 0 else StmtSize(ss[0]) + BlockSize(ss[1..])
  }

  function HandlersSize(hs: seq<Handler>): nat
    decreases hs, 0
  {
    if hs == [] then 0 else BlockSize(hs[0].body) + HandlersSize(hs[1..])
  }

  /** A list under a statement is smaller than the statement: the overlapping recursion terminates. */
  lemma {:induction false} ListsAreSmaller(s: Stmt)
    ensures forall k | k in Lists(s) :: BlockSize(k) < StmtSize(s)
    decreases s, 0
  {
    match s
    case If(_, body, orelse) => BlockListsAreSmaller(body); BlockListsAreSmaller(orelse);
    case For(_, _, body, orelse) => BlockListsAreSmaller(body); BlockListsAreSmaller(orelse);
    case While(_, body, orelse) => BlockListsAreSmaller(body); BlockListsAreSmaller(orelse);
    case With(_, body) => BlockListsAreSmaller(body);
    case Try(body, handlers, orelse, finalbody) =>
      BlockListsAreSmaller(body);
      HandlerListsAreSmaller(handlers);
      BlockListsAreSmaller(orelse);
      BlockListsAreSmaller(finalbody);
    case _ =>
  }

  lemma {:induction false} BlockListsAreSmaller(ss: seq<Stmt>)
    ensures forall k | k in BlockLists(ss) :: BlockSize(k) <= BlockSize(ss)
    decreases ss, 0
  {
    if ss != [] {
      ListsAreSmaller(ss[0]);
      BlockListsAreSmaller(ss[1..]);
      assert forall k | k in InnerLists(ss[1..]) :: k in BlockLists(ss[1..]);
    }
  }

  lemma {:induction false} HandlerListsAreSmaller(hs: seq<Handler>)
    ensures forall k | k in HandlerLists(hs) :: BlockSize(k) <= HandlersSize(hs)
    decreases hs, 0
  {
    if hs != [] {
      BlockListsAreSmaller(hs[0].body);
      HandlerListsAreSmaller(hs[1..]);
    }
  }

  predicate IsBare(s: Stmt, line: nat) {
    s == Return(line, None)
  }

  /** What the walk reports: `seen` says whether there was evidence before. */
  ghost predicate Walked(ss: seq<Stmt>, seen: bool, line: nat)
    decreases BlockSize(ss), |ss|
  {
    ss != [] &&
    (|| (IsBare(ss[0], line) && !seen)
     || (ListsAreSmaller(ss[0]); exists k :: k in Lists(ss[0]) && Walked(k, seen, line))
     || Walked(ss[1..], seen || UnconditionalEvidence(ss[0]), line))
  }

  /** The walk of one function body: `out` is the list the recursion appends to. */
  class Walker {
    var out: seq<nat>

    constructor ()
      ensures out == []
    {
      out := [];
    }

    method WalkBlock(ss: seq<Stmt>, seen0: bool)
      modifies this
      ensures forall line :: line in out <==> line in old(out) || Walked(ss, seen0, line)
      decreases BlockSize(ss), |ss|
    {
      var seen := seen0;
      for i := 0 to |ss|
        invariant forall line :: (line in out || Walked(ss[i..], seen, line)) <==> (line in old(out) || Walked(ss, seen0, line))
        invariant BlockSize(ss[i..]) <= BlockSize(ss)
      {
        assert ss[i..][0] == ss[i] && ss[i..][1..] == ss[i+1..];
        if ss[i].Return? && ss[i].value.None? && !seen {
          out := out + [ss[i].line];
        }
        ghost var before := out;
        ListsAreSmaller(ss[i]);
        var blocks := Lists(ss[i]);
        for j := 0 to |blocks|
          invariant forall line :: line in out <==> line in before || exists q :: 0 <= q < j && Walked(blocks[q], seen, line)
        {
          WalkBlock(blocks[j], seen);
        }
        if UnconditionalEvidence(ss[i]) {
          seen := true;
        }
      }
    }
  }

  // ----- the exact verdict -----

  /** The line of a bare return in `ss` itself, with no evidence earlier in `ss`. */
  predicate Direct(ss: seq<Stmt>, line: nat) {
    exists j :: 0 <= j < |ss| && IsBare(ss[j], line) && !Evidence(ss[..j])
  }

  /** A list under a list is a list under the statement. */
  lemma {:induction false} ListsNest(s: Stmt, k: seq<Stmt>, t: Stmt)
    requires k in Lists(s) && t in k
    ensures forall l | l in Lists(t) :: l in Lists(s)
    decreases s, 0
  {
    match s
    case If(_, body, orelse) => BlockNests(if k in BlockLists(body) then body else orelse, k, t);
    case For(_, _, body, orelse) => BlockNests(if k in BlockLists(body) then body else orelse, k, t);
    case While(_, body, orelse) => BlockNests(if k in BlockLists(body) then body else orelse, k, t);
    case With(_, body) => BlockNests(body, k, t);
    case Try(body, handlers, orelse, finalbody) =>
      if k in HandlerLists(handlers) {
        HandlersNest(handlers, k, t);
      } else {
        BlockNests(if k in BlockLists(body) then body else if k in BlockLists(orelse) then orelse else finalbody, k, t);
      }
  }

  lemma {:induction false} BlockNests(ss: seq<Stmt>, k: seq<Stmt>, t: Stmt)
    requires k in BlockLists(ss) && t in k
    ensures forall l | l in Lists(t) :: l in BlockLists(ss)
    decreases ss, 1
  {
    if k == ss {
      MemberLists(ss, t);
    } else {
      InnerNests(ss, k, t);
    }
  }

  lemma {:induction false} InnerNests(ss: seq<Stmt>, k: seq<Stmt>, t: Stmt)
    requires k in InnerLists(ss) && t in k
    ensures forall l | l in Lists(t) :: l in InnerLists(ss)
    decreases ss, 0
  {
    if k in Lists(ss[0]) { ListsNest(ss[0], k, t); } else { InnerNests(ss[1..], k, t); }
  }

  lemma {:induction false} HandlersNest(hs: seq<Handler>, k: seq<Stmt>, t: Stmt)
    requires k in HandlerLists(hs) && t in k
    ensures forall l | l in Lists(t) :: l in HandlerLists(hs)
    decreases hs, 0
  {
    if k in BlockLists(hs[0].body) { BlockNests(hs[0].body, k, t); } else { HandlersNest(hs[1..], k, t); }
  }

  lemma {:induction false} MemberLists(ss: seq<Stmt>, t: Stmt)
    requires t in ss
    ensures forall l | l in Lists(t) :: l in InnerLists(ss)
  {
    if t != ss[0] { MemberLists(ss[1..], t); }
  }

  /** The code's verdict: a bare return is reported iff neither the statements before it in its own
      block nor those before it in the outermost block hold unconditional evidence. Blocks in between
      do not count. */
  predicate Verdict(ss: seq<Stmt>, line: nat) {
    exists i :: 0 <= i < |ss| && !Evidence(ss[..i]) &&
                (IsBare(ss[i], line) || exists k :: k in Lists(ss[i]) && Direct(k, line))
  }

  lemma VerdictCons(ss: seq<Stmt>, line: nat)
    requires ss != []
    ensures Verdict(ss, line) <==>
            || IsBare(ss[0], line)
            || (exists k :: k in Lists(ss[0]) && Direct(k, line))
            || (!UnconditionalEvidence(ss[0]) && Verdict(ss[1..], line))
  {
    if !UnconditionalEvidence(ss[0]) && Verdict(ss[1..], line) {
      var i :| 0 <= i < |ss[1..]| && !Evidence(ss[1..][..i]) &&
               (IsBare(ss[1..][i], line) || exists k :: k in Lists(ss[1..][i]) && Direct(k, line));
      assert ss[..i+1] == [ss[0]] + ss[1..][..i] && ss[i+1] == ss[1..][i];
      assert !Evidence(ss[..i+1]);
    }
    if Verdict(ss, line) {
      var i :| 0 <= i < |ss| && !Evidence(ss[..i]) &&
               (IsBare(ss[i], line) || exists k :: k in Lists(ss[i]) && Direct(k, line));
      if i > 0 {
        assert ss[0] in ss[..i] && ss[1..][i-1] == ss[i];
        assert forall s :: s in ss[1..][..i-1] ==> s in ss[..i];
        assert !Evidence(ss[1..][..i-1]);
      }
    }
    assert !Evidence(ss[..0]);
  }

  lemma {:induction false} WalkIsVerdict(ss: seq<Stmt>, seen: bool, line: nat)
    ensures Walked(ss, seen, line) <==> !seen && Verdict(ss, line)
    decreases BlockSize(ss), |ss|
  {
    if ss != [] {
      var s := ss[0];
      ListsAreSmaller(s);
      VerdictCons(ss, line);
      WalkIsVerdict(ss[1..], seen || UnconditionalEvidence(s), line);
      forall k | k in Lists(s) ensures Walked(k, seen, line) <==> !seen && Verdict(k, line) {
        WalkIsVerdict(k, seen, line);
      }
      forall k | k in Lists(s) && Verdict(k, line) ensures exists l :: l in Lists(s) && Direct(l, line) {
        VerdictWithin(s, k, line);
      }
      forall k | k in Lists(s) && Direct(k, line) ensures Verdict(k, line) {
        var j :| 0 <= j < |k| && IsBare(k[j], line) && !Evidence(k[..j]);
      }
    }
  }

  lemma VerdictWithin(s: Stmt, k: seq<Stmt>, line: nat)
    requires k in Lists(s) && Verdict(k, line)
    ensures exists l :: l in Lists(s) && Direct(l, line)
  {
    var i :| 0 <= i < |k| && !Evidence(k[..i]) &&
             (IsBare(k[i], line) || exists l :: l in Lists(k[i]) && Direct(l, line));
    if IsBare(k[i], line) {
      assert Direct(k, line);
    } else {
      ListsNest(s, k, k[i]);
    }
  }

  /** The method reports exactly the lines of the verdict. */
  method BareReturns(body: seq<Stmt>) returns (lines: set<nat>)
    ensures forall line :: line in lines <==> Verdict(body, line)
  {
    var w := new Walker();
    w.WalkBlock(body, false);
    lines := set line | line in w.out;
    forall line ensures line in lines <==> Verdict(body, line) {
      WalkIsVerdict(body, false, line);
    }
  }

  // ----- soundness over runs -----

  /** Remembers whether an assertion or a reporting call has run, or an exception was raised. */
  function Note(noted: bool, ev: Event): bool {
    noted || Notable(ev)
  }

  const NOTED: Machine := Note

  predicate Notable(ev: Event) {
    ev.Asserted? || ev.Raising? || (ev.Called? && ev.call.reports)
  }

  ghost predicate SilentAt(t: seq<Event>, line: nat, i: nat) {
    i < |t| && t[i] == BareReturn(line) && forall j | 0 <= j < i :: !Notable(t[j])
  }

  /** Some exception-free run reaches the bare return before anything was asserted or reported. */
  ghost predicate SilentReturn(body: seq<Stmt>, line: nat) {
    exists o, i :: SilentAt(Exec(OfBlock(body), o).trace, line, i)
  }

  /** Evaluating the expression to the end certainly reports. */
  predicate Sure(e: Expr) {
    match e
    case Op(kids) => exists k :: k in kids && Sure(k)
    case Invoke(call, kids) => call.reports || exists k :: k in kids && Sure(k)
    case IfExp(test, body, orelse) => Sure(test) || (Sure(body) && Sure(orelse))
  }

  predicate SureIfAny(e: Expr) {
    ExprEvidence(e) ==> Sure(e)
  }

  /** No evidence hides in one branch of a conditional expression. */
  predicate NoHalfEvidence(s: Stmt)
    decreases s, 0
  {
    match s
    case If(_, body, orelse) => AllWhole(body) && AllWhole(orelse)
    case For(_, _, body, orelse) => AllWhole(body) && AllWhole(orelse)
    case While(_, body, orelse) => AllWhole(body) && AllWhole(orelse)
    case With(items, body) => (forall i | i in items :: SureIfAny(i.context)) && AllWhole(body)
    case Try(body, handlers, orelse, finalbody) =>
      AllWhole(body) && (forall h | h in handlers :: AllWhole(h.body)) && AllWhole(orelse) && AllWhole(finalbody)
    case _ => forall e | e in Operands(s) :: SureIfAny(e)
  }

  predicate AllWhole(ss: seq<Stmt>)
    decreases ss, 1
  {
    forall s | s in ss :: NoHalfEvidence(s)
  }

  /** What was noted stays noted. */
  lemma {:induction false} StaysNoted(p: Prog)
    ensures forall x, b :: CanEnd(NOTED, p, true, x, b) ==> b
    ensures forall ev, b :: CanHit(NOTED, p, true, ev, b) ==> b
  {
    match p
    case Emit(_) =>
    case Leave(_) =>
    case Seq(p1, p2) => StaysNoted(p1); StaysNoted(p2);
    case Choose(p1, p2) => StaysNoted(p1); StaysNoted(p2);
    case Repeat(p1) =>
      StaysNoted(p1);
      assert !CanEnd(NOTED, p1, true, Fell, false) && !Again(NOTED, p1, true, false);
    case Branch(p1, p2, _, p3) => StaysNoted(p1); StaysNoted(p2); StaysNoted(p3);
    case Finally(p1, p2) => StaysNoted(p1); StaysNoted(p2);
    case Session(p1) => StaysNoted(p1);
  }

  /** A program raises only after the exception was noted. */
  predicate Loud(p: Prog) {
    match p
    case Emit(_) => true
    case Leave(how) => how != Raised
    case Seq(a, b) => a == Emit(Raising) || (Loud(a) && Loud(b))
    case Choose(a, b) => Loud(a) && Loud(b)
    case Repeat(a) => Loud(a)
    case Branch(a, b, how, c) => Loud(a) && Loud(b) && (how == Raised || Loud(c))
    case Finally(a, b) => Loud(a) && Loud(b)
    case Session(a) => Loud(a)
  }

  lemma {:induction false} LoudRaises(p: Prog, b: bool)
    requires Loud(p)
    ensures !CanEnd(NOTED, p, b, Raised, false)
  {
    StaysNotedEverywhere();
    match p
    case Emit(_) =>
    case Leave(_) =>
    case Seq(p1, p2) => if p1 != Emit(Raising) { LoudRaises(p1, b); LoudRaises(p2, true); LoudRaises(p2, false); }
    case Choose(p1, p2) => LoudRaises(p1, b); LoudRaises(p2, b);
    case Repeat(p1) => LoudRaises(p1, true); LoudRaises(p1, false);
    case Branch(p1, p2, how, p3) =>
      LoudRaises(p1, b);
      LoudRaises(p2, true);
      LoudRaises(p2, false);
      if how != Raised { LoudRaises(p3, true); LoudRaises(p3, false); }
    case Finally(p1, p2) => LoudRaises(p1, b); LoudRaises(p2, true); LoudRaises(p2, false);
    case Session(p1) => LoudRaises(p1, b);
  }

  lemma StaysNotedEverywhere()
    ensures forall p, x :: !CanEnd(NOTED, p, true, x, false)
    ensures forall p, ev :: !CanHit(NOTED, p, true, ev, false)
  {
    forall p, x ensures !CanEnd(NOTED, p, true, x, false) { StaysNoted(p); }
    forall p, ev ensures !CanHit(NOTED, p, true, ev, false) { StaysNoted(p); }
  }

  lemma MayRaiseIsLoud()
    ensures Loud(RAISE_NOW) && Loud(MAY_RAISE)
  {
    assert Loud(Leave(Fell));
  }

  lemma {:induction false} ExprIsLoud(e: Expr)
    ensures Loud(OfExpr(e)) && forall ev | ev in Emits(OfExpr(e)) :: ev.Called? || ev.Raising?
    decreases e, 0
  {
    match e
    case Op(kids) => ExprsAreLoud(kids);
    case Invoke(call, kids) =>
      ExprsAreLoud(kids);
      var rest := Seq(Emit(Called(call)), MAY_RAISE);
      assert Emits(RAISE_NOW) == {Raising} && Emits(MAY_RAISE) == {Raising};
      MayRaiseIsLoud();
      assert Emits(rest) == {Called(call), Raising} && Loud(rest);
    case IfExp(test, body, orelse) => ExprIsLoud(test); ExprIsLoud(body); ExprIsLoud(orelse);
  }

  lemma {:induction false} ExprsAreLoud(es: seq<Expr>)
    ensures Loud(OfExprs(es)) && forall ev | ev in Emits(OfExprs(es)) :: ev.Called? || ev.Raising?
    decreases es, 0
  {
    if es != [] { ExprIsLoud(es[0]); ExprsAreLoud(es[1..]); }
  }

  lemma {:induction false} StmtIsLoud(s: Stmt)
    ensures Loud(OfStmt(s))
    decreases s, 0
  {
    match s
    case Simple(e) => ExprIsLoud(e); MayRaiseIsLoud();
    case Assert(id, test) => ExprIsLoud(test); MayRaiseIsLoud(); assert Loud(Seq(Emit(Asserted(id)), MAY_RAISE));
    case Return(_, value) => assert Loud(Leave(Returned)); if value.Some? { ExprIsLoud(value.value); }
    case Raise(e) => ExprIsLoud(e); MayRaiseIsLoud();
    case Break =>
    case Continue =>
    case If(test, body, orelse) => ExprIsLoud(test); BlockIsLoud(body); BlockIsLoud(orelse); IfIsLoud(s);
    case For(iter, _, body, orelse) => ExprIsLoud(iter); BlockIsLoud(body); BlockIsLoud(orelse); ForIsLoud(s);
    case While(test, body, orelse) => ExprIsLoud(test); BlockIsLoud(body); BlockIsLoud(orelse); WhileIsLoud(s);
    case With(items, body) => BlockIsLoud(body); WithIsLoud(items, OfBlock(body));
    case Try(body, handlers, orelse, finalbody) =>
      BlockIsLoud(body);
      BlockIsLoud(orelse);
      BlockIsLoud(finalbody);
      var guarded := Branch(OfBlock(body), OfBlock(orelse), Raised, OfHandlers(handlers));
      assert Loud(guarded) && OfStmt(s) == Finally(guarded, OfBlock(finalbody));
  }

  lemma IfIsLoud(s: Stmt)
    requires s.If? && Loud(OfExpr(s.test)) && Loud(OfBlock(s.body)) && Loud(OfBlock(s.orelse))
    ensures Loud(OfStmt(s))
  {
    var taken := Seq(Emit(Entered(BareIf)), OfBlock(s.body));
    assert Loud(taken);
  }

  lemma ForIsLoud(s: Stmt)
    requires s.For? && Loud(OfExpr(s.iter)) && Loud(OfBlock(s.body)) && Loud(OfBlock(s.orelse))
    ensures Loud(OfStmt(s))
  {
    var inner := if s.fixed then OfBlock(s.body) else Seq(Emit(Entered(DynamicLoop)), OfBlock(s.body));
    var pass := Pass(inner);
    var passes := if s.fixed then Seq(pass, Repeat(pass)) else Repeat(pass);
    assert Loud(inner);
    assert Loud(Leave(Fell)) && Loud(pass);
    assert Loud(Repeat(pass)) && Loud(passes);
    assert Loud(Loop(passes, OfBlock(s.orelse)));
  }

  lemma WhileIsLoud(s: Stmt)
    requires s.While? && Loud(OfExpr(s.test)) && Loud(OfBlock(s.body)) && Loud(OfBlock(s.orelse))
    ensures Loud(OfStmt(s))
  {
    var pass := Pass(Seq(OfExpr(s.test), OfBlock(s.body)));
    assert Loud(Leave(Fell)) && Loud(Seq(OfExpr(s.test), OfBlock(s.body))) && Loud(pass);
    assert Loud(Repeat(pass)) && Loud(Seq(OfExpr(s.test), OfBlock(s.orelse)));
  }

  lemma {:induction false} WithIsLoud(items: seq<WithItem>, body: Prog)
    requires Loud(body)
    ensures Loud(OfWith(items, body))
  {
    if items != [] {
      WithIsLoud(items[1..], body);
      ExprIsLoud(items[0].context);
      var inner := OfWith(items[1..], body);
      var block := if items[0].opens then Session(inner) else inner;
      assert Loud(block) && Loud(Leave(Fell));
      assert Loud(Swallow(block));
    }
  }

  lemma {:induction false} BlockIsLoud(ss: seq<Stmt>)
    ensures Loud(OfBlock(ss))
    decreases ss, 0
  {
    if ss != [] { StmtIsLoud(ss[0]); BlockIsLoud(ss[1..]); }
  }

  // ----- evidence that is sure is noted -----

  lemma {:induction false} SureEnds(e: Expr, b: bool)
    requires Sure(e)
    ensures !CanEnd(NOTED, OfExpr(e), b, Fell, false)
    decreases e, 0
  {
    StaysNotedEverywhere();
    match e
    case Op(kids) => SuresEnd(kids, b);
    case Invoke(call, kids) =>
      var rest := Seq(Emit(Called(call)), MAY_RAISE);
      forall b0 ensures call.reports ==> !CanEnd(NOTED, rest, b0, Fell, false) {
        EmitThenEnds(NOTED, Called(call), MAY_RAISE, b0, Fell, false);
      }
      if !call.reports { SuresEnd(kids, b); }
    case IfExp(test, body, orelse) =>
      if Sure(test) {
        SureEnds(test, b);
      } else {
        SureEnds(body, true);
        SureEnds(orelse, true);
        SureEnds(body, false);
        SureEnds(orelse, false);
        assert forall b0 :: !CanEnd(NOTED, Choose(OfExpr(body), OfExpr(orelse)), b0, Fell, false);
      }
  }

  lemma {:induction false} SuresEnd(es: seq<Expr>, b: bool)
    requires exists e :: e in es && Sure(e)
    ensures !CanEnd(NOTED, OfExprs(es), b, Fell, false)
    decreases es, 0
  {
    StaysNotedEverywhere();
    if Sure(es[0]) {
      SureEnds(es[0], b);
    } else {
      SuresEnd(es[1..], true);
      SuresEnd(es[1..], false);
    }
  }

  /** A statement taken for evidence has left a note when it completes. */
  lemma {:induction false} EvidenceEnds(s: Stmt, b: bool)
    requires UnconditionalEvidence(s) && NoHalfEvidence(s)
    ensures !CanEnd(NOTED, OfStmt(s), b, Fell, false)
    decreases s, 0
  {
    StaysNotedEverywhere();
    match s
    case With(items, body) =>
      if Evidence(body) {
        forall b0 ensures !CanEnd(NOTED, OfBlock(body), b0, Fell, false) { BlockEvidenceEnds(body, b0); }
      }
      BlockIsLoud(body);
      WithEvidenceEnds(items, OfBlock(body), b);
    case Try(body, handlers, orelse, finalbody) =>
      BlockEvidenceEnds(body, b);
      BlockIsLoud(body);
      LoudRaises(OfBlock(body), b);
      var guarded := Branch(OfBlock(body), OfBlock(orelse), Raised, OfHandlers(handlers));
      assert !CanEnd(NOTED, guarded, b, Fell, false);
      assert OfStmt(s) == Finally(guarded, OfBlock(finalbody));
    case Assert(id, test) =>
      forall b0 ensures !CanEnd(NOTED, Seq(Emit(Asserted(id)), MAY_RAISE), b0, Fell, false) {
        EmitThenEnds(NOTED, Asserted(id), MAY_RAISE, b0, Fell, false);
      }
    case Simple(e) => SureEnds(e, b);
    case Return(_, value) =>
    case Raise(e) =>
  }

  lemma {:induction false} BlockEvidenceEnds(ss: seq<Stmt>, b: bool)
    requires Evidence(ss) && AllWhole(ss)
    ensures !CanEnd(NOTED, OfBlock(ss), b, Fell, false)
    decreases ss, 0
  {
    StaysNotedEverywhere();
    if UnconditionalEvidence(ss[0]) {
      EvidenceEnds(ss[0], b);
    } else {
      BlockEvidenceEnds(ss[1..], true);
      BlockEvidenceEnds(ss[1..], false);
    }
  }

  lemma {:induction false} WithEvidenceEnds(items: seq<WithItem>, body: Prog, b: bool)
    requires Loud(body)
    requires (exists i :: i in items && Sure(i.context)) || forall b0 :: !CanEnd(NOTED, body, b0, Fell, false)
    ensures !CanEnd(NOTED, OfWith(items, body), b, Fell, false)
    decreases items
  {
    StaysNotedEverywhere();
    if items != [] {
      var inner := OfWith(items[1..], body);
      var block := if items[0].opens then Session(inner) else inner;
      if Sure(items[0].context) {
        SureEnds(items[0].context, b);
      } else {
        forall b0 ensures !CanEnd(NOTED, inner, b0, Fell, false) { WithEvidenceEnds(items[1..], body, b0); }
        WithIsLoud(items[1..], body);
        forall b0 ensures !CanEnd(NOTED, inner, b0, Raised, false) { LoudRaises(inner, b0); }
        SwallowNoted(inner);
        SessionIsTransparent(inner);
        SwallowNoted(Session(inner));
        assert forall b0 :: !CanEnd(NOTED, Swallow(block), b0, Fell, false);
      }
    }
  }

  lemma SwallowNoted(p: Prog)
    requires forall b0 :: !CanEnd(NOTED, p, b0, Fell, false) && !CanEnd(NOTED, p, b0, Raised, false)
    ensures forall b0 :: !CanEnd(NOTED, Swallow(p), b0, Fell, false)
  {
    StaysNotedEverywhere();
  }

  // ----- where an unnoted event can come from -----

  lemma SessionIsTransparent(p: Prog)
    ensures forall b0, x, b1 :: CanEnd(NOTED, Session(p), b0, x, b1) <==> CanEnd(NOTED, p, b0, x, b1)
  {
    forall b0, x, b1 ensures CanEnd(NOTED, Session(p), b0, x, b1) <==> CanEnd(NOTED, p, b0, x, b1) {
      assert Note(b0, Opened) == b0 && Note(b1, Closed) == b1;
    }
  }

  /** An event that meets no note started without one, in one of the parts. */
  lemma UnnotedSeq(p: Prog, q: Prog, ev: Event)
    ensures CanHit(NOTED, Seq(p, q), false, ev, false) ==> CanHit(NOTED, p, false, ev, false) || CanHit(NOTED, q, false, ev, false)
  {
    StaysNoted(q);
    if CanHit(NOTED, Seq(p, q), false, ev, false) && !CanHit(NOTED, p, false, ev, false) {
      var b1 :| CanEnd(NOTED, p, false, Fell, b1) && CanHit(NOTED, q, b1, ev, false);
    }
  }

  lemma UnnotedFinally(p: Prog, q: Prog, ev: Event)
    ensures CanHit(NOTED, Finally(p, q), false, ev, false) ==> CanHit(NOTED, p, false, ev, false) || CanHit(NOTED, q, false, ev, false)
  {
    StaysNoted(q);
    if CanHit(NOTED, Finally(p, q), false, ev, false) && !CanHit(NOTED, p, false, ev, false) {
      var y, b1 :| CanEnd(NOTED, p, false, y, b1) && CanHit(NOTED, q, b1, ev, false);
    }
  }

  lemma UnnotedBranch(p: Prog, q: Prog, how: Exit, r: Prog, ev: Event)
    ensures CanHit(NOTED, Branch(p, q, how, r), false, ev, false) ==>
            CanHit(NOTED, p, false, ev, false) || CanHit(NOTED, q, false, ev, false) || CanHit(NOTED, r, false, ev, false)
  {
    StaysNoted(q);
    StaysNoted(r);
    if CanHit(NOTED, Branch(p, q, how, r), false, ev, false) && !CanHit(NOTED, p, false, ev, false) {
      if b1 :| CanEnd(NOTED, p, false, Fell, b1) && CanHit(NOTED, q, b1, ev, false) {
      } else {
        var b1 :| CanEnd(NOTED, p, false, how, b1) && CanHit(NOTED, r, b1, ev, false);
      }
    }
  }

  lemma UnnotedRepeat(p: Prog, ev: Event)
    requires CanHit(NOTED, Repeat(p), false, ev, false)
    ensures CanHit(NOTED, p, false, ev, false)
  {
    var b1 :| Again(NOTED, p, false, b1) && CanHit(NOTED, p, b1, ev, false);
    StaysNoted(p);
  }

  lemma UnnotedLoop(pass: Prog, otherwise: Prog, ev: Event)
    ensures CanHit(NOTED, Pass(pass), false, ev, false) ==> CanHit(NOTED, pass, false, ev, false)
    ensures CanHit(NOTED, Loop(pass, otherwise), false, ev, false) ==>
            CanHit(NOTED, pass, false, ev, false) || CanHit(NOTED, otherwise, false, ev, false)
  {
    UnnotedBranch(pass, Leave(Fell), Continued, Leave(Fell), ev);
    UnnotedBranch(pass, otherwise, Broke, Leave(Fell), ev);
  }

  lemma NotInExpr(e: Expr, line: nat)
    ensures !CanHit(NOTED, OfExpr(e), false, BareReturn(line), false)
  {
    ExprIsLoud(e);
    if CanHit(NOTED, OfExpr(e), false, BareReturn(line), false) {
      HitIsEmitted(NOTED, OfExpr(e), false, BareReturn(line), false);
    }
  }

  predicate Reaches(p: Prog, line: nat) {
    CanHit(NOTED, p, false, BareReturn(line), false)
  }

  lemma ForReaches(s: Stmt, line: nat)
    requires s.For? && Reaches(OfStmt(s), line)
    ensures Reaches(OfBlock(s.body), line) || Reaches(OfBlock(s.orelse), line)
  {
    var ev := BareReturn(line);
    var inner := if s.fixed then OfBlock(s.body) else Seq(Emit(Entered(DynamicLoop)), OfBlock(s.body));
    var passes := if s.fixed then Seq(Pass(inner), Repeat(Pass(inner))) else Repeat(Pass(inner));
    NotInExpr(s.iter, line);
    UnnotedSeq(OfExpr(s.iter), Loop(passes, OfBlock(s.orelse)), ev);
    UnnotedLoop(passes, OfBlock(s.orelse), ev);
    UnnotedSeq(Pass(inner), Repeat(Pass(inner)), ev);
    if CanHit(NOTED, Repeat(Pass(inner)), false, ev, false) { UnnotedRepeat(Pass(inner), ev); }
    UnnotedLoop(inner, Leave(Fell), ev);
    UnnotedSeq(Emit(Entered(DynamicLoop)), OfBlock(s.body), ev);
  }

  lemma WhileReaches(s: Stmt, line: nat)
    requires s.While? && Reaches(OfStmt(s), line)
    ensures Reaches(OfBlock(s.body), line) || Reaches(OfBlock(s.orelse), line)
  {
    var ev := BareReturn(line);
    var inner, otherwise := Seq(OfExpr(s.test), OfBlock(s.body)), Seq(OfExpr(s.test), OfBlock(s.orelse));
    NotInExpr(s.test, line);
    UnnotedLoop(Repeat(Pass(inner)), otherwise, ev);
    if CanHit(NOTED, Repeat(Pass(inner)), false, ev, false) { UnnotedRepeat(Pass(inner), ev); }
    UnnotedLoop(inner, Leave(Fell), ev);
    UnnotedSeq(OfExpr(s.test), OfBlock(s.body), ev);
    UnnotedSeq(OfExpr(s.test), OfBlock(s.orelse), ev);
  }

  lemma IfReaches(s: Stmt, line: nat)
    requires s.If? && Reaches(OfStmt(s), line)
    ensures Reaches(OfBlock(s.body), line) || Reaches(OfBlock(s.orelse), line)
  {
    var ev := BareReturn(line);
    var taken := if s.orelse == [] then Seq(Emit(Entered(BareIf)), OfBlock(s.body)) else OfBlock(s.body);
    NotInExpr(s.test, line);
    UnnotedSeq(OfExpr(s.test), Choose(taken, OfBlock(s.orelse)), ev);
    UnnotedSeq(Emit(Entered(BareIf)), OfBlock(s.body), ev);
  }

  lemma {:induction false} WithReaches(items: seq<WithItem>, body: Prog, line: nat)
    requires Reaches(OfWith(items, body), line)
    ensures Reaches(body, line)
    decreases items
  {
    if items != [] {
      var ev, inner := BareReturn(line), OfWith(items[1..], body);
      var block := if items[0].opens then Session(inner) else inner;
      NotInExpr(items[0].context, line);
      UnnotedSeq(OfExpr(items[0].context), Swallow(block), ev);
      UnnotedBranch(block, Leave(Fell), Raised, Choose(Leave(Fell), Leave(Raised)), ev);
      assert Reaches(block, line) ==> Reaches(inner, line);
      WithReaches(items[1..], body, line);
    }
  }

  lemma TryReaches(s: Stmt, line: nat)
    requires s.Try? && Reaches(OfStmt(s), line)
    ensures || Reaches(OfBlock(s.body), line) || Reaches(OfBlock(s.orelse), line)
            || Reaches(OfHandlers(s.handlers), line) || Reaches(OfBlock(s.finalbody), line)
  {
    var ev := BareReturn(line);
    var guarded := Branch(OfBlock(s.body), OfBlock(s.orelse), Raised, OfHandlers(s.handlers));
    UnnotedFinally(guarded, OfBlock(s.finalbody), ev);
    UnnotedBranch(OfBlock(s.body), OfBlock(s.orelse), Raised, OfHandlers(s.handlers), ev);
  }

  lemma SimpleReaches(s: Stmt, line: nat)
    requires !Compound(s) && Reaches(OfStmt(s), line)
    ensures IsBare(s, line)
  {
    HitIsEmitted(NOTED, OfStmt(s), false, BareReturn(line), false);
    assert Emits(RAISE_NOW) == {Raising} && Emits(MAY_RAISE) == {Raising};
    if s.Assert? {
      assert Emits(Seq(Emit(Asserted(s.id)), MAY_RAISE)) == {Asserted(s.id), Raising};
    }
    if Operands(s) != [] {
      ExprIsLoud(Operands(s)[0]);
    }
  }

  /** A bare return reached without a note is the statement itself, or stands in a list under it with
      no evidence before it there. */
  lemma {:induction false} StmtVerdict(s: Stmt, line: nat)
    requires NoHalfEvidence(s) && Reaches(OfStmt(s), line)
    ensures IsBare(s, line) || exists k :: k in Lists(s) && Direct(k, line)
    decreases s, 0
  {
    match s
    case If(_, body, orelse) =>
      IfReaches(s, line);
      ListVerdict(if Reaches(OfBlock(body), line) then body else orelse, line);
    case For(_, _, body, orelse) =>
      ForReaches(s, line);
      ListVerdict(if Reaches(OfBlock(body), line) then body else orelse, line);
    case While(_, body, orelse) =>
      WhileReaches(s, line);
      ListVerdict(if Reaches(OfBlock(body), line) then body else orelse, line);
    case With(items, body) =>
      WithReaches(items, OfBlock(body), line);
      ListVerdict(body, line);
    case Try(body, handlers, orelse, finalbody) =>
      TryReaches(s, line);
      if Reaches(OfHandlers(handlers), line) {
        HandlerVerdict(handlers, line);
      } else {
        ListVerdict(if Reaches(OfBlock(body), line) then body else if Reaches(OfBlock(orelse), line) then orelse else finalbody, line);
      }
    case _ => SimpleReaches(s, line);
  }

  lemma {:induction false} ListVerdict(ss: seq<Stmt>, line: nat)
    requires AllWhole(ss) && Reaches(OfBlock(ss), line)
    ensures exists k :: k in BlockLists(ss) && Direct(k, line)
    decreases ss, 1
  {
    BlockVerdict(ss, line);
    var i :| 0 <= i < |ss| && !Evidence(ss[..i]) &&
             (IsBare(ss[i], line) || exists k :: k in Lists(ss[i]) && Direct(k, line));
    if IsBare(ss[i], line) {
      assert Direct(ss, line) && ss in BlockLists(ss);
    } else {
      MemberLists(ss, ss[i]);
    }
  }

  /** In every exception-free run, a bare return that is not reported comes after evidence. */
  lemma {:induction false} BlockVerdict(ss: seq<Stmt>, line: nat)
    requires AllWhole(ss) && Reaches(OfBlock(ss), line)
    ensures Verdict(ss, line)
    decreases ss, 0
  {
    VerdictCons(ss, line);
    if Reaches(OfStmt(ss[0]), line) {
      StmtVerdict(ss[0], line);
    } else {
      var b1 :| CanEnd(NOTED, OfStmt(ss[0]), false, Fell, b1) &&
                CanHit(NOTED, OfBlock(ss[1..]), b1, BareReturn(line), false);
      StaysNoted(OfBlock(ss[1..]));
      if UnconditionalEvidence(ss[0]) {
        EvidenceEnds(ss[0], false);
      }
      BlockVerdict(ss[1..], line);
    }
  }

  lemma {:induction false} HandlerVerdict(hs: seq<Handler>, line: nat)
    requires (forall h | h in hs :: AllWhole(h.body)) && Reaches(OfHandlers(hs), line)
    ensures exists k :: k in HandlerLists(hs) && Direct(k, line)
    decreases hs, 0
  {
    if Reaches(OfBlock(hs[0].body), line) {
      ListVerdict(hs[0].body, line);
    } else {
      HandlerVerdict(hs[1..], line);
    }
  }

  /** The analysis decides silent returns exactly. */
  lemma SilentReturnExactly(body: seq<Stmt>, line: nat)
    ensures SilentReturn(body, line) <==> Reaches(OfBlock(body), line)
  {
    var p := OfBlock(body);
    if Reaches(p, line) {
      var o, i := HitWitness(NOTED, p, false, BareReturn(line), false);
      NothingNoted(Exec(p, o).trace[..i]);
      assert SilentAt(Exec(p, o).trace, line, i);
    }
    if SilentReturn(body, line) {
      var o, i: nat :| SilentAt(Exec(p, o).trace, line, i);
      HitSound(NOTED, p, false, o, i);
      NothingNoted(Exec(p, o).trace[..i]);
    }
  }

  /** A return that some exception-free run reaches silently is reported. */
  lemma SilentReturnIsReported(body: seq<Stmt>, line: nat)
    requires AllWhole(body) && SilentReturn(body, line)
    ensures Verdict(body, line)
  {
    SilentReturnExactly(body, line);
    BlockVerdict(body, line);
  }

  /** The check that decides it: can a bare return be reached with nothing noted, outside the verdict? */
  predicate Misses(body: seq<Stmt>) {
    exists ev | ev in Emits(OfBlock(body)) :: ev.BareReturn? && Reaches(OfBlock(body), ev.line) && !Verdict(body, ev.line)
  }

  /** Every return that some exception-free run reaches silently is reported, exactly when the check finds
      none that is missed. */
  lemma NothingMissedExactly(body: seq<Stmt>)
    ensures (forall line :: SilentReturn(body, line) ==> Verdict(body, line)) <==> !Misses(body)
  {
    var p := OfBlock(body);
    forall line ensures SilentReturn(body, line) <==> Reaches(p, line) { SilentReturnExactly(body, line); }
    forall line | Reaches(p, line) ensures BareReturn(line) in Emits(p) {
      HitIsEmitted(NOTED, p, false, BareReturn(line), false);
    }
    if Misses(body) {
      var ev :| ev in Emits(p) && ev.BareReturn? && Reaches(p, ev.line) && !Verdict(body, ev.line);
      assert SilentReturn(body, ev.line);
    } else {
      forall line | Reaches(p, line) ensures Verdict(body, line) { assert BareReturn(line) in Emits(p); }
    }
  }

  lemma {:induction false} NothingNoted(t: seq<Event>)
    ensures Bits(NOTED, false, t) <==>
            exists j :: 0 <= j < |t| && Notable(t[j])
  {
    if t != [] {
      NothingNoted(t[1..]);
      if Note(false, t[0]) {
        NotedStays(t[1..]);
      } else if j :| 0 <= j < |t| && Notable(t[j]) {
        assert t[j] == t[1..][j-1];
      }
    }
  }

  lemma {:induction false} NotedStays(t: seq<Event>)
    ensures Bits(NOTED, true, t)
  {
    if t != [] { NotedStays(t[1..]); }
  }

  // ----- where the verdict and the runs part -----

  /** `if a: assert x; if b: return`: the return is reported, although every run asserts first. The
      evidence stands in a block between the outermost and the return's own, and is not counted. */
  lemma EvidenceInBetweenIsNotCounted()
    ensures var inner := If(NOTHING, [Return(3, None)], []);
            var body := [If(NOTHING, [Assert(1, NOTHING)] + [inner], [])];
            Verdict(body, 3) && !SilentReturn(body, 3)
  {
    var inner, first := If(NOTHING, [Return(3, None)], []), Assert(1, NOTHING);
    var outer := If(NOTHING, [first] + [inner], []);
    NestedReturnIsReported([first], inner);
    SilentReturnExactly([outer], 3);
    if Reaches(OfBlock([outer]), 3) {
      OneBlock(outer, 3);
      IfReaches(outer, 3);
      assert OfBlock([]) == Leave(Fell);
      AssertsFirst([inner], 3);
    }
  }

  lemma NestedReturnIsReported(before: seq<Stmt>, inner: Stmt)
    requires inner == If(NOTHING, [Return(3, None)], [])
    ensures Verdict([If(NOTHING, before + [inner], [])], 3)
  {
    var exit, outer := [Return(3, None)], If(NOTHING, before + [inner], []);
    assert Direct(exit, 3) by {
      assert IsBare(exit[0], 3) && !Evidence(exit[..0]);
    }
    assert BlockLists(exit)[0] == exit && exit in Lists(inner);
    MemberLists(before + [inner], inner);
    assert exit in Lists(outer);
    assert [outer][0] == outer && !Evidence([outer][..0]);
  }

  lemma OneBlock(s: Stmt, line: nat)
    requires Reaches(OfBlock([s]), line)
    ensures Reaches(OfStmt(s), line)
  {
    assert [s][1..] == [] && OfBlock([s]) == Seq(OfStmt(s), Leave(Fell));
    UnnotedSeq(OfStmt(s), Leave(Fell), BareReturn(line));
    assert !Reaches(Leave(Fell), line);
  }

  lemma AssertsFirst(rest: seq<Stmt>, line: nat)
    ensures !Reaches(OfBlock([Assert(1, NOTHING)] + rest), line)
  {
    var first := Assert(1, NOTHING);
    assert ([first] + rest)[1..] == rest;
    if Reaches(OfStmt(first), line) {
      SimpleReaches(first, line);
    }
    assert Operands(first) == [NOTHING] && Evaluated(NOTHING) == [];
    EvidenceEnds(first, false);
    StaysNoted(OfBlock(rest));
    if Reaches(OfBlock([first] + rest), line) {
      var b1 :| CanEnd(NOTED, OfStmt(first), false, Fell, b1) && CanHit(NOTED, OfBlock(rest), b1, BareReturn(line), false);
    }
  }

  /** `try: setup(); assert x; except E: pass` and then a return: the `try` counts as evidence, but a
      run in which `setup` raises reaches the return with nothing asserted. */
  lemma CaughtExceptionHidesReturn()
    ensures var attempt := Try([Simple(NOTHING)] + [Assert(1, NOTHING)], [Handler([])], [], []);
            var body := [attempt] + [Return(9, None)];
            && !Verdict(body, 9)
            && EverSilent(body, 9)
  {
    var attempt, exit := Try([Simple(NOTHING)] + [Assert(1, NOTHING)], [Handler([])], [], []), Return(9, None);
    assert ([attempt] + [exit])[1..] == [exit];
    VerdictCons([attempt] + [exit], 9);
    assert Assert(1, NOTHING) in attempt.body && UnconditionalEvidence(Assert(1, NOTHING));
    NoReturnIn(attempt);
    AttemptFallsSilently(attempt);
    assert CanHit(ASSERTED_ONLY, OfStmt(exit), false, BareReturn(9), false);
    assert CanHit(ASSERTED_ONLY, OfBlock([exit]), false, BareReturn(9), false);
    SeqHits(ASSERTED_ONLY, OfStmt(attempt), OfBlock([exit]), false, false, BareReturn(9), false);
    EverSilentExactly([attempt] + [exit], 9);
  }

  lemma AttemptFallsSilently(attempt: Stmt)
    requires attempt == Try([Simple(NOTHING)] + [Assert(1, NOTHING)], [Handler([])], [], [])
    ensures CanEnd(ASSERTED_ONLY, OfStmt(attempt), false, Fell, false)
  {
    var setup, block := Simple(NOTHING), attempt.body;
    assert CanEnd(ASSERTED_ONLY, OfBlock(block), false, Raised, false) by {
      assert block[0] == setup;
      MayRaiseEnds(ASSERTED_ONLY, false);
      assert CanEnd(ASSERTED_ONLY, OfExpr(NOTHING), false, Fell, false);
      SeqEnds(ASSERTED_ONLY, OfExpr(NOTHING), MAY_RAISE, false, false, Raised, false);
    }
    var guarded := Branch(OfBlock(block), OfBlock([]), Raised, OfHandlers([Handler([])]));
    assert CanEnd(ASSERTED_ONLY, OfHandlers([Handler([])]), false, Fell, false);
    assert CanEnd(ASSERTED_ONLY, guarded, false, Fell, false);
  }

  /** The note without exceptions: has anything been asserted or reported? */
  function NoteAsserted(noted: bool, ev: Event): bool {
    noted || (Notable(ev) && !ev.Raising?)
  }

  const ASSERTED_ONLY: Machine := NoteAsserted

  /** Some run, whatever is raised in it, reaches the bare return before anything was asserted or reported. */
  ghost predicate EverSilent(body: seq<Stmt>, line: nat) {
    exists o, i :: EverSilentAt(Exec(OfBlock(body), o).trace, line, i)
  }

  ghost predicate EverSilentAt(t: seq<Event>, line: nat, i: nat) {
    i < |t| && t[i] == BareReturn(line) && forall j | 0 <= j < i :: !Notable(t[j]) || t[j].Raising?
  }

  lemma {:induction false} NothingAsserted(t: seq<Event>)
    ensures !Bits(ASSERTED_ONLY, false, t) <==> forall j | 0 <= j < |t| :: !Notable(t[j]) || t[j].Raising?
  {
    if t != [] {
      NothingAsserted(t[1..]);
      if NoteAsserted(false, t[0]) {
        AssertedStays(t[1..]);
      } else {
        assert forall j | 1 <= j < |t| :: t[j] == t[1..][j-1];
      }
    }
  }

  lemma {:induction false} AssertedStays(t: seq<Event>)
    ensures Bits(ASSERTED_ONLY, true, t)
  {
    if t != [] { AssertedStays(t[1..]); }
  }

  predicate ReachesEver(p: Prog, line: nat) {
    CanHit(ASSERTED_ONLY, p, false, BareReturn(line), false)
  }

  lemma EverSilentExactly(body: seq<Stmt>, line: nat)
    ensures EverSilent(body, line) <==> ReachesEver(OfBlock(body), line)
  {
    var p := OfBlock(body);
    if ReachesEver(p, line) {
      var o, i := HitWitness(ASSERTED_ONLY, p, false, BareReturn(line), false);
      NothingAsserted(Exec(p, o).trace[..i]);
      assert EverSilentAt(Exec(p, o).trace, line, i);
    }
    if EverSilent(body, line) {
      var o, i: nat :| EverSilentAt(Exec(p, o).trace, line, i);
      HitSound(ASSERTED_ONLY, p, false, o, i);
      NothingAsserted(Exec(p, o).trace[..i]);
    }
  }

  /** The check over all runs: can a bare return be reached with nothing asserted, outside the verdict? */
  predicate MissesEver(body: seq<Stmt>) {
    exists ev | ev in Emits(OfBlock(body)) ::
      ev.BareReturn? && ReachesEver(OfBlock(body), ev.line) && !Verdict(body, ev.line)
  }

  /** Every return that any run reaches silently is reported, exactly when that check finds none missed. */
  lemma NothingEverMissedExactly(body: seq<Stmt>)
    ensures (forall line :: EverSilent(body, line) ==> Verdict(body, line)) <==> !MissesEver(body)
  {
    var p := OfBlock(body);
    forall line ensures EverSilent(body, line) <==> ReachesEver(p, line) { EverSilentExactly(body, line); }
    forall line | ReachesEver(p, line) ensures BareReturn(line) in Emits(p) {
      HitIsEmitted(ASSERTED_ONLY, p, false, BareReturn(line), false);
    }
    if MissesEver(body) {
      var ev :| ev in Emits(p) && ev.BareReturn? && ReachesEver(p, ev.line) && !Verdict(body, ev.line);
      assert EverSilent(body, ev.line);
    } else {
      forall line | ReachesEver(p, line) ensures Verdict(body, line) { assert BareReturn(line) in Emits(p); }
    }
  }

  lemma NoReturnIn(s: Stmt)
    requires s == Try([Simple(NOTHING)] + [Assert(1, NOTHING)], [Handler([])], [], [])
    ensures forall k, line | k in Lists(s) :: !Direct(k, line)
  {
    var block := [Simple(NOTHING)] + [Assert(1, NOTHING)];
    assert block[1..] == [Assert(1, NOTHING)] && block[1..][1..] == [];
    assert InnerLists(block) == Lists(block[0]) + InnerLists(block[1..]) == [];
    assert [Handler([])][1..] == [];
    assert HandlerLists([Handler([])]) == BlockLists([]) + HandlerLists([Handler([])][1..]);
    assert forall k | k in Lists(s) :: k == block || k == [];
  }

  /** `check() if flag else None` counts as evidence, though a run may skip the reporting call. */
  lemma HalfEvidenceIsTrusted()
    ensures var e := IfExp(NOTHING, Invoke(Call(1, NoOp, None, true), []), NOTHING);
            var body := [Simple(e)] + [Return(9, None)];
            !Verdict(body, 9) && SilentReturn(body, 9)
  {
    var report := Call(1, NoOp, None, true);
    var e := IfExp(NOTHING, Invoke(report, []), NOTHING);
    assert ExprEvidence(e) by { assert report in Evaluated(Invoke(report, [])); assert report in Evaluated(e); }
    assert ([Simple(e)] + [Return(9, None)])[1..] == [Return(9, None)];
    VerdictCons([Simple(e)] + [Return(9, None)], 9);
    HalfEvidenceFalls(e, Invoke(report, []));
    ReturnAfter(Simple(e));
  }

  lemma ReturnAfter(s: Stmt)
    requires CanEnd(NOTED, OfStmt(s), false, Fell, false)
    ensures SilentReturn([s] + [Return(9, None)], 9)
  {
    var exit := Return(9, None);
    assert ([s] + [exit])[1..] == [exit];
    assert CanHit(NOTED, OfStmt(exit), false, BareReturn(9), false);
    assert CanHit(NOTED, OfBlock([exit]), false, BareReturn(9), false);
    SeqHits(NOTED, OfStmt(s), OfBlock([exit]), false, false, BareReturn(9), false);
    SilentReturnExactly([s] + [exit], 9);
  }

  lemma HalfEvidenceFalls(e: Expr, half: Expr)
    requires e == IfExp(NOTHING, half, NOTHING)
    ensures CanEnd(NOTED, OfStmt(Simple(e)), false, Fell, false)
  {
    assert CanEnd(NOTED, OfExpr(NOTHING), false, Fell, false);
    SeqEnds(NOTED, OfExpr(NOTHING), Choose(OfExpr(half), OfExpr(NOTHING)), false, false, Fell, false);
    MayRaiseEnds(NOTED, false);
    SeqEnds(NOTED, OfExpr(e), MAY_RAISE, false, false, Fell, false);
  }
}
