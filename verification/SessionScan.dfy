/** `scan_source`: the two rules that report slow work done while a database session is open, the
    recording of findings, and how the reports relate to what can really happen. */
module SessionScan {
  import opened Options
  import opened Python
  import opened Runs
  import opened Typestate
  import opened Calls
  import opened Depths
  import opened Written
  import opened Release

  /** A function of the module: its scope name, whether it accepts a session, and its body. */
  datatype Function = Function(scope: string, takesSession: bool, body: seq<Stmt>)

  /** What identifies a finding: at most one per category, line and scope. */
  datatype Finding = Finding(category: string, line: nat, scope: string)

  const PARAM_RULE := "session-param-slow-work"

  // ----- recording -----

  predicate NoDuplicates<T(==)>(s: seq<T>) {
    forall i, j | 0 <= i < j < |s| :: s[i] != s[j]
  }

  /** The findings list of one scan and the keys seen so far. */
  class Recorder {
    var findings: seq<Finding>
    var seen: set<Finding>

    ghost predicate Valid()
      reads this
    {
      NoDuplicates(findings) && forall f :: f in seen <==> f in findings
    }

    constructor ()
      ensures Valid() && findings == [] && seen == {}
    {
      findings, seen := [], {};
    }

    method Record(f: Finding)
      requires Valid()
      modifies this
      ensures Valid() && seen == old(seen) + {f}
      ensures findings == if f in old(seen) then old(findings) else old(findings) + [f]
    {
      if f in seen {
        return;
      }
      seen := seen + {f};
      findings := findings + [f];
    }
  }

  // ----- the body rule -----

  /** Every `with` statement, at any depth. */
  function Withs(s: Stmt): (ws: seq<Stmt>)
    ensures forall w | w in ws :: w.With?
    decreases s, 0
  {
    match s
    case If(_, body, orelse) => BlockWiths(body) + BlockWiths(orelse)
    case For(_, _, body, orelse) => BlockWiths(body) + BlockWiths(orelse)
    case While(_, body, orelse) => BlockWiths(body) + BlockWiths(orelse)
    case With(_, body) => [s] + BlockWiths(body)
    case Try(body, handlers, orelse, finalbody) =>
      BlockWiths(body) + HandlerWiths(handlers) + BlockWiths(orelse) + BlockWiths(finalbody)
    case _ => []
  }

  function BlockWiths(ss: seq<Stmt>): (ws: seq<Stmt>)
    ensures forall w | w in ws :: w.With?
    decreases ss, 0
  {
    if ss == [] then [] else Withs(ss[0]) + BlockWiths(ss[1..])
  }

  function HandlerWiths(hs: seq<Handler>): (ws: seq<Stmt>)
    ensures forall w | w in ws :: w.With?
    decreases hs, 0
  {
    if hs == [] then [] else BlockWiths(hs[0].body) + HandlerWiths(hs[1..])
  }

  /** The body of a `with` that opens a session. */
  function SessionBody(s: Stmt): set<Call> {
    if s.With? && Opens(s.items) > 0 then BlockCalls(s.body) else {}
  }

  /** The calls the body rule looks at. */
  function SessionCalls(withs: seq<Stmt>): set<Call> {
    if withs == [] then {} else SessionBody(withs[0]) + SessionCalls(withs[1..])
  }

  /** The findings for the slow calls among `calls`, under a category of the rule's choosing. */
  function Reports(calls: set<Call>, scope: string): set<Finding> {
    set c | c in calls && c.slow.Some? :: Finding(c.slow.value, c.line, scope)
  }

  method RecordSlow(rec: Recorder, calls: set<Call>, scope: string)
    requires rec.Valid()
    modifies rec
    ensures rec.Valid() && rec.seen == old(rec.seen) + Reports(calls, scope)
  {
    var todo := calls;
    while todo != {}
      invariant todo <= calls && rec.Valid()
      invariant rec.seen == old(rec.seen) + Reports(calls - todo, scope)
    {
      var c :| c in todo;
      if c.slow.Some? {
        rec.Record(Finding(c.slow.value, c.line, scope));
      }
      assert calls - (todo - {c}) == (calls - todo) + {c};
      todo := todo - {c};
    }
    assert calls - {} == calls;
  }

  method BodyRule(rec: Recorder, fn: Function)
    requires rec.Valid()
    modifies rec
    ensures rec.Valid() && rec.seen == old(rec.seen) + Reports(SessionCalls(BlockWiths(fn.body)), fn.scope)
  {
    var withs := BlockWiths(fn.body);
    for i := 0 to |withs|
      invariant rec.Valid()
      invariant rec.seen + Reports(SessionCalls(withs[i..]), fn.scope) ==
                old(rec.seen) + Reports(SessionCalls(withs), fn.scope)
    {
      assert withs[i..][0] == withs[i] && withs[i..][1..] == withs[i+1..];
      if Opens(withs[i].items) > 0 {
        RecordSlow(rec, BlockCalls(withs[i].body), fn.scope);
      }
    }
  }

  // ----- the rule for functions that accept a session -----

  /** The slow calls of the function that its release line does not excuse. */
  function HeldCalls(fn: Function): set<Call> {
    if !fn.takesSession then {}
    else
      var released := ReleaseOf(TopCalls(fn.body));
      set c | c in BlockCalls(fn.body) && c.slow.Some? && !(released.Some? && Suppressed(c, released.value))
  }

  function ParamReports(fn: Function): set<Finding> {
    set c | c in HeldCalls(fn) :: Finding(PARAM_RULE, c.line, fn.scope)
  }

  method ParamRule(rec: Recorder, fn: Function)
    requires rec.Valid()
    modifies rec
    ensures rec.Valid() && rec.seen == old(rec.seen) + ParamReports(fn)
  {
    if !fn.takesSession {
      return;
    }
    var released := ReleaseLine(fn.body);
    var todo := BlockCalls(fn.body);
    while todo != {}
      invariant todo <= BlockCalls(fn.body) && rec.Valid()
      invariant rec.seen == old(rec.seen) + (set c | c in HeldCalls(fn) && c !in todo :: Finding(PARAM_RULE, c.line, fn.scope))
    {
      var c :| c in todo;
      if c.slow.Some? && !(released.Some? && c.line > released.value) {
        rec.Record(Finding(PARAM_RULE, c.line, fn.scope));
      }
      assert c in HeldCalls(fn) <==> c.slow.Some? && !(released.Some? && c.line > released.value);
      todo := todo - {c};
    }
  }

  // ----- the whole scan -----

  function BodyReports(fn: Function): set<Finding> {
    Reports(SessionCalls(BlockWiths(fn.body)), fn.scope)
  }

  /** Scans every function with the body rule, then every function with the parameter rule: the
      result names each reported key once. */
  method ScanSource(fns: seq<Function>) returns (findings: seq<Finding>)
    ensures NoDuplicates(findings)
    ensures NamesReports(fns, findings)
    ensures NamesOpenCalls(fns, findings) && NamesHeldCalls(fns, findings)
    ensures NamesCallsUpToRelease(fns, findings) && NamesOnlyThose(fns, findings)
  {
    var rec := new Recorder();
    BodyPass(rec, fns);
    ParamPass(rec, fns);
    findings := rec.findings;
    FindingsMeanCalls(fns, findings);
  }

  ghost predicate NamesReports(fns: seq<Function>, findings: seq<Finding>) {
    forall f :: f in findings <==> exists fn :: fn in fns && f in BodyReports(fn) + ParamReports(fn)
  }

  method BodyPass(rec: Recorder, fns: seq<Function>)
    requires rec.Valid()
    modifies rec
    ensures rec.Valid()
    ensures forall f :: f in rec.seen <==> f in old(rec.seen) || exists fn :: fn in fns && f in BodyReports(fn)
  {
    ghost var reports := seq(|fns|, j requires 0 <= j < |fns| => BodyReports(fns[j]));
    for i := 0 to |fns|
      invariant rec.Valid() && Gathered(reports, i, old(rec.seen), rec.seen)
    {
      ghost var before := rec.seen;
      BodyRule(rec, fns[i]);
      GathersOneMore(reports, i, old(rec.seen), before, rec.seen);
    }
    forall f ensures f in rec.seen <==> f in old(rec.seen) || exists fn :: fn in fns && f in BodyReports(fn) {
      if fn :| fn in fns && f in BodyReports(fn) {
        var j :| 0 <= j < |fns| && fns[j] == fn;
        assert f in reports[j];
      }
    }
  }

  method ParamPass(rec: Recorder, fns: seq<Function>)
    requires rec.Valid()
    modifies rec
    ensures rec.Valid()
    ensures forall f :: f in rec.seen <==> f in old(rec.seen) || exists fn :: fn in fns && f in ParamReports(fn)
  {
    ghost var reports := seq(|fns|, j requires 0 <= j < |fns| => ParamReports(fns[j]));
    for i := 0 to |fns|
      invariant rec.Valid() && Gathered(reports, i, old(rec.seen), rec.seen)
    {
      ghost var before := rec.seen;
      ParamRule(rec, fns[i]);
      GathersOneMore(reports, i, old(rec.seen), before, rec.seen);
    }
    forall f ensures f in rec.seen <==> f in old(rec.seen) || exists fn :: fn in fns && f in ParamReports(fn) {
      if fn :| fn in fns && f in ParamReports(fn) {
        var j :| 0 <= j < |fns| && fns[j] == fn;
        assert f in reports[j];
      }
    }
  }

  ghost predicate Gathered(reports: seq<set<Finding>>, n: nat, before: set<Finding>, now: set<Finding>)
    requires n <= |reports|
  {
    forall f :: f in now <==> f in before || exists j :: 0 <= j < n && f in reports[j]
  }

  lemma GathersOneMore(reports: seq<set<Finding>>, i: nat, start: set<Finding>, before: set<Finding>, now: set<Finding>)
    requires i < |reports| && Gathered(reports, i, start, before) && now == before + reports[i]
    ensures Gathered(reports, i + 1, start, now)
  {
  }

  // ----- what the findings say -----

  /** A slow call that some run of a function makes with a session open is named by its category, line and
      scope, unless it stands in a context expression after an item that opens the session. */
  ghost predicate NamesOpenCalls(fns: seq<Function>, findings: seq<Finding>) {
    forall fn, c: Call :: fn in fns && MadeOpen(OfBlock(fn.body), c) && c.slow.Some? && !Late(fn.body, c) ==>
      Finding(c.slow.value, c.line, fn.scope) in findings
  }

  ghost predicate Late(body: seq<Stmt>, c: Call) {
    exists w, i, j :: w in BlockWiths(body) && 0 <= i < j < |w.items| && w.items[i].opens && c in ExprCalls(w.items[j].context)
  }

  /** A slow call that some run of a function accepting a session makes while the transaction is held is named
      by its line and scope, if no call past the release line can be made so. */
  ghost predicate NamesHeldCalls(fns: seq<Function>, findings: seq<Finding>) {
    forall fn, c: Call ::
      fn in fns && fn.takesSession && MadeHeld(OfBlock(fn.body), c) && c.slow.Some? && NoneHeldPast(fn) ==>
        Finding(PARAM_RULE, c.line, fn.scope) in findings
  }

  /** Some run makes the call while the transaction is held. */
  ghost predicate MadeHeld(p: Prog, c: Call) {
    exists o, i :: MadeHeldAt(p, c, o, i)
  }

  ghost predicate MadeHeldAt(p: Prog, c: Call, o: Oracle, i: nat) {
    i < |Exec(p, o).trace| && Exec(p, o).trace[i] == Called(c) && Bits(HELD, true, Exec(p, o).trace[..i])
  }

  ghost predicate NoneHeldPast(fn: Function) {
    forall c: Call :: c.slow.Some? && MadeHeld(OfBlock(fn.body), c) ==> UpToRelease(fn, c)
  }

  predicate UpToRelease(fn: Function, c: Call) {
    ReleaseOf(TopCalls(fn.body)).Some? ==> c.line <= ReleaseOf(TopCalls(fn.body)).value
  }

  /** Whether or not a run makes it, a slow call on no later line than the release is named. */
  ghost predicate NamesCallsUpToRelease(fns: seq<Function>, findings: seq<Finding>) {
    forall fn, c: Call :: fn in fns && fn.takesSession && c in BlockCalls(fn.body) && c.slow.Some? && UpToRelease(fn, c) ==>
      Finding(PARAM_RULE, c.line, fn.scope) in findings
  }

  /** A finding is the category, line and scope of a slow call written in a session block, or the line and scope
      of one written in a function accepting a session, on no later line than its release. */
  ghost predicate NamesOnlyThose(fns: seq<Function>, findings: seq<Finding>) {
    forall f | f in findings :: exists fn, c: Call :: fn in fns && Tells(f, fn, c)
  }

  predicate Tells(f: Finding, fn: Function, c: Call) {
    c.slow.Some? && c.line == f.line && fn.scope == f.scope
    && (|| (f.category == c.slow.value && c in BlockOpen(fn.body, 0))
        || (f.category == PARAM_RULE && fn.takesSession && c in BlockCalls(fn.body) && UpToRelease(fn, c)))
  }

  lemma FindingsMeanCalls(fns: seq<Function>, findings: seq<Finding>)
    requires NamesReports(fns, findings)
    ensures NamesOpenCalls(fns, findings) && NamesHeldCalls(fns, findings)
    ensures NamesCallsUpToRelease(fns, findings) && NamesOnlyThose(fns, findings)
  {
    forall fn, c: Call | fn in fns && MadeOpen(OfBlock(fn.body), c) && c.slow.Some? && !Late(fn.body, c)
      ensures Finding(c.slow.value, c.line, fn.scope) in findings
    {
      OpenCallIsNamed(fn, c);
    }
    forall fn, c: Call | fn in fns && fn.takesSession && MadeHeld(OfBlock(fn.body), c) && c.slow.Some? && NoneHeldPast(fn)
      ensures Finding(PARAM_RULE, c.line, fn.scope) in findings
    {
      HeldCallIsNamed(fn, c);
    }
    forall f | f in findings ensures exists fn, c: Call :: fn in fns && Tells(f, fn, c) {
      var fn :| fn in fns && f in BodyReports(fn) + ParamReports(fn);
      var c := NamedCall(fn, f);
    }
  }

  lemma OpenCallIsNamed(fn: Function, c: Call)
    requires MadeOpen(OfBlock(fn.body), c) && c.slow.Some? && !Late(fn.body, c)
    ensures Finding(c.slow.value, c.line, fn.scope) in BodyReports(fn)
  {
    BodyRuleMissesOnlyLate(fn.body, c);
    LateExactly(BlockWiths(fn.body), c);
  }

  lemma HeldCallIsNamed(fn: Function, c: Call)
    requires fn.takesSession && MadeHeld(OfBlock(fn.body), c) && c.slow.Some? && NoneHeldPast(fn)
    ensures Finding(PARAM_RULE, c.line, fn.scope) in ParamReports(fn)
  {
    var o, i: nat :| MadeHeldAt(OfBlock(fn.body), c, o, i);
    MadeIsWritten(fn.body, c, o, i);
    assert c in HeldCalls(fn);
  }

  lemma MadeIsWritten(body: seq<Stmt>, c: Call, o: Oracle, i: nat)
    requires MadeHeldAt(OfBlock(body), c, o, i)
    ensures c in BlockCalls(body)
  {
    var p := OfBlock(body);
    HitSound(HELD, p, true, o, i);
    HitIsEmitted(HELD, p, true, Called(c), Bits(HELD, true, Exec(p, o).trace[..i]));
    EmitsOfBlock(body);
  }

  lemma NamedCall(fn: Function, f: Finding) returns (c: Call)
    requires f in BodyReports(fn) + ParamReports(fn)
    ensures Tells(f, fn, c)
  {
    if f in BodyReports(fn) {
      c :| c in SessionCalls(BlockWiths(fn.body)) && c.slow.Some? && f == Finding(c.slow.value, c.line, fn.scope);
      BlockScanned(fn.body);
    } else {
      c :| c in HeldCalls(fn) && f == Finding(PARAM_RULE, c.line, fn.scope);
    }
  }

  // ----- what the body rule is worth -----

  /** Calls in the context expressions of `with` items that come after an item that opens a session. */
  function LateCalls(withs: seq<Stmt>): set<Call>
    requires forall w | w in withs :: w.With?
  {
    if withs == [] then {} else ItemsOpen(withs[0].items, 0) + LateCalls(withs[1..])
  }

  /** Those are the calls in the context expression of an item after one that opens a session. */
  lemma {:induction false} LateExactly(withs: seq<Stmt>, c: Call)
    requires forall w | w in withs :: w.With?
    ensures c in LateCalls(withs) <==>
      exists w, i, j :: w in withs && 0 <= i < j < |w.items| && w.items[i].opens && c in ExprCalls(w.items[j].context)
  {
    if withs != [] {
      LateExactly(withs[1..], c);
      LateItems(withs[0].items, 0, c);
    }
  }

  lemma {:induction false} LateItems(items: seq<WithItem>, depth: nat, c: Call)
    ensures c in ItemsOpen(items, depth) <==>
      exists j :: 0 <= j < |items| && c in ExprCalls(items[j].context) && (depth > 0 || exists i :: 0 <= i < j && items[i].opens)
    decreases items
  {
    if items != [] {
      var rest, next := items[1..], depth + if items[0].opens then 1 else 0;
      LateItems(rest, next, c);
      if j :| 0 <= j < |rest| && c in ExprCalls(rest[j].context) && (next > 0 || exists i :: 0 <= i < j && rest[i].opens) {
        assert items[j+1] == rest[j];
        if depth == 0 && !items[0].opens {
          var i :| 0 <= i < j && rest[i].opens;
          assert items[i+1].opens;
        }
      }
      if j :| 0 <= j < |items| && c in ExprCalls(items[j].context) && (depth > 0 || exists i :: 0 <= i < j && items[i].opens) {
        if j > 0 {
          assert rest[j-1] == items[j];
          if next == 0 {
            var i :| 0 <= i < j && items[i].opens;
            assert rest[i-1] == items[i];
          }
        }
      }
    }
  }

  lemma {:induction false} ScannedAppend(a: seq<Stmt>, b: seq<Stmt>)
    requires forall w | w in a + b :: w.With?
    ensures (forall w | w in a :: w.With?) && (forall w | w in b :: w.With?)
    ensures SessionCalls(a + b) == SessionCalls(a) + SessionCalls(b) && LateCalls(a + b) == LateCalls(a) + LateCalls(b)
  {
    forall w | w in a ensures w.With? { assert w in a + b; }
    forall w | w in b ensures w.With? { assert w in a + b; }
    if a == [] {
      assert a + b == b;
    } else {
      assert (a + b)[0] == a[0] && (a + b)[1..] == a[1..] + b;
      assert forall w | w in a[1..] + b :: w in a + b;
      ScannedAppend(a[1..], b);
    }
  }

  /** Of the calls `open` made with a session open, the rule scans all but the late ones. */
  ghost predicate Scanned(open: set<Call>, withs: seq<Stmt>)
    requires forall w | w in withs :: w.With?
  {
    open == SessionCalls(withs) + LateCalls(withs)
  }

  lemma ScannedJoin(x: set<Call>, a: seq<Stmt>, y: set<Call>, b: seq<Stmt>)
    requires (forall w | w in a :: w.With?) && (forall w | w in b :: w.With?)
    requires Scanned(x, a) && Scanned(y, b)
    ensures (forall w | w in a + b :: w.With?) && Scanned(x + y, a + b)
  {
    ScannedAppend(a, b);
  }

  lemma {:induction false} StmtScanned(s: Stmt)
    ensures Scanned(StmtOpen(s, 0), Withs(s))
    decreases s, 0
  {
    match s
    case If(_, body, orelse) => BlockScanned(body); BlockScanned(orelse); TwoBlocksScanned(s, body, orelse);
    case For(_, _, body, orelse) => BlockScanned(body); BlockScanned(orelse); TwoBlocksScanned(s, body, orelse);
    case While(_, body, orelse) => BlockScanned(body); BlockScanned(orelse); TwoBlocksScanned(s, body, orelse);
    case With(_, body) => BlockScanned(body); WithScanned(s);
    case Try(body, handlers, orelse, finalbody) =>
      BlockScanned(body);
      HandlersScanned(handlers);
      BlockScanned(orelse);
      BlockScanned(finalbody);
      TryScanned(s);
    case _ =>
  }

  lemma TwoBlocksScanned(s: Stmt, body: seq<Stmt>, orelse: seq<Stmt>)
    requires match s case If(_, b, e) => b == body && e == orelse
                     case For(_, _, b, e) => b == body && e == orelse
                     case While(_, b, e) => b == body && e == orelse
                     case _ => false
    requires Scanned(BlockOpen(body, 0), BlockWiths(body)) && Scanned(BlockOpen(orelse, 0), BlockWiths(orelse))
    ensures Scanned(StmtOpen(s, 0), Withs(s))
  {
    ScannedJoin(BlockOpen(body, 0), BlockWiths(body), BlockOpen(orelse, 0), BlockWiths(orelse));
  }

  lemma TryScanned(s: Stmt)
    requires s.Try?
    requires Scanned(BlockOpen(s.body, 0), BlockWiths(s.body))
    requires Scanned(HandlersOpen(s.handlers, 0), HandlerWiths(s.handlers))
    requires Scanned(BlockOpen(s.orelse, 0), BlockWiths(s.orelse))
    requires Scanned(BlockOpen(s.finalbody, 0), BlockWiths(s.finalbody))
    ensures Scanned(StmtOpen(s, 0), Withs(s))
  {
    var b, h, e, f := BlockWiths(s.body), HandlerWiths(s.handlers), BlockWiths(s.orelse), BlockWiths(s.finalbody);
    var x, y, z := BlockOpen(s.body, 0), HandlersOpen(s.handlers, 0), BlockOpen(s.orelse, 0);
    ScannedJoin(x, b, y, h);
    ScannedJoin(x + y, b + h, z, e);
    ScannedJoin(x + y + z, b + h + e, BlockOpen(s.finalbody, 0), f);
  }

  lemma WithScanned(s: Stmt)
    requires s.With? && Scanned(BlockOpen(s.body, 0), BlockWiths(s.body))
    ensures Scanned(StmtOpen(s, 0), Withs(s))
  {
    var inner := BlockWiths(s.body);
    LoneWith(s);
    var now := SessionBody(s) + ItemsOpen(s.items, 0) + BlockOpen(s.body, 0);
    ScannedJoin(SessionBody(s) + ItemsOpen(s.items, 0), [s], BlockOpen(s.body, 0), inner);
    if Opens(s.items) > 0 {
      AllOpenBlock(s.body, Opens(s.items));
      OpenAreCalls(s.body, 0);
    }
    assert StmtOpen(s, 0) == now;
  }

  lemma LoneWith(s: Stmt)
    requires s.With?
    ensures (forall w | w in [s] :: w.With?) && Scanned(SessionBody(s) + ItemsOpen(s.items, 0), [s])
  {
    assert [s][1..] == [];
    assert SessionCalls([s]) == SessionBody(s) + SessionCalls([]) && LateCalls([s]) == ItemsOpen(s.items, 0) + LateCalls([]);
  }

  lemma {:induction false} BlockScanned(ss: seq<Stmt>)
    ensures Scanned(BlockOpen(ss, 0), BlockWiths(ss))
    decreases ss, 0
  {
    if ss != [] {
      StmtScanned(ss[0]);
      BlockScanned(ss[1..]);
      ScannedJoin(StmtOpen(ss[0], 0), Withs(ss[0]), BlockOpen(ss[1..], 0), BlockWiths(ss[1..]));
    }
  }

  lemma {:induction false} HandlersScanned(hs: seq<Handler>)
    ensures Scanned(HandlersOpen(hs, 0), HandlerWiths(hs))
    decreases hs, 0
  {
    if hs != [] {
      BlockScanned(hs[0].body);
      HandlersScanned(hs[1..]);
      ScannedJoin(BlockOpen(hs[0].body, 0), BlockWiths(hs[0].body), HandlersOpen(hs[1..], 0), HandlerWiths(hs[1..]));
    }
  }

  /** Every slow call made while a session block is open is reported, unless it is made by a late
      context expression. */
  lemma BodyRuleMissesOnlyLate(body: seq<Stmt>, c: Call)
    requires MadeOpen(OfBlock(body), c)
    ensures c in SessionCalls(BlockWiths(body)) + LateCalls(BlockWiths(body))
  {
    BlockMarks(body, 0);
    BlockScanned(body);
    OpenCallsExactly(OfBlock(body), c);
    HitIsEmitted(IDLE, MarkProg(OfBlock(body), 0), false, Within(c), false);
  }

  /** The rule reports exactly the slow calls that some run makes while a session is open, iff every slow
      late call that can be made so is scanned as well, and every scanned slow call can be made so. */
  lemma BodyRuleExactly(body: seq<Stmt>)
    ensures var p, scanned, late := OfBlock(body), SessionCalls(BlockWiths(body)), LateCalls(BlockWiths(body));
            (forall c: Call | c.slow.Some? :: MadeOpen(p, c) <==> c in scanned)
            <==> (forall c: Call | c.slow.Some? && c in late && CanCallOpen(p, c) :: c in scanned)
                 && (forall c: Call | c.slow.Some? && c in scanned :: CanCallOpen(p, c))
  {
    var p, scanned, late := OfBlock(body), SessionCalls(BlockWiths(body)), LateCalls(BlockWiths(body));
    forall c ensures (MadeOpen(p, c) <==> CanCallOpen(p, c)) && (MadeOpen(p, c) ==> c in scanned + late) {
      BlockMarks(body, 0);
      OpenCallsExactly(p, c);
      if MadeOpen(p, c) { BodyRuleMissesOnlyLate(body, c); }
    }
  }

  /** Without dead code only the late calls can spoil it. */
  lemma BodyRuleIsExact(body: seq<Stmt>)
    requires NoDeadCode(OfBlock(body))
    ensures var scanned, late := SessionCalls(BlockWiths(body)), LateCalls(BlockWiths(body));
            (forall c: Call | c.slow.Some? :: MadeOpen(OfBlock(body), c) <==> c in scanned)
            <==> (forall c: Call | c.slow.Some? && c in late :: c in scanned)
  {
    var scanned, late := SessionCalls(BlockWiths(body)), LateCalls(BlockWiths(body));
    BodyRuleExactly(body);
    forall c | c in scanned + late ensures CanCallOpen(OfBlock(body), c) {
      BlockMarks(body, 0);
      BlockScanned(body);
      LiveCallsRun(OfBlock(body), 0, c);
    }
  }

  const SLOW_CALL := Call(3, NoOp, Some("session-http"), false)

  lemma WithUnfolds(item: WithItem, rest: seq<WithItem>, body: Prog)
    ensures var inner := OfWith(rest, body);
            OfWith([item] + rest, body) ==
            Seq(OfExpr(item.context), Swallow(if item.opens then Session(inner) else inner))
    ensures Opens([item] + rest) == (if item.opens then 1 else 0) + Opens(rest)
  {
    assert ([item] + rest)[1..] == rest;
  }

  lemma OneStatement(s: Stmt)
    ensures CanCallOpen(OfStmt(s), SLOW_CALL) <==> CanCallOpen(OfBlock([s]), SLOW_CALL)
    ensures BlockWiths([s]) == Withs(s) && BlockCalls([s]) == StmtCalls(s)
  {
    assert [s][1..] == [];
    assert OfBlock([s]) == Seq(OfStmt(s), Leave(Fell));
    var q := MarkProg(OfStmt(s), 0);
    assert MarkProg(OfBlock([s]), 0) == Seq(q, Leave(Fell));
    assert CanHit(IDLE, Seq(q, Leave(Fell)), false, Within(SLOW_CALL), false) <==>
           CanHit(IDLE, q, false, Within(SLOW_CALL), false) by {
      assert forall b1 :: !CanHit(IDLE, Leave(Fell), b1, Within(SLOW_CALL), false);
    }
    assert BlockWiths([s]) == Withs(s) + BlockWiths([s][1..]);
  }

  /** `with session_scope(), httpx.stream(...):` makes a slow call with the session open, unreported. */
  lemma LateCallIsMissed()
    ensures var items := [WithItem(NOTHING, true)] + [WithItem(Invoke(SLOW_CALL, []), false)];
            var body := [With(items, [])];
            MadeOpen(OfBlock(body), SLOW_CALL) && SLOW_CALL !in SessionCalls(BlockWiths(body))
  {
    var first, late := WithItem(NOTHING, true), WithItem(Invoke(SLOW_CALL, []), false);
    var s := With([first] + [late], []);
    OpenedThenHits(first, [late], OfWith([late], Leave(Fell)));
    LoneStatement(s);
    assert SessionBody(s) == {};
  }

  lemma LateItemHits(late: WithItem)
    requires late == WithItem(Invoke(SLOW_CALL, []), false)
    ensures CanHit(IDLE, MarkProg(OfWith([late], Leave(Fell)), 1), false, Within(SLOW_CALL), false)
  {
    WithUnfolds(late, [], Leave(Fell));
    assert [late] + [] == [late];
    CallMarked();
  }

  lemma OpenedThenHits(first: WithItem, rest: seq<WithItem>, inner: Prog)
    requires first == WithItem(NOTHING, true) && rest == [WithItem(Invoke(SLOW_CALL, []), false)]
    requires inner == OfWith(rest, Leave(Fell))
    ensures CanCallOpen(OfStmt(With([first] + rest, [])), SLOW_CALL)
  {
    LateItemHits(rest[0]);
    WithUnfolds(first, rest, Leave(Fell));
    OpenedHits(inner);
    assert OfStmt(With([first] + rest, [])) == OfWith([first] + rest, Leave(Fell));
  }

  lemma OpenedHits(inner: Prog)
    requires CanHit(IDLE, MarkProg(inner, 1), false, Within(SLOW_CALL), false)
    ensures CanCallOpen(Seq(OfExpr(NOTHING), Swallow(Session(inner))), SLOW_CALL)
  {
    SwallowHits(inner, SLOW_CALL);
    assert MarkProg(OfExpr(NOTHING), 0) == Leave(Fell);
    SeqHits(IDLE, Leave(Fell), MarkProg(Swallow(Session(inner)), 0), false, false, Within(SLOW_CALL), false);
  }

  /** A statement whose call can hit in an open session makes it; only its body is scanned. */
  lemma LoneStatement(s: Stmt)
    requires s.With? && CanCallOpen(OfStmt(s), SLOW_CALL) && SessionBody(s) == {}
    ensures MadeOpen(OfBlock([s]), SLOW_CALL) && SessionCalls([s]) == {}
  {
    OneStatement(s);
    BlockMarks([s], 0);
    OpenCallsExactly(OfBlock([s]), SLOW_CALL);
    assert SessionCalls([s]) == SessionBody(s) + SessionCalls([s][1..]);
  }

  lemma CallMarked()
    ensures CanHit(IDLE, MarkProg(OfExpr(Invoke(SLOW_CALL, [])), 1), false, Within(SLOW_CALL), false)
  {
    var call := Seq(Emit(Within(SLOW_CALL)), MarkProg(MAY_RAISE, 1));
    assert CanHit(IDLE, call, false, Within(SLOW_CALL), false);
    assert MarkProg(OfExpr(Invoke(SLOW_CALL, [])), 1) == Seq(Leave(Fell), call);
    SeqHits(IDLE, Leave(Fell), call, false, false, Within(SLOW_CALL), false);
  }

  lemma SwallowHits(p: Prog, c: Call)
    requires CanHit(IDLE, MarkProg(p, 1), false, Within(c), false)
    ensures CanHit(IDLE, MarkProg(Swallow(Session(p)), 0), false, Within(c), false)
  {
    assert MarkProg(Session(p), 0) == Session(MarkProg(p, 1));
    assert CanHit(IDLE, Session(MarkProg(p, 1)), false, Within(c), false);
  }

  /** Dead code in a session block is reported though no run reaches it. */
  lemma DeadCallIsReported()
    ensures var block := [Return(2, None)] + [Simple(Invoke(SLOW_CALL, []))];
            var body := [With([WithItem(NOTHING, true)], block)];
            SLOW_CALL in SessionCalls(BlockWiths(body)) && !MadeOpen(OfBlock(body), SLOW_CALL)
  {
    var exit, dead, item := Return(2, None), Simple(Invoke(SLOW_CALL, [])), WithItem(NOTHING, true);
    var block := [exit] + [dead];
    ReturnBlocks([dead], 1);
    OpenedMisses(item, block);
    LoneMiss(With([item], block));
    LastIsScanned(item, exit, dead);
  }

  lemma OpenedMisses(item: WithItem, block: seq<Stmt>)
    requires item == WithItem(NOTHING, true)
    requires !CanHit(IDLE, MarkProg(OfBlock(block), 1), false, Within(SLOW_CALL), false)
    ensures !CanCallOpen(OfStmt(With([item], block)), SLOW_CALL)
  {
    WithUnfolds(item, [], OfBlock(block));
    assert [item] + [] == [item];
    SwallowHitsOnly(OfBlock(block));
  }

  lemma LoneMiss(s: Stmt)
    requires !CanCallOpen(OfStmt(s), SLOW_CALL)
    ensures !MadeOpen(OfBlock([s]), SLOW_CALL)
  {
    OneStatement(s);
    BlockMarks([s], 0);
    OpenCallsExactly(OfBlock([s]), SLOW_CALL);
  }

  lemma LastIsScanned(item: WithItem, exit: Stmt, dead: Stmt)
    requires item.opens && dead == Simple(Invoke(SLOW_CALL, []))
    ensures SLOW_CALL in SessionCalls(BlockWiths([With([item], [exit] + [dead])]))
  {
    var block, s := [exit] + [dead], With([item], [exit] + [dead]);
    assert block[1..] == [dead];
    OneStatement(dead);
    OneStatement(s);
    Alone(dead.e);
    assert SLOW_CALL in SessionBody(s);
    assert Withs(s)[0] == s && SessionCalls(Withs(s)) == SessionBody(s) + SessionCalls(Withs(s)[1..]);
  }

  lemma ReturnBlocks(rest: seq<Stmt>, depth: nat)
    ensures !CanHit(IDLE, MarkProg(OfBlock([Return(2, None)] + rest), depth), false, Within(SLOW_CALL), false)
  {
    var exit := MarkProg(OfStmt(Return(2, None)), depth);
    assert ([Return(2, None)] + rest)[1..] == rest;
    assert exit == Seq(Emit(BareReturn(2)), Leave(Returned));
    assert forall b1 :: !CanEnd(IDLE, exit, false, Fell, b1);
    assert !CanHit(IDLE, exit, false, Within(SLOW_CALL), false);
  }

  lemma SwallowHitsOnly(p: Prog)
    requires !CanHit(IDLE, MarkProg(p, 1), false, Within(SLOW_CALL), false)
    ensures !CanCallOpen(Seq(OfExpr(NOTHING), Swallow(Session(p))), SLOW_CALL)
  {
    var inner, again := Session(MarkProg(p, 1)), Choose(Leave(Fell), Leave(Raised));
    var swallow := Branch(inner, Leave(Fell), Raised, again);
    assert !CanHit(IDLE, inner, false, Within(SLOW_CALL), false);
    SwallowMisses(inner);
    MarkedSwallow(p);
    assert forall b1 :: CanEnd(IDLE, Leave(Fell), false, Fell, b1) ==> !b1;
    assert !CanHit(IDLE, Seq(Leave(Fell), swallow), false, Within(SLOW_CALL), false);
  }

  lemma SwallowMisses(inner: Prog)
    requires !CanHit(IDLE, inner, false, Within(SLOW_CALL), false)
    ensures !CanHit(IDLE, Branch(inner, Leave(Fell), Raised, Choose(Leave(Fell), Leave(Raised))), false, Within(SLOW_CALL), false)
  {
    var again := Choose(Leave(Fell), Leave(Raised));
    assert forall b1 :: !CanHit(IDLE, again, b1, Within(SLOW_CALL), false) && !CanHit(IDLE, Leave(Fell), b1, Within(SLOW_CALL), false);
  }

  lemma MarkedSwallow(p: Prog)
    ensures MarkProg(Seq(OfExpr(NOTHING), Swallow(Session(p))), 0) ==
            Seq(Leave(Fell), Branch(Session(MarkProg(p, 1)), Leave(Fell), Raised, Choose(Leave(Fell), Leave(Raised))))
  {
    assert OfExpr(NOTHING) == OfExprs([]) == Leave(Fell);
    assert MarkProg(Session(p), 0) == Session(MarkProg(p, 1));
    assert MarkProg(Choose(Leave(Fell), Leave(Raised)), 0) == Choose(Leave(Fell), Leave(Raised));
  }

  // ----- what the parameter rule is worth -----

  /** Every slow call that some run makes while the caller's transaction is held is reported. */
  ghost predicate ParamRuleMissesNothing(fn: Function) {
    forall o, i: nat ::
      var t := Exec(OfBlock(fn.body), o).trace;
      i < |t| && t[i].Called? && t[i].call.slow.Some? && Bits(HELD, true, t[..i]) ==> t[i].call in HeldCalls(fn)
  }

  /** That is so exactly when no suppressed call leaks past the release line. */
  lemma ParamRuleMissesNothingExactly(fn: Function)
    requires fn.takesSession
    ensures var released := ReleaseOf(TopCalls(fn.body));
            ParamRuleMissesNothing(fn) <==> (released.Some? ==> !LeaksPast(fn.body, released.value))
  {
    var p, released := OfBlock(fn.body), ReleaseOf(TopCalls(fn.body));
    forall o, i: nat | i < |Exec(p, o).trace| && Exec(p, o).trace[i].Called?
      ensures Exec(p, o).trace[i].call in BlockCalls(fn.body)
    {
      var t := Exec(p, o).trace;
      HitSound(HELD, p, true, o, i);
      HitIsEmitted(HELD, p, true, t[i], Bits(HELD, true, t[..i]));
      EmitsOfBlock(fn.body);
    }
    if released.Some? {
      SuppressionExactly(fn.body, released.value);
    }
  }
}
