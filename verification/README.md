# Verified models of the static gates and measurement kernels

The repository guards its backend with scripts that read source code and make a claim about every run
of it, and measures it with a few small algorithms. This project models both in Dafny and proves what
they are for. `dafny verify dfyconfig.toml` checks everything.

**Detectors over a shared semantics.** `Python.dfy` is the statement language the auditors read (calls,
assertions, bare returns, `if`, `for`, `while`, `with`, `try`, early exits). `Runs.dfy` gives every block
a set of runs: an oracle resolves each branch, loop count and exception, and a run is a trace of events
with an exit. `Typestate.dfy` computes, for any one-bit property of a trace, from which bits a program can
end how and can perform an event, and proves that computation exact, both ways. The detectors are proved
against the runs through it:

* the session-lifetime auditor: `Release.dfy` and `ReleaseGaps.dfy` (the release line), `SessionScan.dfy`
  (both rules, the recorder) over `Depths.dfy`, `Written.dfy` and `Calls.dfy`;
* the test auditor: `BareReturns.dfy` and `SilentReturns.dfy`, `Vacuity.dfy` and `PlainBodies.dfy` (over `Emitted.dfy`), `FixtureServices.dfy`, and constant
  propagation over a small expression language: `Terms.dfy`, `Nonempty.dfy`, `SingleBindings.dfy`,
  `LoopPasses.dfy`, `LiteralTerms.dfy`, `StringLiterals.dfy`.

**The allowlist.** `Allowlist.dfy` (grouping, pairing, stale entries, the gate, whole histories) and
`AllowlistText.dfy` (parsing, refusal, printing).

**The route matcher.** `UrlStrings.dfy` (templates with wildcards, capped products, `str.format`),
`UrlExpressions.dfy` (the strings an expression can hold), `Routes.dfy` (segments, buckets, coverage).

**The kernels.** `Clusters.dfy` (duration bands), `StageAccounting.dfy` (stage times and peak memory),
`Poller.dfy` (the batch poller), `Percentile.dfy` (both percentiles), over `Sorting.dfy`. `Options.dfy` and `Sets.dfy` are shared helpers.

## Where the code and its description differ

The model follows the code. Each point below is a lemma.

* `_release_line` says a conditional close is never taken for a release. It steps over compound statements,
  but a close in one arm of a conditional expression is taken (`ConditionalCloseIsTrusted`), a re-arm inside
  a later `if` is not seen (`RearmInBranchIsMissed`), and because the walk is breadth-first a nested close can
  be read after the call that really comes last (`NestedCloseIsReadLast`). Suppression is right exactly when
  `LeaksPast`, which a caller can compute, is false (`SuppressionExactly`).
* The body rule looks at `with` bodies only: `with session_scope(), httpx.stream(...)` passes
  (`LateCallIsMissed`), and it reports dead code (`DeadCallIsReported`). `BodyRuleExactly` says exactly when
  neither happens, by a check that can be computed.
* `_bare_returns` describes evidence in any enclosing block; the code counts that of the outermost block and of
  the return's own block only (`WalkIsVerdict`, `EvidenceInBetweenIsNotCounted`). A caught exception or a
  conditional expression can hide a silent return (`CaughtExceptionHidesReturn`, `HalfEvidenceIsTrusted`). None
  is hidden exactly when a check that can be computed is false: `Misses` for exception-free runs
  (`NothingMissedExactly`), `MissesEver` for all runs (`NothingEverMissedExactly`).
* `_static_nonempty` trusts the bare name of a call (`BuiltinNameIsTrusted`). `_loop_only` lays a function's
  single names over the module's, so a module name bound twice in the function keeps the module's value
  (`RebindingIsMissed`), and a function's name can vouch for a module name that was bound by another name's
  value (`ShadowedNameVouches`). `MergedTableKept` says when the merged table is right. Bindings the tally does
  not look at (parameters, `:=`, `except ... as`, imports, nested definitions) break the verdict exactly when they
  bind a name it judges (`NonemptyThroughout`).
* `_fully_literal` does not look at format specifications (`FormatSpecIsOverlooked`). What it accepts has one
  value if the specifications it reaches are fixed, names followed, and, where they end at unbound names or
  outside code whose bindings can follow their values, only if (`FullyLiteralIsFixed`). For every shape, two
  environments agree on the value exactly when they agree on what the specifications end at (`SameExactly`).
* `_strings` promises every string a node could evaluate to. Substituting format fields keeps that promise
  exactly when doubled braces pair up around plain text (`FormatCoveredExactly`), and ignoring `strip` exactly
  when the first and last resolved letters are not among those stripped (`StripCoveredExactly`).
* Pairing findings with lines says it does not matter which line covers which finding. The counts depend on
  the order of a key's lines unless all or none are used, or all are of one kind (`OrderMattersExactly`); in a
  passing state they never do (`PassingCounts`).
* The session auditor's guard against an empty allowlist key cannot fire (`KeyIsNeverEmpty`), and the width
  filter on clusters removes nothing (`WidthFilterIsRedundant`).
* The poller finds records by id, so the report of a failed dispatch survives exactly when no other record was
  dispatched under its id (`FailureKeptExactly`); naming a file twice is enough to lose it (`LostFailure`).

## Model

| member | source | states |
|---|---|---|
| `Typestate.HitsExactly` | scripts/audit-session-lifetime.py:394-435 | for every one-bit machine and program, the analysis predicts an event under a bit iff some run performs it under that bit |
| `Typestate.EndsExactly` | scripts/audit-session-lifetime.py:394-435 | the analysis predicts an exit with a bit iff some run ends so |
| `Calls.WalkIsEvaluated` | scripts/audit-session-lifetime.py:425-434 | the breadth-first walk of an expression meets every call as often as evaluation order lists it |
| `Calls.WalkIsByLevels` | scripts/audit-session-lifetime.py:425-434 | the walk is breadth first: all calls of one level of the expression before those of the next |
| `Release.ReleaseLine` | scripts/audit-session-lifetime.py:394-435 | the loop over top-level statements yields the release line of the calls in the simple ones, compound ones stepped over |
| `Release.ReleaseWithin` | scripts/audit-session-lifetime.py:425-434 | the inner loop over one statement's calls continues the release line of the calls before it |
| `Release.ReleaseIsLastClose` | scripts/audit-session-lifetime.py:394-435 | a release line is the line of a close after which no top-level simple statement touches the session; none means every such close is followed by a re-arm |
| `Release.SuppressionExactly` | scripts/audit-session-lifetime.py:539-580 | in no run does a suppressed slow call meet a held transaction, iff the computable check for leaks past the line is false |
| `Release.TidySuppressionIsSound` | scripts/audit-session-lifetime.py:394-435 | suppression is sound whenever simple statements touch the session at most once and unconditionally, lines follow statement order, and every compound statement that may re-arm is followed by a top-level close |
| `Release.StraightLineIsExact` | scripts/audit-session-lifetime.py:397-402 | on straight-line code there is a release line iff the code, when it completes, leaves the transaction released |
| `Release.NestedCloseIsNoRelease` | scripts/audit-session-lifetime.py:404-406 | a close written only inside compound statements never yields a release |
| `Release.OrderIsIrrelevant` | scripts/audit-session-lifetime.py:425-434 | two orders of the same calls, at most one of which touches the session, leave the transaction alike |
| `ReleaseGaps.HeldAtEndLeaks` | scripts/audit-session-lifetime.py:539-580 | a body that can complete with the transaction held in spite of its release line lets the next slow call through |
| `ReleaseGaps.RearmInBranchIsMissed` | scripts/audit-session-lifetime.py:420-423 | a re-arm inside an `if` after the close is not seen: line 1 is reported, a run ends with the transaction held |
| `ReleaseGaps.NestedCloseIsReadLast` | scripts/audit-session-lifetime.py:425-434 | with two session calls in one statement the breadth-first walk takes the wrong one for the last |
| `ReleaseGaps.ConditionalCloseIsTrusted` | scripts/audit-session-lifetime.py:404-406 | a close in one arm of a conditional expression reads as an unconditional release |
| `Depths.OpenCallsExactly` | scripts/audit-session-lifetime.py:522-537 | some run makes a call while a session block is open, iff the analysis of the marked program reaches the marked call |
| `Depths.MarksAgree` | scripts/audit-session-lifetime.py:522-537 | whether a call runs at positive session depth is decided by where it is written, and sessions are always closed again, on every exit |
| `Depths.LiveCallsRun` | scripts/audit-session-lifetime.py:522-537 | without dead code every call written in a session block is made there by some run |
| `Written.StmtMarks` | scripts/audit-session-lifetime.py:529-535 | a statement makes a call with a session open only where the lexical nesting says so |
| `Written.EmitsOfStmt` | scripts/audit-session-lifetime.py:534 | a statement can make the calls written in it and no others |
| `SessionScan.Recorder.Record` | scripts/audit-session-lifetime.py:505-520 | records a finding once per category, line and scope, keeping the order of first sight |
| `SessionScan.RecordSlow` | scripts/audit-session-lifetime.py:534-537 | adds exactly the slow calls among the calls it is given |
| `SessionScan.BodyRule` | scripts/audit-session-lifetime.py:522-537 | adds exactly the slow calls in bodies of session `with` statements, nested ones once |
| `SessionScan.ParamRule` | scripts/audit-session-lifetime.py:539-580 | adds exactly the slow calls of a function taking a session that its release line does not excuse |
| `SessionScan.ScanSource` | scripts/audit-session-lifetime.py:489-583 | the findings hold no duplicates; every slow call some run makes with a session open, unless late, is named by its category, line and scope, every one made with the transaction held is named if none is held past the release, every one written up to the release is named; and nothing else is named |
| `SessionScan.FindingsMeanCalls` | scripts/audit-session-lifetime.py:505-583 | what the two rules report, taken together, says exactly that about the calls of the functions scanned |
| `SessionScan.BodyRuleMissesOnlyLate` | scripts/audit-session-lifetime.py:529-535 | every call some run makes with a session open is scanned, or is in a context expression after an item that opens the session |
| `SessionScan.BodyRuleExactly` | scripts/audit-session-lifetime.py:529-535 | the rule reports exactly the slow calls some run makes with a session open, iff each slow late call that can be made so is scanned and each slow scanned call can be made so |
| `SessionScan.BodyRuleIsExact` | scripts/audit-session-lifetime.py:529-535 | without dead code it is exact iff no late context expression makes an unscanned slow call |
| `SessionScan.LateCallIsMissed` | scripts/audit-session-lifetime.py:529-535 | a slow call in a later item of the same `with` is made with the session open and not scanned |
| `SessionScan.DeadCallIsReported` | scripts/audit-session-lifetime.py:529-535 | a slow call after a `return` in a session body is reported though no run makes it |
| `SessionScan.ParamRuleMissesNothingExactly` | scripts/audit-session-lifetime.py:539-580 | the rule misses no slow call made with the transaction held, iff nothing leaks past the release line |
| `BareReturns.ListsAreSmaller` | scripts/audit-tests.py:1467-1479 | every statement list under a statement is smaller than it, so the overlapping recursion terminates |
| `BareReturns.Walker.WalkBlock` | scripts/audit-tests.py:1387-1395 | the recursive walk adds exactly the lines of the bare returns it reaches with nothing seen |
| `BareReturns.WalkIsVerdict` | scripts/audit-tests.py:1387-1395 | the overlapping visits report a return iff neither its own block's prefix nor the outermost block's prefix holds unconditional evidence |
| `BareReturns.BareReturns` | scripts/audit-tests.py:1365-1398 | returns exactly the lines of that verdict |
| `BareReturns.SilentReturnExactly` | scripts/audit-tests.py:1365-1398 | an exception-free run reaches a bare return with nothing asserted or reported, iff the analysis says so |
| `BareReturns.SilentReturnIsReported` | scripts/audit-tests.py:1333-1398 | every return some exception-free run reaches silently is reported, if no evidence hides in one arm of a conditional expression |
| `BareReturns.NothingMissedExactly` | scripts/audit-tests.py:1333-1398 | every return some exception-free run reaches silently is reported, iff the computed check finds none outside the verdict |
| `BareReturns.NothingEverMissedExactly` | scripts/audit-tests.py:1333-1398 | the same over all runs, caught exceptions included: every return any run reaches with nothing asserted is reported, iff the computed check finds none outside the verdict |
| `BareReturns.EvidenceInBetweenIsNotCounted` | scripts/audit-tests.py:1368-1371 | evidence in a block between the outermost and the return's own does not count: the return is reported though every run asserts first |
| `BareReturns.CaughtExceptionHidesReturn` | scripts/audit-tests.py:1333-1362 | a `try` counts as evidence though a caught exception can skip its assertion: some run reaches the return silently |
| `BareReturns.HalfEvidenceIsTrusted` | scripts/audit-tests.py:1313-1330 | a reporting call in one arm of a conditional expression counts as evidence though an exception-free run skips it |
| `SilentReturns.ReturnExactly` | scripts/audit-tests.py:1333-1398 | after statements that control goes past (`with` and `try` blocks to any depth, branches and loops that may be skipped) a return is reported iff some exception-free run reaches it with nothing asserted or reported |
| `SilentReturns.BranchReturnExactly` | scripts/audit-tests.py:1387-1395 | so is a return inside a branch, after such statements in the branch and before it |
| `SilentReturns.NothingToldAllReported` | scripts/audit-tests.py:1365-1398 | in a test in which nothing asserts or reports, the lines reported are exactly those of the bare returns written anywhere in it |
| `SilentReturns.ReturnsAreListed` | scripts/audit-tests.py:1467-1479 | the statement lists under a statement hold exactly the bare returns its runs can perform |
| `SilentReturns.CaughtRaiseExactly` | scripts/audit-tests.py:1357-1362 | after a `try` whose raised exception is caught, a return is reported iff some run reaches it silently, iff the call making the exception does not report |
| `Vacuity.ConditionalOnly` | scripts/audit-tests.py:393-404 | true iff there are assertions and each lies under an `if` without `else` |
| `Vacuity.LoopOnly` | scripts/audit-tests.py:524-544 | true iff there are assertions and each lies under a `for` over an iterable not known to be nonempty |
| `Vacuity.AssertsArePerformed` | scripts/audit-tests.py:393-404 | the assertions collected are exactly those the runs can perform |
| `Vacuity.GuardedNeverRuns` | scripts/audit-tests.py:393-404 | if every assertion is guarded, no run that enters no guard executes one |
| `Vacuity.AllGuardedExactly` | scripts/audit-tests.py:393-404 | the general form, early exits included: where everything outside guards is reachable without entering one, every assertion is guarded iff no run executes any before entering a guard |
| `Vacuity.VacuousPass` | scripts/audit-tests.py:524-544 | the general form: if some run completes without entering a guard, and every assertion is guarded, that run executes none |
| `PlainBodies.PlainVacuousPass` | scripts/audit-tests.py:524-544 | on a body without early exits whose assertions are all guarded, some run completes with every such `if` false and every such iterable empty, and asserts nothing |
| `PlainBodies.PlainVerdictExactly` | scripts/audit-tests.py:393-404 | on a body without early exits, whose handlers stand where something may raise, every assertion is guarded iff no run executes any before entering a guard |
| `PlainBodies.PlainRunsExactly` | scripts/audit-tests.py:393-404 | on such a body, every assertion is guarded iff no run that enters no guard from start to end executes any; and iff no such run that also completes does |
| `SingleBindings.SingleAssignments` | scripts/audit-tests.py:442-475 | the counter and dictionary loop yields exactly the names bound once, as a whole, with their values |
| `Nonempty.NonemptySound` | scripts/audit-tests.py:478-521 | in any environment that agrees with the bindings, an expression judged nonempty evaluates, if at all, to something with an element, cyclic bindings included; only the names the verdict follows matter |
| `Nonempty.RangeExactly` | scripts/audit-tests.py:510-516 | for `range` over constants the verdict is true iff the range has an element |
| `Nonempty.NonemptyExactly` | scripts/audit-tests.py:478-521 | where an expression evaluates, in an environment that agrees with the bindings, it is judged nonempty iff its length is static (text, displays and dictionaries without splices, truthy constants, and what `range`, `zip`, the length-preserving built-ins and the views make of them, names followed) and it has an element |
| `SingleBindings.NonemptyThroughout` | scripts/audit-tests.py:442-521 | at every moment of every run of one scope's binding sites each single-assignment name judged nonempty holds, where bound, a nonempty value, iff no site the tally overlooks binds such a name |
| `SingleBindings.MergedTableKept` | scripts/audit-tests.py:529-530 | so does the table of a function's single names laid over the module's, iff each name judged nonempty that the function leaves alone is judged so by the module's table, and each it binds is bound by assignments only |
| `SingleBindings.RebindingIsMissed` | scripts/audit-tests.py:529-530 | a module name bound twice in the function is still judged by the module's value, though it becomes empty |
| `SingleBindings.ShadowedNameVouches` | scripts/audit-tests.py:529-530 | a function's name vouches for a module name bound by the module's name of that name, which is empty |
| `Nonempty.BuiltinNameIsTrusted` | scripts/audit-tests.py:502-509 | a method named like a built-in is judged nonempty though it may return nothing |
| `LoopPasses.MarkedLoopRuns` | scripts/audit-tests.py:533-535 | a loop marked by the verdict on its iterable has every run over the elements the iterable really has: marked nonempty, it is entered |
| `LiteralTerms.FullyLiteralIsFixed` | scripts/audit-tests.py:1086-1116 | an accepted expression has one value in all environments that agree with the bindings if the format specifications it reaches are fixed, names followed; and only if, where they end at unbound names or outside code whose bindings can follow their values |
| `LiteralTerms.FixedExactly` | scripts/audit-tests.py:1086-1116 | with such leaves, reached directly or through names, any expression that evaluates has one value iff it resolves to literals throughout, specifications included |
| `LiteralTerms.SameExactly` | scripts/audit-tests.py:1086-1116 | an expression has one value in all environments that agree with the bindings iff, where it evaluates, everything that resolving it ends at has |
| `LiteralTerms.LiteralIsFixedBarSpecs` | scripts/audit-tests.py:1086-1116 | what is accepted resolves to literals throughout iff the specifications it passes over do |
| `LiteralTerms.FullyLiteralExactly` | scripts/audit-tests.py:1086-1116 | where all format specifications are fixed, and with leaves as above, an expression is accepted iff it has one value in all environments that agree with the bindings |
| `LiteralTerms.FixedIsLiteral` | scripts/audit-tests.py:1086-1116 | whatever resolves to literals throughout, specifications included, is accepted |
| `LiteralTerms.FormatSpecIsOverlooked` | scripts/audit-tests.py:1086-1116 | an f-string whose width nothing binds, or outside code does, is accepted though its value varies; with the width bound to a number it does not vary |
| `StringLiterals.LiteralStrings` | scripts/audit-tests.py:1119-1135 | the explicit stack terminates, on cyclic bindings too, and yields exactly the string literals of the recursive unfolding |
| `StringLiterals.LiteralsExactly` | scripts/audit-tests.py:1119-1135 | a string is found iff some chain of names, each mentioned in what the one before is bound to, leads from the expression to a constant, cycles or not |
| `FixtureServices.Round` | scripts/audit-tests.py:862-873 | one in-place pass over the fixtures only adds services, keeps below every closed bound, hands on what requests had before, and says whether anything changed |
| `FixtureServices.RoundProgresses` | scripts/audit-tests.py:862-873 | a service not yet settled after a round has spread to one more fixture: the round limit suffices |
| `FixtureServices.FixtureServices` | scripts/audit-tests.py:837-874 | each fixture ends with exactly the services patched by some fixture reachable from it, whatever cycles and unknown names there are |
| `FixtureServices.LastOfName` | scripts/audit-tests.py:858-860 | of functions with one name the last one's patches and requests count |
| `FixtureServices.KnownNames` | scripts/audit-tests.py:858-860 | the fixtures known are those some function is named after |
| `Allowlist.GroupByKey` | scripts/audit-tests.py:1948-1950 | the groups are the findings of each key in order, with every finding in one |
| `Allowlist.Pair` | scripts/audit-tests.py:1960-1964 | one group: findings meet reasons by position, those meeting a backlog reason are deferred, the others counted |
| `Allowlist.DeferredByPosition` | scripts/audit-tests.py:1957-1961 | whether a finding of a group is deferred is decided by the line at its own position: it is iff there is one and it is a backlog line |
| `Allowlist.ApplyAllowlist` | scripts/audit-tests.py:1939-1980 | per key the open findings are those from the position its lines end at; open, backlog and accepted add up to all; stale keys are those with fewer findings than lines |
| `Allowlist.GateExactly` | scripts/audit-tests.py:1939-1980 | nothing open and nothing stale, iff findings and lines have the same keys, each as often |
| `Allowlist.SessionGateExactly` | scripts/audit-session-lifetime.py:1061-1063 | the session gate passes iff that holds and every line has a reason |
| `Allowlist.FindingsOnlyShrink` | scripts/audit-tests.py:136-143 | along any history of passing commits that add no allowlist line, the findings of a key never become more |
| `Allowlist.PassingCounts` | scripts/audit-tests.py:1954-1964 | in a passing state a key has as many deferred findings as backlog lines, whatever the order of either |
| `Allowlist.PassingTotals` | scripts/audit-tests.py:1954-1965 | in a passing state the deferred findings are as many as the backlog lines, and the accepted ones as the others |
| `Allowlist.TotalsIgnoreOrder` | scripts/audit-tests.py:1954-1965 | two passing states whose lines are permutations of each other report the same totals, whatever the order of findings |
| `Allowlist.OrderMattersExactly` | scripts/audit-tests.py:1957-1959 | the number of deferred findings is independent of the order of a key's lines iff no line or every line is used, or all lines are of one kind |
| `AllowlistText.Parse` | scripts/audit-tests.py:1896-1928 | refuses at the first line whose reason is not real, naming it; otherwise the table of all entries in order |
| `AllowlistText.EntryIsRead` | scripts/audit-tests.py:1915-1920 | a key and a reason, with any space around them and the `#`, or a key alone, are read as they stand |
| `AllowlistText.RefusedExactly` | scripts/audit-tests.py:1866-1893 | an entry is refused iff its reason is missing or, case folded, is one of the nine placeholders |
| `AllowlistText.NothingIsRead` | scripts/audit-tests.py:1914-1917 | blank lines and comments, indented or not, say nothing |
| `AllowlistText.PrintedIsRead` | scripts/audit-tests.py:1913-1927 | a printed entry reads back as itself, its reason with any further `#` |
| `AllowlistText.PrintedAreRead` | scripts/audit-tests.py:1896-1928 | any printed entries read back as the same entries in the same order, none refused |
| `AllowlistText.RoundTrip` | scripts/audit-tests.py:1896-1928 | printing entries and parsing them gives their table, with the reasons of each key in order |
| `AllowlistText.KeyIsNeverEmpty` | scripts/audit-session-lifetime.py:610-616 | a line that is not a comment always has a key |
| `AllowlistText.LoadUnchecked` | scripts/audit-session-lifetime.py:598-618 | the session auditor's loader yields the table of all entries, reasons unchecked |
| `UrlStrings.ProductsExactly` | scripts/audit-route-coverage.py:198-201 | the expansion holds the concatenations of one alternative a piece, all of them and no others |
| `UrlStrings.NeverMoreThanCap` | scripts/audit-route-coverage.py:90-93 | at most 32 templates come out |
| `UrlStrings.CappedCovers` | scripts/audit-route-coverage.py:180-201 | if each piece's value is an instance of one of its alternatives, the text is an instance of some template, collapsed or not |
| `UrlStrings.CappedExactly` | scripts/audit-route-coverage.py:192-201 | with at most 32 ways to choose an alternative of each piece the templates are exactly what the choices concatenate to; with more, pieces with one alternative keep their text and all others become wildcards |
| `UrlStrings.TotalCounts` | scripts/audit-route-coverage.py:192-194 | the product compared with the cap is the number of ways to choose |
| `UrlStrings.FirstFieldReplaced` | scripts/audit-route-coverage.py:171-174 | the substitution goes from left to right: the first innermost brace pair becomes a wildcard, what stands before it stays, the rest is treated likewise |
| `UrlStrings.FormatCoveredExactly` | scripts/audit-route-coverage.py:171-174 | replacing innermost brace pairs by wildcards covers every result of `format`, iff doubled braces pair up around plain text |
| `UrlExpressions.ExpandJoined` | scripts/audit-route-coverage.py:180-201 | the loops over pieces, sizes and products give the f-string's templates, at most 32: every choice of alternatives up to the cap, the collapsed ones beyond |
| `UrlExpressions.Pieces` | scripts/audit-route-coverage.py:182-190 | the alternatives of each piece: its literal, its resolved strings, or a wildcard |
| `UrlExpressions.StringsCover` | scripts/audit-route-coverage.py:151-177 | whatever string a faithfully read expression evaluates to is an instance of a recorded template |
| `UrlExpressions.ResolvedExactly` | scripts/audit-route-coverage.py:151-177 | an expression all of whose names and helpers resolve, within the cap and with nothing dropped, is recorded with exactly the strings it can be |
| `UrlExpressions.AddExactly` | scripts/audit-route-coverage.py:166-169 | a concatenation is recorded with every pair of its sides' strings, unless there are more than 32; then, or when a side does not resolve, with none |
| `UrlExpressions.FormatRecordsFields` | scripts/audit-route-coverage.py:171-174 | a resolved base with one field is recorded with a wildcard in its place |
| `UrlExpressions.StripCoveredExactly` | scripts/audit-route-coverage.py:175-176 | for any template of the receiver, wildcards included, recording it covers the result of `strip` on all its readings iff its first and last letters are not among the stripped ones, at the ends that are stripped |
| `UrlExpressions.StrippedUrlIsMissed` | scripts/audit-route-coverage.py:175-176 | a stripped literal URL is recorded with its slashes only |
| `Routes.MatchExactly` | scripts/audit-route-coverage.py:411-438 | the matcher says yes iff every slash-free replacement of the candidate's wildcards gives a path the route accepts |
| `Routes.FillKeepsShape` | scripts/audit-route-coverage.py:411-426 | slash-free replacements never move a segment boundary: the segments are filled one by one |
| `Routes.WildNeverMeetsLiteral` | scripts/audit-route-coverage.py:420-424 | where an unresolved segment meets a literal one, some reading of the candidate is not a path of the route |
| `Routes.SplitJoins` | scripts/audit-route-coverage.py:447 | the segments of a path hold no slash and joined by slashes give the path |
| `Routes.JoinSplits` | scripts/audit-route-coverage.py:447 | slash-free segments joined by slashes are split into themselves again |
| `Routes.SegmentsJoin` | scripts/audit-route-coverage.py:447 | what is split is the path without its trailing slashes, or a lone slash if nothing is left |
| `Routes.SegmentsEqualExactly` | scripts/audit-route-coverage.py:447 | two paths have the same segments iff they differ in trailing slashes only |
| `Routes.ParamIsBraced` | scripts/audit-route-coverage.py:429 | a route segment is a parameter iff it is a name in braces |
| `Routes.ScanTests` | scripts/audit-route-coverage.py:758-769 | each bucket holds the evidence of its length in scanning order, all that any file that parses yields and nothing else; files that do not parse are not counted |
| `Routes.BucketsMissNothing` | scripts/audit-route-coverage.py:446-451 | the bucket lookup agrees with a plain scan of all evidence |
| `Routes.CoveredExactly` | scripts/audit-route-coverage.py:441-451 | a route counts as covered iff some test call, with the route's method or an unknown one, names a path all of whose readings the route accepts |
| `Routes.PlainCallExactly` | scripts/audit-route-coverage.py:441-451 | a route without parameters is covered by a call with a known URL iff the two paths differ in trailing slashes only and the call's method is the route's or unknown |
| `Routes.TrailingSlashIsIgnored` | scripts/audit-route-coverage.py:447 | a trailing slash on the route changes no verdict |
| `Sorting.SortBySorts` | scripts/analyze-test-timing.py:133-135 | sorting by a key gives an ordered permutation |
| `Clusters.CutIntoRuns` | scripts/analyze-test-timing.py:136-147 | the runs concatenate to the input, are tight and narrow, and each starts with a case barred from the run before |
| `Clusters.FindClusters` | scripts/analyze-test-timing.py:125-154 | cuts the cases over 5 seconds, sorted, so; reports, in order and with its size, bounds, seconds and files, each run of five tests or more from three files or more, and no other |
| `Clusters.FewestGroups` | scripts/analyze-test-timing.py:136-147 | no grouping of the slow cases within the gap and the width, contiguous or not, has fewer groups than there are runs |
| `Clusters.RunsAreGroups` | scripts/analyze-test-timing.py:136-147 | any way to cut the sorted cases into tight runs is such a grouping |
| `Clusters.FewestRuns` | scripts/analyze-test-timing.py:136-147 | no other cut into tight runs has fewer runs |
| `Clusters.WidthFilterIsRedundant` | scripts/analyze-test-timing.py:149-154 | the final filter on width removes no cluster the others keep |
| `Clusters.ParkedWithinTotal` | scripts/analyze-test-timing.py:242-249 | with nonnegative durations, parked seconds and tests never exceed the totals and the share lies between 0 and 100 |
| `Clusters.ParkedExactly` | scripts/analyze-test-timing.py:242-249 | the parked tests and seconds are those of the runs reported |
| `Clusters.ShareExactly` | scripts/analyze-test-timing.py:245 | the share is the parked seconds in hundredths of all, and zero if there are none |
| `StageAccounting.StageTimer.TimingHook` | scripts/benchmark-pyannote-direct.py:468-481 | one call of the hook takes the table of the log to the table of the longer log |
| `StageAccounting.StageTimer.CaptureFinal` | scripts/benchmark-pyannote-direct.py:500-504 | the final capture gives the last stage the final reading |
| `StageAccounting.TableIsRight` | scripts/benchmark-pyannote-direct.py:468-481 | after any calls, repeated names included, each stage is listed once in order of first appearance, starts at its first event, and holds the reading at the next stage's first event |
| `StageAccounting.StagesInOrder` | scripts/benchmark-pyannote-direct.py:545 | with a rising clock the sorted stages are in order of first appearance, with those starts and end peaks |
| `StageAccounting.StageTimer.Report` | scripts/benchmark-pyannote-direct.py:539-557 | the report has, for every stage, its rounded duration, its cumulative peak and its delta, the stages taken by start time whatever the clock did |
| `StageAccounting.Summarize` | scripts/benchmark-pyannote-direct.py:545-557 | the loop fills the three maps so for any list of distinct stages |
| `StageAccounting.DeltasSumExactly` | scripts/benchmark-pyannote-direct.py:509-557 | the deltas add up to the overall peak over the baseline iff no stage peak exceeds both the final reading and the baseline |
| `StageAccounting.DeltaIsRise` | scripts/benchmark-pyannote-direct.py:541-557 | a stage's delta is how far its peak rises above the baseline and every stage before it |
| `StageAccounting.PeakIsConserved` | scripts/benchmark-pyannote-direct.py:500-557 | with a counter that never falls and one stage run, they always do |
| `StageAccounting.StagePeaksRise` | scripts/benchmark-pyannote-direct.py:541-543 | with rising clock and counter the cumulative peaks rise in stage order up to the final reading |
| `StageAccounting.TimeIsConserved` | scripts/benchmark-pyannote-direct.py:547-553 | the rounded durations add up to the time from the first stage's start to the end, within 0.0005 s a stage |
| `StageAccounting.RoundsToNearest` | scripts/benchmark-pyannote-direct.py:553 | rounding goes to the nearest value, halfway to the even one |
| `Poller.Batch.TriggerAll` | scripts/benchmark_parallel.py:680-709 | every file is dispatched or marked failed; a fresh upload is polled under its new id, a reprocessed file under its own; exactly the dispatched ids are pending |
| `Poller.Batch.PollRound` | scripts/benchmark_parallel.py:715-747 | one pass over a snapshot, in any order, settles exactly the pending ids with a final reply and keeps pending, completed and failed a partition |
| `Poller.Batch.PollUntilDone` | scripts/benchmark_parallel.py:712-778 | each dispatched id's records end with its first final status given before the deadline, the rest time out; the three sets partition the dispatched ids |
| `Poller.Batch.LeavesTogether` | scripts/benchmark_parallel.py:717-745 | a dispatched record still says so exactly while its id is pending |
| `Poller.CountsAddUp` | scripts/benchmark_parallel.py:772-777 | every file ends in exactly one of the four reported states: the counts add up to the batch |
| `Poller.EndsAsFirstTold` | scripts/benchmark_parallel.py:712-778 | a dispatched record ends completed or failed as the first round in time with a final reply about its id says, and timed out if the deadline comes first |
| `Poller.FailureKeptExactly` | scripts/benchmark_parallel.py:722-728 | a record whose dispatch failed still says so after polling, however the server answers and whenever time runs out, iff no record was dispatched under its id |
| `Poller.FailureKeptBeside` | scripts/benchmark_parallel.py:722-728 | in one polling, it still says so iff every dispatched record with its id timed out |
| `Poller.LostFailure` | scripts/benchmark_parallel.py:680-728 | a file named twice, whose first reprocess request is refused and second accepted: the failed dispatch is reported as completed |
| `Percentile.LiesBetweenNeighbours` | scripts/benchmark_parallel.py:165-169 | the result lies between the order statistics on either side of the rank |
| `Percentile.AffineInRank` | scripts/benchmark_parallel.py:165-169 | between two neighbouring ranks the result is the mean of their samples weighted by distance |
| `Percentile.PercentileExactly` | scripts/benchmark_parallel.py:158-169 | the percentages are spread evenly over the sorted samples, with that mean in between |
| `Percentile.PercentileOfFew` | scripts/benchmark_parallel.py:158-163 | one sample is every percentile; of none the result is zero |
| `Percentile.RankInRange` | scripts/benchmark_parallel.py:165-167 | for percentages from 0 to 100 the rank is within the data |
| `Percentile.RisesWithRank` | scripts/benchmark_parallel.py:165-169 | a higher rank never gives a smaller value, across interval ends too |
| `Percentile.RisesWithPercentage` | scripts/benchmark_parallel.py:158-169 | a higher percentage never gives a smaller value; 0 and 100 bound all samples |
| `Percentile.RisesWithData` | scripts/benchmark_parallel.py:165-169 | raising the sorted data pointwise never lowers the value |
| `Percentile.NearestRankSplits` | scripts/analyze-test-timing.py:108-123 | at least the given share of the samples is at most the nearest-rank value, and at most that share is below it; the index is always in range |
| `Percentile.NearestRankExactly` | scripts/analyze-test-timing.py:108-123 | it is the sorted sample at the whole number of samples the share holds, or the last |
| `Percentile.OrderDoesNotMatter` | scripts/benchmark_parallel.py:162 | the order of the samples does not matter |

## Left out

- Release.TidySuppressionIsSound: one-way, under conditions a reader can check by eye; the exact condition is the one in `SuppressionExactly`.
- BareReturns.SilentReturnIsReported: one-way, by a condition that can be read off the text; the exact one is in `NothingMissedExactly`. Both speak of exception-free runs; `NothingEverMissedExactly` is the exact form for all runs.
- Nonempty.NonemptyExactly: here and in `NonemptySound` no attribute call the verdict looks at, itself or through a name it follows, is named like a built-in; `BuiltinNameIsTrusted` shows why.
- SingleBindings.MergedTableKept: a module name the function assigns again must get values that are judged nonempty; `RebindingIsMissed` is a case where it does not.
- LiteralTerms.FullyLiteralIsFixed: the "only if" part leaves out specifications that end at a built-in call, a spliced display or merged dictionary, or a cyclic name, and leaves with a dependent binding that contains one of those; for those `SameExactly` gives the condition in terms of the environments.
- PlainBodies.PlainRunsExactly: here and in `PlainVerdictExactly` a `try` with handlers must have a simple statement or assertion directly in its body; for others `AllGuardedExactly` gives the general form.
- Vacuity.LoopOnly: says whether there is a finding, not which iterable it names.
- UrlExpressions.StringsCover: asks that no conversion or format specification is dropped from a resolved field, and that `format` is applied to resolved text and `strip` to templates they do not break; format strings with nested fields are not modelled.
- SilentReturns.ReturnExactly: returns nested deeper than a branch, or after a statement that may leave early; `WalkIsVerdict` gives the verdict for them, `NothingMissedExactly` what it misses.
- UrlStrings.FormatCoveredExactly: format strings that already hold a wildcard.
- Percentile.RankInRange: percentages outside 0 to 100, which the code's comment excludes.
- Parsing Python, `ast.unparse`, regular expressions (the path pattern of the route auditor included) and the rule vocabularies: a call carries its category, its effect on the session and whether it reports.
- Nested functions and closures in scanned blocks, `match` statements, decorators; the async forms, which the code treats as the plain ones.
- Exceptions raised inside an expression other than by a call, or by an assertion's test other than by a call.
- Which name a session parameter has: a call's effect on it is given.
- Order and detail text of findings, and of stale entries, as far as they are sorted afterwards; line splitting.
- Changing a constant's value in place; a nested function's bindings, which the tally takes for the outer function's; duplicate members of sets and dictionaries in evaluated displays.
- Resolving names to strings in the route auditor (`_build_env` and its four rounds): a hypothesis about the environment stands in for it.
- The single-pattern detectors and the error-disclosure audit: each is settled by reading one branch.
- Floating point (durations, clocks and percentiles are reals), apart from the rounding to three decimals.
- Wall-clock fields of file results, the pauses of the poller, upload and task lookup; a round's replies are given, and some round starts at or after the deadline.
- `Report.groups` and the other totals of the timing report: plain sums.
- All HTTP, Redis, Docker, GPU and file access, printing, command lines, self-test tables, and the remaining benchmarks.
