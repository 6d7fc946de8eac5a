/** The route matcher of the route-coverage auditor: which routes some test's URL stands for. */
module Routes {
  import opened Options
  import opened UrlStrings

  // ----- paths and segments -----

  function Split(path: string): (segments: seq<string>)
    ensures segments != []
  {
    if path == "" then [""]
    else
      var rest := Split(path[1..]);
      if path[0] == '/' then [""] + rest else [[path[0]] + rest[0]] + rest[1..]
  }

  function RightStripped(path: string): string {
    if path != "" && path[|path|-1] == '/' then RightStripped(path[..|path|-1]) else path
  }

  /** `path.rstrip('/') or '/'` */
  function Trimmed(path: string): string {
    if RightStripped(path) == "" then "/" else RightStripped(path)
  }

  function Segments(path: string): seq<string> { Split(Trimmed(path)) }

  predicate IsParam(segment: string) {
    segment != "" && segment[0] == '{' && segment[|segment|-1] == '}'
  }

  // ----- what the segments are -----

  function JoinedBySlash(segments: seq<string>): string
    requires segments != []
  {
    if |segments| == 1 then segments[0] else segments[0] + "/" + JoinedBySlash(segments[1..])
  }

  function Slashes(n: nat): string { seq(n, _ => '/') }

  predicate NoSlash(segments: seq<string>) {
    forall i | 0 <= i < |segments| :: '/' !in segments[i]
  }

  /** Splitting cuts a path into slash-free segments that joined again give the path. */
  lemma {:induction false} SplitJoins(path: string)
    ensures NoSlash(Split(path)) && JoinedBySlash(Split(path)) == path
  {
    if path != "" {
      var rest := Split(path[1..]);
      SplitJoins(path[1..]);
      if path[0] == '/' {
        assert Split(path)[1..] == rest;
      } else {
        assert Split(path)[1..] == rest[1..] && path == [path[0]] + path[1..];
        assert |rest| > 1 ==> JoinedBySlash(rest) == rest[0] + "/" + JoinedBySlash(rest[1..]);
      }
    }
  }

  /** And it is the only way to cut it so. */
  lemma {:induction false} JoinSplits(segments: seq<string>)
    requires segments != [] && NoSlash(segments)
    ensures Split(JoinedBySlash(segments)) == segments
  {
    var head := segments[0];
    assert Avoids(head, SLASH) by { forall i | 0 <= i < |head| ensures head[i] != '/' { assert head[i] in head; } }
    if |segments| == 1 {
      SplitPrefix(head, "");
      assert head + "" == head;
    } else {
      JoinSplits(segments[1..]);
      var rest := "/" + JoinedBySlash(segments[1..]);
      assert rest[1..] == JoinedBySlash(segments[1..]);
      assert Split(rest) == [""] + segments[1..];
      SplitPrefix(head, rest);
      assert head + "" == head && [head] + segments[1..] == segments;
      assert head + rest == JoinedBySlash(segments) by { assert head + "/" + JoinedBySlash(segments[1..]) == head + rest; }
    }
  }

  lemma {:induction false} StrippedOfSlashes(path: string) returns (n: nat)
    ensures var base := RightStripped(path); path == base + Slashes(n) && (base != "" ==> base[|base|-1] != '/')
  {
    if path != "" && path[|path|-1] == '/' {
      n := StrippedOfSlashes(path[..|path|-1]);
      n := n + 1;
      assert Slashes(n) == Slashes(n - 1) + "/" && path == path[..|path|-1] + "/";
    } else {
      n := 0;
    }
  }

  lemma {:induction false} StripsAllSlashes(base: string, n: nat)
    requires base != "" ==> base[|base|-1] != '/'
    ensures RightStripped(base + Slashes(n)) == base
    decreases n
  {
    if n > 0 {
      StripsAllSlashes(base, n - 1);
      assert (base + Slashes(n))[..|base|+n-1] == base + Slashes(n - 1);
    } else {
      assert base + Slashes(0) == base;
    }
  }

  /** The segments of a path are the slash-free pieces of what is left of it without its trailing slashes;
      of a lone slash, if nothing is left. */
  lemma SegmentsJoin(path: string, base: string, n: nat)
    requires path == base + Slashes(n) && (base != "" ==> base[|base|-1] != '/')
    ensures NoSlash(Segments(path)) && JoinedBySlash(Segments(path)) == if base == "" then "/" else base
  {
    StripsAllSlashes(base, n);
    SplitJoins(Trimmed(path));
  }

  ghost predicate EqualButForSlashes(a: string, b: string) {
    exists base, m, n :: a == base + Slashes(m) && b == base + Slashes(n)
  }

  lemma {:induction false} SlashesDrop(base: string, n: nat)
    ensures RightStripped(base + Slashes(n)) == RightStripped(base)
    decreases n
  {
    if n > 0 {
      SlashesDrop(base, n - 1);
      assert (base + Slashes(n))[..|base|+n-1] == base + Slashes(n - 1);
    } else {
      assert base + Slashes(0) == base;
    }
  }

  /** Two paths have the same segments exactly when they differ in trailing slashes only. */
  lemma SegmentsEqualExactly(a: string, b: string)
    ensures Segments(a) == Segments(b) <==> EqualButForSlashes(a, b)
  {
    var m := StrippedOfSlashes(a);
    var n := StrippedOfSlashes(b);
    if Segments(a) == Segments(b) {
      SegmentsJoin(a, RightStripped(a), m);
      SegmentsJoin(b, RightStripped(b), n);
      assert RightStripped(a) == RightStripped(b);
      assert a == RightStripped(a) + Slashes(m) && b == RightStripped(a) + Slashes(n);
    }
    if base, j, k :| a == base + Slashes(j) && b == base + Slashes(k) {
      SlashesDrop(base, j);
      SlashesDrop(base, k);
    }
  }

  lemma ParamIsBraced(segment: string)
    ensures IsParam(segment) <==> exists name :: segment == "{" + name + "}"
  {
    if IsParam(segment) {
      assert segment == "{" + segment[1..|segment|-1] + "}";
    }
  }

  /** A concrete path the route accepts: same shape, parameters taking any one segment. */
  ghost predicate Accepts(route: seq<string>, path: seq<string>) {
    |route| == |path| && forall i :: 0 <= i < |route| ==> IsParam(route[i]) || route[i] == path[i]
  }

  // ----- the matcher -----

  predicate SegmentTaken(route: string, candidate: string) {
    if WILD in candidate then IsParam(route) else IsParam(route) || route == candidate
  }

  predicate SegmentsMatch(route: seq<string>, candidate: seq<string>) {
    |route| == |candidate| && forall i :: 0 <= i < |route| ==> SegmentTaken(route[i], candidate[i])
  }

  datatype Evidence = Evidence(verb: Option<string>, segments: seq<string>)

  predicate MethodMatches(routeMethod: string, verb: Option<string>) {
    verb == None || verb == Some(routeMethod)
  }

  type Buckets = map<nat, seq<Evidence>>

  function Bucket(evidence: Buckets, n: nat): seq<Evidence> {
    if n in evidence then evidence[n] else []
  }

  predicate Hits(ev: Evidence, verb: string, segments: seq<string>) {
    MethodMatches(verb, ev.verb) && SegmentsMatch(segments, ev.segments)
  }

  predicate IsCovered(verb: string, path: string, evidence: Buckets) {
    exists ev | ev in Bucket(evidence, |Segments(path)|) :: Hits(ev, verb, Segments(path))
  }

  // ----- filling a candidate's wildcards -----

  const SLASH := {'/'}

  lemma {:induction false} SplitPrefix(w: string, path: string)
    requires Avoids(w, SLASH)
    ensures Split(w + path) == [w + Split(path)[0]] + Split(path)[1..]
    decreases |w|
  {
    if w == "" {
      assert w + path == path && w + Split(path)[0] == Split(path)[0];
    } else {
      assert (w + path)[1..] == w[1..] + path && w[0] !in SLASH;
      assert Avoids(w[1..], SLASH);
      SplitPrefix(w[1..], path);
      assert [w[0]] + (w[1..] + Split(path)[0]) == w + Split(path)[0];
    }
  }

  /** Segment by segment, the second path is a fill of the first. */
  ghost predicate FillsEach(t: seq<string>, s: seq<string>) {
    |t| == |s| && forall i :: 0 <= i < |t| ==> Fills(t[i], s[i], SLASH)
  }

  /** Slash-free fills of a path never move a segment boundary. */
  lemma {:induction false} FillKeepsShape(t: string, s: string)
    requires Fills(t, s, SLASH)
    ensures FillsEach(Split(t), Split(s))
    decreases |t|
  {
    if t == "" {
    } else if t[0] == WILD {
      var k: nat :| k <= |s| && Avoids(s[..k], SLASH) && Fills(t[1..], s[k..], SLASH);
      FillKeepsShape(t[1..], s[k..]);
      SplitPrefix(s[..k], s[k..]);
      assert s[..k] + s[k..] == s;
      WildTakes(s[..k], Split(t[1..])[0], Split(s[k..])[0], SLASH);
      HeadFills(Split(t[1..]), Split(s[k..]), [WILD], s[..k]);
    } else {
      FillKeepsShape(t[1..], s[1..]);
      PlainKeepsShape(t, s);
    }
  }

  lemma HeadFills(t: seq<string>, s: seq<string>, a: string, b: string)
    requires t != [] && FillsEach(t, s) && Fills(a + t[0], b + s[0], SLASH)
    ensures FillsEach([a + t[0]] + t[1..], [b + s[0]] + s[1..])
  {
  }

  lemma PlainKeepsShape(t: string, s: string)
    requires t != "" && s != "" && t[0] != WILD && s[0] == t[0] && FillsEach(Split(t[1..]), Split(s[1..]))
    ensures FillsEach(Split(t), Split(s))
  {
    if t[0] != '/' {
      FillStep(t[0], Split(t[1..])[0], Split(s[1..])[0]);
      HeadFills(Split(t[1..]), Split(s[1..]), [t[0]], [s[0]]);
    }
  }

  lemma FillStep(c: char, t: string, s: string)
    requires c != WILD && Fills(t, s, SLASH)
    ensures Fills([c] + t, [c] + s, SLASH)
  {
    assert ([c] + t)[1..] == t && ([c] + s)[1..] == s;
  }

  /** Every wildcard replaced by the same word. */
  function FillAll(t: string, w: string): string {
    if t == "" then "" else (if t[0] == WILD then w else [t[0]]) + FillAll(t[1..], w)
  }

  lemma {:induction false} FillAllFills(t: string, w: string)
    requires Avoids(w, SLASH)
    ensures Fills(t, FillAll(t, w), SLASH)
  {
    if t != "" {
      FillAllFills(t[1..], w);
      if t[0] == WILD {
        WildTakes(w, t[1..], FillAll(t[1..], w), SLASH);
        assert [WILD] + t[1..] == t;
      }
    }
  }

  lemma {:induction false} FillAllSplit(t: string, w: string, i: nat)
    requires Avoids(w, SLASH) && i < |Split(t)|
    ensures |Split(FillAll(t, w))| == |Split(t)| && Split(FillAll(t, w))[i] == FillAll(Split(t)[i], w)
  {
    if t == "" {
    } else {
      var rest := FillAll(t[1..], w);
      var j := if i > 0 then i - 1 else 0;
      FillAllSplit(t[1..], w, if t[0] == '/' then j else i);
      FillAllSplit(t[1..], w, 0);
      var head := Split(t[1..])[0];
      if t[0] == WILD {
        SplitPrefix(w, rest);
        assert ([WILD] + head)[1..] == head;
      } else if t[0] == '/' {
        assert ("/" + rest)[1..] == rest;
      } else {
        assert ([t[0]] + rest)[1..] == rest && ([t[0]] + head)[1..] == head;
      }
    }
  }

  lemma {:induction false} FillAllLength(t: string, w: string)
    requires WILD in t
    ensures |FillAll(t, w)| >= |w|
  {
    if t[0] != WILD { FillAllLength(t[1..], w); }
  }

  lemma {:induction false} FillAllPlain(t: string, w: string)
    requires WILD !in t
    ensures FillAll(t, w) == t
  {
    if t != "" { FillAllPlain(t[1..], w); }
  }

  /** Every replacement of the candidate's wildcards by slash-free text gives a path the route accepts. */
  ghost predicate AlwaysAccepted(route: seq<string>, candidate: string) {
    forall path :: Fills(candidate, path, SLASH) ==> Accepts(route, Split(path))
  }

  lemma MatchAccepts(route: seq<string>, candidate: string, path: string)
    requires SegmentsMatch(route, Split(candidate)) && Fills(candidate, path, SLASH)
    ensures Accepts(route, Split(path))
  {
    FillKeepsShape(candidate, path);
    forall i | 0 <= i < |route| ensures IsParam(route[i]) || route[i] == Split(path)[i] {
      assert SegmentTaken(route[i], Split(candidate)[i]);
      if WILD !in Split(candidate)[i] { PlainFillsOnlyItself(Split(candidate)[i], Split(path)[i], SLASH); }
    }
  }

  lemma MismatchRefuses(route: seq<string>, candidate: string)
    requires !SegmentsMatch(route, Split(candidate))
    ensures !AlwaysAccepted(route, candidate)
  {
    FillAllFills(candidate, "");
    FillAllSplit(candidate, "", 0);
    if |route| == |Split(candidate)| {
      var i :| 0 <= i < |route| && !SegmentTaken(route[i], Split(candidate)[i]);
      var w := seq(|route[i]| + 1, _ => 'x');
      FillAllFills(candidate, w);
      FillAllSplit(candidate, w, i);
      var segment := Split(candidate)[i];
      if WILD in segment { FillAllLength(segment, w); } else { FillAllPlain(segment, w); }
      assert !Accepts(route, Split(FillAll(candidate, w)));
    } else {
      assert !Accepts(route, Split(FillAll(candidate, "")));
    }
  }

  /** The matcher says yes exactly when the route accepts every path the candidate can stand for. */
  lemma MatchExactly(route: seq<string>, candidate: string)
    ensures SegmentsMatch(route, Split(candidate)) <==> AlwaysAccepted(route, candidate)
  {
    if SegmentsMatch(route, Split(candidate)) {
      forall path | Fills(candidate, path, SLASH) ensures Accepts(route, Split(path)) {
        MatchAccepts(route, candidate, path);
      }
    } else {
      MismatchRefuses(route, candidate);
    }
  }

  // ----- collecting evidence by length -----

  /** The evidence of the test files that parse, in scanning order. */
  function AllEvidence(files: seq<Option<seq<Evidence>>>): seq<Evidence> {
    if files == [] then []
    else AllEvidence(files[..|files|-1]) + (if files[|files|-1] == None then [] else files[|files|-1].value)
  }

  function Parsed(files: seq<Option<seq<Evidence>>>): nat {
    if files == [] then 0
    else Parsed(files[..|files|-1]) + (if files[|files|-1] == None then 0 else 1)
  }

  function OfLength(items: seq<Evidence>, n: nat): seq<Evidence> {
    if items == [] then []
    else OfLength(items[..|items|-1], n)
         + (if |items[|items|-1].segments| == n then [items[|items|-1]] else [])
  }

  ghost predicate Sorted(evidence: Buckets, items: seq<Evidence>) {
    forall n: nat :: Bucket(evidence, n) == OfLength(items, n)
  }

  lemma OfLengthSnoc(items: seq<Evidence>, ev: Evidence, n: nat)
    ensures OfLength(items + [ev], n) == OfLength(items, n) + (if |ev.segments| == n then [ev] else [])
  {
    assert (items + [ev])[..|items|] == items;
  }

  lemma {:induction false} OfLengthHolds(items: seq<Evidence>, n: nat, ev: Evidence)
    ensures ev in OfLength(items, n) <==> ev in items && |ev.segments| == n
  {
    if items != [] {
      OfLengthHolds(items[..|items|-1], n, ev);
      assert items == items[..|items|-1] + [items[|items|-1]];
    }
  }

  method AddAll(evidence: Buckets, items: seq<Evidence>, ghost before: seq<Evidence>) returns (grown: Buckets)
    requires Sorted(evidence, before)
    ensures Sorted(grown, before + items)
  {
    grown := evidence;
    assert before + items[..0] == before;
    for i := 0 to |items|
      invariant Sorted(grown, before + items[..i])
    {
      var n := |items[i].segments|;
      ghost var previous := grown;
      grown := grown[n := Bucket(grown, n) + [items[i]]];
      assert before + items[..i+1] == (before + items[..i]) + [items[i]];
      forall m: nat ensures Bucket(grown, m) == OfLength(before + items[..i+1], m) {
        OfLengthSnoc(before + items[..i], items[i], m);
        assert Bucket(previous, m) == OfLength(before + items[..i], m);
      }
    }
    assert items[..|items|] == items;
  }

  lemma AllEvidenceSnoc(files: seq<Option<seq<Evidence>>>, i: nat)
    requires i < |files|
    ensures AllEvidence(files[..i+1]) == AllEvidence(files[..i]) + (if files[i] == None then [] else files[i].value)
    ensures files[i] == None ==> AllEvidence(files[..i+1]) == AllEvidence(files[..i])
    ensures Parsed(files[..i+1]) == Parsed(files[..i]) + (if files[i] == None then 0 else 1)
  {
    assert files[..i+1][..i] == files[..i];
  }

  /** Each bucket holds the evidence of its length, in order; files that do not parse add nothing. */
  method ScanTests(files: seq<Option<seq<Evidence>>>) returns (evidence: Buckets, testFiles: nat)
    ensures Sorted(evidence, AllEvidence(files)) && testFiles == Parsed(files)
    ensures forall n: nat, ev :: InItsBucket(evidence, files, n, ev)
  {
    evidence, testFiles := map[], 0;
    for i := 0 to |files|
      invariant Sorted(evidence, AllEvidence(files[..i])) && testFiles == Parsed(files[..i])
    {
      AllEvidenceSnoc(files, i);
      match files[i] {
        case None => continue;
        case Some(items) =>
          testFiles := testFiles + 1;
          evidence := AddAll(evidence, items, AllEvidence(files[..i]));
      }
    }
    assert files[..|files|] == files;
    forall n: nat, ev ensures InItsBucket(evidence, files, n, ev) { BucketHolds(evidence, files, n, ev); }
  }

  /** A piece of evidence is in the bucket of its length, and no other, if a file that parses yields it. */
  ghost predicate InItsBucket(evidence: Buckets, files: seq<Option<seq<Evidence>>>, n: nat, ev: Evidence) {
    ev in Bucket(evidence, n) <==> |ev.segments| == n && exists items :: Some(items) in files && ev in items
  }

  lemma BucketHolds(evidence: Buckets, files: seq<Option<seq<Evidence>>>, n: nat, ev: Evidence)
    requires Sorted(evidence, AllEvidence(files))
    ensures InItsBucket(evidence, files, n, ev)
  {
    assert Bucket(evidence, n) == OfLength(AllEvidence(files), n);
    OfLengthHolds(AllEvidence(files), n, ev);
    AllEvidenceHolds(files, ev);
  }

  lemma {:induction false} AllEvidenceHolds(files: seq<Option<seq<Evidence>>>, ev: Evidence)
    ensures ev in AllEvidence(files) <==> exists items :: Some(items) in files && ev in items
  {
    if files != [] {
      var n := |files| - 1;
      AllEvidenceHolds(files[..n], ev);
      assert files == files[..n] + [files[n]];
    }
  }

  /** The files counted are those that parse. */
  lemma {:induction false} ParsedExactly(files: seq<Option<seq<Evidence>>>)
    ensures Parsed(files) == |set i | 0 <= i < |files| && files[i].Some?|
  {
    if files != [] {
      var n := |files| - 1;
      ParsedExactly(files[..n]);
      var before, now := set i | 0 <= i < n && files[..n][i].Some?, set i | 0 <= i < |files| && files[i].Some?;
      assert now == before + if files[n].Some? then {n} else {};
    }
  }

  /** Looking only in the bucket of the route's length misses nothing. */
  lemma BucketsMissNothing(verb: string, path: string, evidence: Buckets, items: seq<Evidence>)
    requires Sorted(evidence, items)
    ensures IsCovered(verb, path, evidence) <==> exists ev :: ev in items && Hits(ev, verb, Segments(path))
  {
    var n := |Segments(path)|;
    assert Bucket(evidence, n) == OfLength(items, n);
    forall ev ensures ev in OfLength(items, n) <==> ev in items && |ev.segments| == n {
      OfLengthHolds(items, n, ev);
    }
    if ev :| ev in items && Hits(ev, verb, Segments(path)) {
      assert ev in Bucket(evidence, n);
    }
  }

  /** A call of an HTTP client: its verb, if it is known, and a path template it names. */
  datatype CallSite = CallSite(verb: Option<string>, path: string)

  function EvidenceOf(calls: seq<CallSite>): seq<Evidence> {
    seq(|calls|, i requires 0 <= i < |calls| => Evidence(calls[i].verb, Segments(calls[i].path)))
  }

  ghost predicate Exercises(call: CallSite, verb: string, path: string) {
    (call.verb == None || call.verb == Some(verb)) && AlwaysAccepted(Segments(path), Trimmed(call.path))
  }

  /** A route counts as covered exactly when some test calls a URL of which every reading, whatever its
      unresolved parts are, is a path of that route, with the route's method or an unknown one. */
  lemma CoveredExactly(verb: string, path: string, evidence: Buckets, calls: seq<CallSite>)
    requires Sorted(evidence, EvidenceOf(calls))
    ensures IsCovered(verb, path, evidence) <==> exists c :: c in calls && Exercises(c, verb, path)
  {
    var items := EvidenceOf(calls);
    BucketsMissNothing(verb, path, evidence, items);
    forall c: CallSite ensures Hits(Evidence(c.verb, Segments(c.path)), verb, Segments(path)) <==> Exercises(c, verb, path) {
      MatchExactly(Segments(path), Trimmed(c.path));
    }
    if ev :| ev in items && Hits(ev, verb, Segments(path)) {
      var i :| 0 <= i < |items| && items[i] == ev;
      assert calls[i] in calls && Exercises(calls[i], verb, path);
    }
    if c :| c in calls && Exercises(c, verb, path) {
      var i :| 0 <= i < |calls| && calls[i] == c;
      assert items[i] in items && Hits(items[i], verb, Segments(path));
    }
  }

  /** A call whose URL is known, against a route without parameters: it covers the route exactly when the two
      paths differ in trailing slashes only and its method is the route's or unknown. */
  lemma PlainCallExactly(verb: string, path: string, call: CallSite, evidence: Buckets)
    requires Sorted(evidence, EvidenceOf([call])) && WILD !in call.path
    requires forall i | 0 <= i < |Segments(path)| :: !IsParam(Segments(path)[i])
    ensures IsCovered(verb, path, evidence) <==>
      (call.verb == None || call.verb == Some(verb)) && EqualButForSlashes(path, call.path)
  {
    var route, candidate, ev := Segments(path), Segments(call.path), Evidence(call.verb, Segments(call.path));
    assert EvidenceOf([call]) == [ev];
    BucketsMissNothing(verb, path, evidence, [ev]);
    SegmentsEqualExactly(path, call.path);
    forall i | 0 <= i < |candidate| ensures WILD !in candidate[i] { PlainSegments(call.path, i); }
    PlainMatch(route, candidate);
    assert Hits(ev, verb, route) <==> MethodMatches(verb, ev.verb) && route == candidate;
    assert ev in [ev] && forall e :: e in [ev] ==> e == ev;
  }

  lemma PlainMatch(route: seq<string>, candidate: seq<string>)
    requires forall i | 0 <= i < |route| :: !IsParam(route[i])
    requires forall i | 0 <= i < |candidate| :: WILD !in candidate[i]
    ensures SegmentsMatch(route, candidate) <==> route == candidate
  {
    if SegmentsMatch(route, candidate) {
      forall i | 0 <= i < |route| ensures route[i] == candidate[i] { assert SegmentTaken(route[i], candidate[i]); }
    }
  }

  lemma PlainSegments(path: string, i: nat)
    requires WILD !in path && i < |Segments(path)|
    ensures WILD !in Segments(path)[i]
  {
    var n := StrippedOfSlashes(path);
    assert WILD !in Trimmed(path) by {
      forall c | c in RightStripped(path) ensures c in path { }
    }
    SplitHolds(Trimmed(path), i);
  }

  lemma {:induction false} SplitHolds(path: string, i: nat)
    requires i < |Split(path)|
    ensures forall c | c in Split(path)[i] :: c in path
  {
    if path != "" {
      if path[0] == '/' {
        if i > 0 { SplitHolds(path[1..], i - 1); }
      } else {
        SplitHolds(path[1..], i);
      }
    }
  }

  /** A trailing slash on the route changes nothing. */
  lemma TrailingSlashIsIgnored(verb: string, path: string, evidence: Buckets)
    ensures IsCovered(verb, path + "/", evidence) == IsCovered(verb, path, evidence)
  {
    var slashed := path + "/";
    assert slashed[..|slashed|-1] == path && slashed[|slashed|-1] == '/';
    assert RightStripped(slashed) == RightStripped(path);
    assert Segments(slashed) == Segments(path);
  }

  /** An unresolved segment never vouches for a literal one: some reading of the candidate is another path. */
  lemma WildNeverMeetsLiteral(route: seq<string>, candidate: string, i: nat)
    requires i < |route| && i < |Split(candidate)| && !IsParam(route[i]) && WILD in Split(candidate)[i]
    ensures exists path :: Fills(candidate, path, SLASH) && !Accepts(route, Split(path))
  {
    assert !SegmentTaken(route[i], Split(candidate)[i]);
    MismatchRefuses(route, candidate);
  }
}
