/** `_strings` and `_expand_joined` of the route auditor, over the expressions tests build URLs from. */
module UrlExpressions {
  import opened Sets
  import opened UrlStrings

  datatype Part =
    | Literal(text: string)
    | Field(value: UrlExpr, spec: bool)          // a replacement field, with or without conversion or format spec

  datatype UrlExpr =
    | Text(value: string)
    | Name(id: string)
    | Await(of: UrlExpr)
    | Joined(parts: seq<Part>)                // an f-string
    | Invoke(helper: string)                  // a call of a bare name
    | Add(left: UrlExpr, right: UrlExpr)
    | Format(base: UrlExpr)                      // base.format(...)
    | Strip(base: UrlExpr, chars: set<char>, atStart: bool, atEnd: bool)
    | Other                                   // anything the auditor does not resolve

  datatype Env = Env(names: map<string, set<string>>, helpers: map<string, set<string>>)

  function Get(m: map<string, set<string>>, id: string): set<string> {
    if id in m then m[id] else {}
  }

  function Strings(e: UrlExpr, env: Env): set<string> {
    match e
    case Text(v) => {v}
    case Name(id) => Get(env.names, id)
    case Await(x) => Strings(x, env)
    case Joined(parts) => Capped(seq(|parts|, i requires 0 <= i < |parts| => Alternatives(parts[i], env)))
    case Invoke(h) => Get(env.helpers, h)
    case Add(l, r) =>
      var ls, rs := Strings(l, env), Strings(r, env);
      if ls == {} || rs == {} || |ls| * |rs| > EXPAND_CAP then {} else Append(ls, rs)
    case Format(b) => set t | t in Strings(b, env) :: FieldsToWild(t)
    case Strip(b, _, _, _) => Strings(b, env)
    case Other => {}
  }

  function Alternatives(p: Part, env: Env): set<string> {
    match p
    case Literal(t) => {t}
    case Field(v, _) => if Strings(v, env) == {} then {[WILD]} else Strings(v, env)
  }

  // ----- the loops of _expand_joined -----

  ghost predicate Lists(pieces: seq<seq<string>>, sets: seq<set<string>>) {
    |pieces| == |sets|
    && forall i :: 0 <= i < |pieces| ==> |pieces[i]| == |sets[i]| && forall x :: x in pieces[i] <==> x in sets[i]
  }

  ghost function PartSets(parts: seq<Part>, env: Env): seq<set<string>> {
    seq(|parts|, i requires 0 <= i < |parts| => Alternatives(parts[i], env))
  }

  method Pieces(parts: seq<Part>, env: Env) returns (pieces: seq<seq<string>>)
    ensures Lists(pieces, PartSets(parts, env))
  {
    pieces := [];
    for n := 0 to |parts|
      invariant Lists(pieces, PartSets(parts[..n], env))
    {
      var piece: seq<string>;
      match parts[n] {
        case Literal(t) => piece := [t];
        case Field(v, _) =>
          var resolved := Listed(Strings(v, env));
          piece := if resolved != [] then resolved else [[WILD]];
      }
      pieces := pieces + [piece];
    }
    assert parts[..|parts|] == parts;
  }

  method Collapse(pieces: seq<seq<string>>, ghost sets: seq<set<string>>) returns (coarse: seq<seq<string>>)
    requires Lists(pieces, sets)
    ensures Lists(coarse, Collapsed(sets))
  {
    coarse := seq(|pieces|, i requires 0 <= i < |pieces| => if |pieces[i]| == 1 then pieces[i] else [[WILD]]);
  }

  method CountAll(pieces: seq<seq<string>>, ghost sets: seq<set<string>>) returns (total: nat)
    requires Lists(pieces, sets)
    ensures total == Total(sets)
  {
    total := 1;
    for n := 0 to |pieces|
      invariant total == Total(sets[..n])
    {
      assert sets[..n+1][..n] == sets[..n];
      total := total * |pieces[n]|;
    }
    assert sets[..|pieces|] == sets;
  }

  method Extend(out: seq<string>, alternatives: seq<string>) returns (next: seq<string>)
    ensures forall x :: x in next <==> exists a, b :: a in out && b in alternatives && x == a + b
  {
    next := [];
    for i := 0 to |out|
      invariant forall x :: x in next <==> exists a, b :: a in out[..i] && b in alternatives && x == a + b
    {
      ghost var before := next;
      for j := 0 to |alternatives|
        invariant forall x :: x in next <==> x in before || exists b :: b in alternatives[..j] && x == out[i] + b
      {
        next := next + [out[i] + alternatives[j]];
      }
    }
    assert out[..|out|] == out;
  }

  method MultiplyOut(pieces: seq<seq<string>>, ghost sets: seq<set<string>>) returns (out: seq<string>)
    requires Lists(pieces, sets)
    ensures forall x :: x in out <==> x in Products(sets)
  {
    out := [""];
    for n := 0 to |pieces|
      invariant forall x :: x in out <==> x in Products(sets[..n])
    {
      assert sets[..n+1][..n] == sets[..n];
      assert Products(sets[..n+1]) == Append(Products(sets[..n]), sets[n]);
      out := Extend(out, pieces[n]);
    }
    assert sets[..|pieces|] == sets;
  }

  method ExpandJoined(parts: seq<Part>, env: Env) returns (templates: set<string>)
    ensures templates == Strings(Joined(parts), env)
    ensures |templates| <= EXPAND_CAP
    ensures |Choices(PartSets(parts, env))| <= 32 ==>
              forall t :: t in templates <==> exists choice :: Chosen(choice, PartSets(parts, env)) && t == Flat(choice)
    ensures |Choices(PartSets(parts, env))| > 32 ==>
              forall t :: t in templates <==> exists choice :: ChosenCoarsely(choice, PartSets(parts, env)) && t == Flat(choice)
  {
    var pieces := Pieces(parts, env);
    ghost var sets := PartSets(parts, env);
    ghost var used := sets;
    var total := CountAll(pieces, sets);
    if total > EXPAND_CAP {
      pieces := Collapse(pieces, sets);
      used := Collapsed(sets);
    }
    var out := MultiplyOut(pieces, used);
    NeverMoreThanCap(sets);
    templates := set x | x in out;
    assert templates == Capped(sets);
    forall t { CappedExactly(sets, t); }
  }

  /** A concatenation resolves to every pair of what its sides resolve to, unless there are more than 32; then,
      as when a side does not resolve, to nothing. */
  lemma AddExactly(l: UrlExpr, r: UrlExpr, env: Env, s: string)
    ensures var sides := [Strings(l, env), Strings(r, env)];
      s in Strings(Add(l, r), env) <==> |Choices(sides)| <= 32 && exists choice :: Chosen(choice, sides) && s == Flat(choice)
  {
    var ls, rs := Strings(l, env), Strings(r, env);
    TotalCounts([ls, rs]);
    TotalOfTwo(ls, rs);
    AppendOfTwo(ls, rs, s);
    if ls == {} || rs == {} { assert Append(ls, rs) == {}; }
  }

  lemma AppendOfTwo(ls: set<string>, rs: set<string>, s: string)
    ensures s in Append(ls, rs) <==> exists choice :: Chosen(choice, [ls, rs]) && s == Flat(choice)
  {
    if s in Append(ls, rs) {
      var a, b :| a in ls && b in rs && s == a + b;
      FlatOfTwo([a, b]);
      assert Chosen([a, b], [ls, rs]);
    }
    if choice :| Chosen(choice, [ls, rs]) && s == Flat(choice) {
      FlatOfTwo(choice);
      assert choice[0] in [ls, rs][0] && choice[1] in [ls, rs][1];
    }
  }

  lemma TotalOfTwo(a: set<string>, b: set<string>)
    ensures Total([a, b]) == |a| * |b|
  {
    assert [a, b][..1] == [a] && [a][..0] == [];
    assert Total([a]) == |a|;
  }

  lemma FlatOfTwo(choice: seq<string>)
    requires |choice| == 2
    ensures Flat(choice) == choice[0] + choice[1]
  {
    FlatIsConcatenation([choice[0]], choice[1]);
    FlatIsConcatenation([], choice[0]);
    assert [choice[0]] + [choice[1]] == choice;
  }

  // ----- strip, on templates -----

  function Stripped(s: string, chars: set<char>, atStart: bool, atEnd: bool): string
    decreases |s|
  {
    if atStart && s != "" && s[0] in chars then Stripped(s[1..], chars, atStart, atEnd)
    else if atEnd && s != "" && s[|s|-1] in chars then Stripped(s[..|s|-1], chars, atStart, atEnd)
    else s
  }

  /** The template without its wildcards. */
  function Letters(t: string): string {
    if t == "" then "" else (if t[0] == WILD then "" else [t[0]]) + Letters(t[1..])
  }

  lemma {:induction false} LettersFill(t: string)
    ensures Fills(t, Letters(t), {})
  {
    if t != "" {
      LettersFill(t[1..]);
      if t[0] == WILD {
        WildTakes("", t[1..], Letters(t[1..]), {});
        assert [WILD] + t[1..] == t && "" + Letters(t[1..]) == Letters(t);
      } else {
        assert Letters(t)[1..] == Letters(t[1..]);
      }
    }
  }

  lemma {:induction false} LettersAreShortest(t: string, s: string)
    requires Fills(t, s, {})
    ensures |Letters(t)| <= |s|
    decreases |t|
  {
    if t != "" {
      if t[0] == WILD {
        var k: nat :| k <= |s| && Avoids(s[..k], {}) && Fills(t[1..], s[k..], {});
        LettersAreShortest(t[1..], s[k..]);
      } else {
        LettersAreShortest(t[1..], s[1..]);
      }
    }
  }

  /** A first character that is not the template's first letter was put in for a wildcard. */
  lemma {:induction false} DropFirst(t: string, s: string)
    requires Fills(t, s, {}) && s != "" && (Letters(t) != "" ==> Letters(t)[0] != s[0])
    ensures Fills(t, s[1..], {})
    decreases |t|
  {
    if t[0] == WILD {
      var k: nat :| k <= |s| && Avoids(s[..k], {}) && Fills(t[1..], s[k..], {});
      if k == 0 {
        assert s[0..] == s && Letters(t) == Letters(t[1..]);
        DropFirst(t[1..], s);
        assert s[1..][0..] == s[1..];
      } else {
        assert s[1..][k-1..] == s[k..];
      }
    }
  }

  predicate EndsUnlike(ls: string, s: string)
    requires s != ""
  {
    ls != "" ==> ls[|ls|-1] != s[|s|-1]
  }

  lemma {:induction false} DropLast(t: string, s: string)
    requires Fills(t, s, {}) && s != "" && EndsUnlike(Letters(t), s)
    ensures Fills(t, s[..|s|-1], {})
    decreases |t|
  {
    if t[0] == WILD {
      var k: nat :| k <= |s| && Avoids(s[..k], {}) && Fills(t[1..], s[k..], {});
      if k < |s| { DropLast(t[1..], s[k..]); }
      WildShortened(t, s, k);
    } else {
      LettersAreShortest(t[1..], s[1..]);
      if |s| > 1 {
        assert EndsUnlike(Letters(t[1..]), s[1..]) by { LetterFirst(t); }
        DropLast(t[1..], s[1..]);
        assert s[..|s|-1][1..] == s[1..][..|s[1..]|-1];
      } else {
        LetterFirst(t);
      }
    }
  }

  lemma LetterFirst(t: string)
    requires t != "" && t[0] != WILD
    ensures Letters(t) == [t[0]] + Letters(t[1..])
  {
  }

  lemma WildShortened(t: string, s: string, k: nat)
    requires t != "" && t[0] == WILD && s != "" && k <= |s|
    requires if k == |s| then Fills(t[1..], "", {}) else Fills(t[1..], s[k..][..|s|-k-1], {})
    ensures Fills(t, s[..|s|-1], {})
  {
    var shorter := s[..|s|-1];
    if k == |s| {
      assert shorter[k-1..] == "" && Avoids(shorter[..k-1], {});
    } else {
      assert shorter[k..] == s[k..][..|s|-k-1] && Avoids(shorter[..k], {});
    }
  }

  lemma {:induction false} StrippedIsShorter(s: string, chars: set<char>, l: bool, r: bool)
    ensures |Stripped(s, chars, l, r)| <= |s|
    ensures |Stripped(s, chars, l, r)| == |s| ==> Stripped(s, chars, l, r) == s
    decreases |s|
  {
    if l && s != "" && s[0] in chars { StrippedIsShorter(s[1..], chars, l, r); }
    else if r && s != "" && s[|s|-1] in chars { StrippedIsShorter(s[..|s|-1], chars, l, r); }
  }

  /** The first and last letters of the template are not stripped. */
  predicate SolidEnds(t: string, chars: set<char>, l: bool, r: bool) {
    var ls := Letters(t);
    ls == "" || ((l ==> ls[0] !in chars) && (r ==> ls[|ls|-1] !in chars))
  }

  lemma NothingToStrip(t: string, chars: set<char>, l: bool, r: bool)
    ensures SolidEnds(t, chars, l, r) <==> Stripped(Letters(t), chars, l, r) == Letters(t)
  {
    var ls := Letters(t);
    if l && ls != "" && ls[0] in chars { StrippedIsShorter(ls[1..], chars, l, r); }
    else if r && ls != "" && ls[|ls|-1] in chars { StrippedIsShorter(ls[..|ls|-1], chars, l, r); }
  }

  lemma {:induction false} StrippedFills(t: string, s: string, chars: set<char>, l: bool, r: bool)
    requires Fills(t, s, {}) && SolidEnds(t, chars, l, r)
    ensures Fills(t, Stripped(s, chars, l, r), {})
    decreases |s|
  {
    if l && s != "" && s[0] in chars {
      FirstIsLoose(t, s, chars, l, r);
      StrippedFills(t, s[1..], chars, l, r);
    } else if r && s != "" && s[|s|-1] in chars {
      LastIsLoose(t, s, chars, l, r);
      StrippedFills(t, s[..|s|-1], chars, l, r);
    }
  }

  lemma FirstIsLoose(t: string, s: string, chars: set<char>, l: bool, r: bool)
    requires Fills(t, s, {}) && SolidEnds(t, chars, l, r) && l && s != "" && s[0] in chars
    ensures Fills(t, s[1..], {})
  {
    DropFirst(t, s);
  }

  lemma LastIsLoose(t: string, s: string, chars: set<char>, l: bool, r: bool)
    requires Fills(t, s, {}) && SolidEnds(t, chars, l, r) && r && s != "" && s[|s|-1] in chars
    ensures Fills(t, s[..|s|-1], {})
  {
    DropLast(t, s);
  }

  /** Recording the receiver's template still covers the result, whatever the wildcards stand for. */
  ghost predicate StripIsCovered(t: string, chars: set<char>, l: bool, r: bool) {
    forall s :: Fills(t, s, {}) ==> Fills(t, Stripped(s, chars, l, r), {})
  }

  /** It does exactly when the template's first and last letters are not among the stripped characters. */
  lemma StripCoveredExactly(t: string, chars: set<char>, l: bool, r: bool)
    ensures StripIsCovered(t, chars, l, r) <==> SolidEnds(t, chars, l, r)
  {
    var ls := Letters(t);
    NothingToStrip(t, chars, l, r);
    if SolidEnds(t, chars, l, r) {
      forall s | Fills(t, s, {}) ensures Fills(t, Stripped(s, chars, l, r), {}) { StrippedFills(t, s, chars, l, r); }
    } else {
      StrippedIsShorter(ls, chars, l, r);
      LettersFill(t);
      if Fills(t, Stripped(ls, chars, l, r), {}) { LettersAreShortest(t, Stripped(ls, chars, l, r)); }
    }
  }

  // ----- what an expression can really be -----

  /** The strings the names and helpers of a test module really hold or return. */
  datatype World = World(names: string -> iset<string>, helpers: string -> iset<string>)

  ghost predicate CanBe(e: UrlExpr, s: string, w: World)
    decreases e
  {
    match e
    case Text(v) => s == v
    case Name(id) => s in w.names(id)
    case Await(x) => CanBe(x, s, w)
    case Joined(parts) =>
      exists values: seq<string> ::
        (s == Flat(values) && |values| == |parts|
         && forall i :: 0 <= i < |parts| ==> PartCanBe(parts[i], values[i], w))
    case Invoke(h) => s in w.helpers(h)
    case Add(l, r) => exists k: nat :: k <= |s| && CanBe(l, s[..k], w) && CanBe(r, s[k..], w)
    case Format(b) => exists t :: CanBe(b, t, w) && (Formattable(t) ==> FormatsTo(t, s))
    case Strip(b, chars, l, r) => exists t :: CanBe(b, t, w) && s == Stripped(t, chars, l, r)
    case Other => true
  }

  ghost predicate PartCanBe(p: Part, s: string, w: World)
    decreases p
  {
    match p
    case Literal(t) => s == t
    case Field(v, spec) => spec || CanBe(v, s, w)
  }

  /** Every value of a name or helper the auditor resolved is an instance of something it recorded. */
  ghost predicate EnvCovers(env: Env, w: World) {
    && (forall id, s :: id in env.names && env.names[id] != {} && s in w.names(id) ==> Covered(env.names[id], s))
    && (forall h, s :: h in env.helpers && env.helpers[h] != {} && s in w.helpers(h) ==> Covered(env.helpers[h], s))
  }

  /** Where the auditor drops an operation, the operation changes nothing it recorded: no conversion or
      format spec on a resolved field, `format` on resolved text whose doubled braces pair up, `strip`
      with nothing to strip from the resolved letters. */
  predicate Faithful(e: UrlExpr, env: Env)
    decreases e
  {
    match e
    case Await(x) => Faithful(x, env)
    case Joined(parts) => forall i :: 0 <= i < |parts| ==> FaithfulPart(parts[i], env)
    case Add(l, r) => Faithful(l, env) && Faithful(r, env)
    case Format(b) => Faithful(b, env)
      && forall t :: t in Strings(b, env) ==> WILD !in t && Formattable(t) && Paired(t)
    case Strip(b, chars, l, r) => Faithful(b, env) && forall t :: t in Strings(b, env) ==> SolidEnds(t, chars, l, r)
    case _ => true
  }

  predicate FaithfulPart(p: Part, env: Env)
    decreases p
  {
    p.Literal? || Strings(p.value, env) == {} || (!p.spec && Faithful(p.value, env))
  }

  lemma AddCovers(ls: set<string>, rs: set<string>, s: string, k: nat)
    requires k <= |s| && Covered(ls, s[..k]) && Covered(rs, s[k..])
    ensures Covered(Append(ls, rs), s)
  {
    var a :| a in ls && Fills(a, s[..k], {});
    var b :| b in rs && Fills(b, s[k..], {});
    FillsJoin(a, s[..k], b, s[k..], {});
    assert s[..k] + s[k..] == s && a + b in Append(ls, rs);
  }

  lemma FormatCovers(ts: set<string>, t: string, s: string)
    requires Covered(ts, t) && (Formattable(t) ==> FormatsTo(t, s))
    requires forall u :: u in ts ==> WILD !in u && Formattable(u) && Paired(u)
    ensures Covered(set u | u in ts :: FieldsToWild(u), s)
  {
    var u :| u in ts && Fills(u, t, {});
    PlainFillsOnlyItself(u, t, {});
    PairedIsCovered(u, s);
  }

  lemma StripCovers(ts: set<string>, t: string, chars: set<char>, l: bool, r: bool)
    requires Covered(ts, t) && forall u :: u in ts ==> SolidEnds(u, chars, l, r)
    ensures Covered(ts, Stripped(t, chars, l, r))
  {
    var u :| u in ts && Fills(u, t, {});
    StrippedFills(u, t, chars, l, r);
  }

  /** Whatever string a faithfully read URL expression evaluates to, the auditor recorded a template of it. */
  lemma {:induction false} StringsCover(e: UrlExpr, s: string, env: Env, w: World)
    requires EnvCovers(env, w) && Faithful(e, env) && CanBe(e, s, w) && Strings(e, env) != {}
    ensures Covered(Strings(e, env), s)
    decreases e
  {
    match e
    case Text(v) => FillsItself(v);
    case Await(x) => StringsCover(x, s, env, w);
    case Joined(parts) =>
      var values: seq<string> :| s == Flat(values) && |values| == |parts|
        && forall i :: 0 <= i < |parts| ==> PartCanBe(parts[i], values[i], w);
      var sets := PartSets(parts, env);
      forall i | 0 <= i < |parts| ensures Covered(sets[i], values[i]) {
        PartCovers(parts[i], values[i], env, w);
      }
      CappedCovers(sets, values);
      assert sets == seq(|parts|, i requires 0 <= i < |parts| => Alternatives(parts[i], env));
    case Add(l, r) =>
      var k: nat :| k <= |s| && CanBe(l, s[..k], w) && CanBe(r, s[k..], w);
      StringsCover(l, s[..k], env, w);
      StringsCover(r, s[k..], env, w);
      AddCovers(Strings(l, env), Strings(r, env), s, k);
    case Format(b) =>
      var t :| CanBe(b, t, w) && (Formattable(t) ==> FormatsTo(t, s));
      assert Strings(b, env) != {};
      StringsCover(b, t, env, w);
      FormatCovers(Strings(b, env), t, s);
    case Strip(b, chars, l, r) =>
      var t :| CanBe(b, t, w) && s == Stripped(t, chars, l, r);
      StringsCover(b, t, env, w);
      StripCovers(Strings(b, env), t, chars, l, r);
    case _ =>
  }

  lemma {:induction false} PartCovers(p: Part, s: string, env: Env, w: World)
    requires EnvCovers(env, w) && FaithfulPart(p, env) && PartCanBe(p, s, w)
    ensures Covered(Alternatives(p, env), s)
    decreases p
  {
    match p
    case Literal(t) => FillsItself(t);
    case Field(v, _) =>
      if Strings(v, env) == {} { WildIsAny(s); assert [WILD] in Alternatives(p, env); }
      else { StringsCover(v, s, env, w); }
  }

  /** `"/api/x/{id}".format(...)`: of each string the base resolves to, the field becomes a wildcard. */
  lemma FormatRecordsFields(b: UrlExpr, env: Env, before: string, name: string, rest: string)
    requires NoBraces(before) && NoBraces(name) && NoBraces(rest)
    requires Strings(b, env) == {before + ("{" + name + "}") + rest}
    ensures Strings(Format(b), env) == {before + [WILD] + rest}
  {
    FirstFieldReplaced(before, name, rest);
    PairsKept(rest);
  }

  // ----- where everything resolves -----

  /** Every name and helper the expression uses resolves, no choice exceeds the cap, and no conversion, format
      specification, `format` or effective `strip` is applied. */
  ghost predicate Resolved(e: UrlExpr, env: Env)
    decreases e
  {
    match e
    case Text(_) => true
    case Name(id) => Get(env.names, id) != {}
    case Await(x) => Resolved(x, env)
    case Joined(parts) =>
      (forall i :: 0 <= i < |parts| ==> ResolvedPart(parts[i], env)) && |Choices(PartSets(parts, env))| <= 32
    case Invoke(h) => Get(env.helpers, h) != {}
    case Add(l, r) => Resolved(l, env) && Resolved(r, env) && |Choices([Strings(l, env), Strings(r, env)])| <= 32
    case Strip(b, chars, l, r) => Resolved(b, env) && forall t :: t in Strings(b, env) ==> Stripped(t, chars, l, r) == t
    case _ => false
  }

  ghost predicate ResolvedPart(p: Part, env: Env)
    decreases p
  {
    p.Literal? || (!p.spec && Resolved(p.value, env))
  }

  /** The names and helpers that are resolved hold, or return, just the strings recorded. */
  ghost predicate HoldsRecorded(env: Env, w: World) {
    && (forall id, s :: Get(env.names, id) != {} ==> (s in w.names(id) <==> s in env.names[id]))
    && (forall h, s :: Get(env.helpers, h) != {} ==> (s in w.helpers(h) <==> s in env.helpers[h]))
  }

  ghost predicate RecordedExactly(ts: set<string>, e: UrlExpr, w: World) {
    ts != {} && forall s :: s in ts <==> CanBe(e, s, w)
  }

  /** An expression that resolves throughout is recorded with exactly the strings it can be. */
  lemma {:induction false} ResolvedExactly(e: UrlExpr, env: Env, w: World)
    requires HoldsRecorded(env, w) && Resolved(e, env)
    ensures RecordedExactly(Strings(e, env), e, w)
    decreases e
  {
    match e
    case Text(v) => assert v in Strings(e, env);
    case Name(id) =>
    case Invoke(h) =>
    case Await(x) => ResolvedExactly(x, env, w);
    case Joined(parts) =>
      forall i | 0 <= i < |parts| ensures PartExactly(parts[i], env, w) { PartResolvedExactly(parts[i], env, w); }
      JoinedExactly(parts, env, w);
    case Add(l, r) =>
      ResolvedExactly(l, env, w);
      ResolvedExactly(r, env, w);
      SumExactly(l, r, env, w);
    case Strip(b, chars, l, r) =>
      ResolvedExactly(b, env, w);
      forall s ensures s in Strings(e, env) <==> CanBe(e, s, w) {
        if s in Strings(b, env) { assert CanBe(b, s, w) && s == Stripped(s, chars, l, r); }
      }
  }

  ghost predicate PartExactly(p: Part, env: Env, w: World) {
    Alternatives(p, env) != {} && forall s :: s in Alternatives(p, env) <==> PartCanBe(p, s, w)
  }

  lemma {:induction false} PartResolvedExactly(p: Part, env: Env, w: World)
    requires HoldsRecorded(env, w) && ResolvedPart(p, env)
    ensures PartExactly(p, env, w)
    decreases p
  {
    if p.Literal? { assert p.text in Alternatives(p, env); } else { ResolvedExactly(p.value, env, w); }
  }

  /** The values of an f-string's parts, one of each. */
  ghost predicate PartValues(parts: seq<Part>, values: seq<string>, w: World) {
    |values| == |parts| && forall i :: 0 <= i < |parts| ==> PartCanBe(parts[i], values[i], w)
  }

  lemma ChosenIsPossible(parts: seq<Part>, values: seq<string>, env: Env, w: World)
    requires forall i :: 0 <= i < |parts| ==> PartExactly(parts[i], env, w)
    ensures Chosen(values, PartSets(parts, env)) <==> PartValues(parts, values, w)
  {
    var sets := PartSets(parts, env);
    if |values| == |parts| {
      forall i | 0 <= i < |parts| ensures values[i] in sets[i] <==> PartCanBe(parts[i], values[i], w) {
        assert PartExactly(parts[i], env, w);
      }
    }
  }

  lemma {:induction false} SomeChoice(sets: seq<set<string>>) returns (choice: seq<string>)
    requires forall i :: 0 <= i < |sets| ==> sets[i] != {}
    ensures Chosen(choice, sets)
  {
    choice := [];
    if sets != [] {
      var n := |sets| - 1;
      choice := SomeChoice(sets[..n]);
      var x :| x in sets[n];
      ChosenGrows(sets, choice, x);
      choice := choice + [x];
    }
  }

  lemma JoinedExactly(parts: seq<Part>, env: Env, w: World)
    requires |Choices(PartSets(parts, env))| <= 32 && forall i :: 0 <= i < |parts| ==> PartExactly(parts[i], env, w)
    ensures RecordedExactly(Strings(Joined(parts), env), Joined(parts), w)
  {
    var sets := PartSets(parts, env);
    assert Strings(Joined(parts), env) == Capped(sets) by {
      assert sets == seq(|parts|, i requires 0 <= i < |parts| => Alternatives(parts[i], env));
    }
    forall s ensures s in Capped(sets) <==> CanBe(Joined(parts), s, w) { OneJoinedExactly(parts, s, env, w); }
    forall i | 0 <= i < |sets| ensures sets[i] != {} { assert PartExactly(parts[i], env, w); }
    var some := SomeChoice(sets);
    CappedExactly(sets, Flat(some));
  }

  lemma OneJoinedExactly(parts: seq<Part>, s: string, env: Env, w: World)
    requires |Choices(PartSets(parts, env))| <= 32 && forall i :: 0 <= i < |parts| ==> PartExactly(parts[i], env, w)
    ensures s in Capped(PartSets(parts, env)) <==> CanBe(Joined(parts), s, w)
  {
    var sets := PartSets(parts, env);
    CappedExactly(sets, s);
    if values :| Chosen(values, sets) && s == Flat(values) {
      ChosenIsPossible(parts, values, env, w);
    }
    if CanBe(Joined(parts), s, w) {
      var values: seq<string> :| s == Flat(values) && |values| == |parts|
        && forall i :: 0 <= i < |parts| ==> PartCanBe(parts[i], values[i], w);
      ChosenIsPossible(parts, values, env, w);
    }
  }

  lemma SumExactly(l: UrlExpr, r: UrlExpr, env: Env, w: World)
    requires RecordedExactly(Strings(l, env), l, w) && RecordedExactly(Strings(r, env), r, w)
    requires |Choices([Strings(l, env), Strings(r, env)])| <= 32
    ensures RecordedExactly(Strings(Add(l, r), env), Add(l, r), w)
  {
    forall s ensures s in Strings(Add(l, r), env) <==> CanBe(Add(l, r), s, w) { OneSumExactly(l, r, s, env, w); }
    var some := SomeChoice([Strings(l, env), Strings(r, env)]);
    AddExactly(l, r, env, Flat(some));
  }

  lemma OneSumExactly(l: UrlExpr, r: UrlExpr, s: string, env: Env, w: World)
    requires RecordedExactly(Strings(l, env), l, w) && RecordedExactly(Strings(r, env), r, w)
    requires |Choices([Strings(l, env), Strings(r, env)])| <= 32
    ensures s in Strings(Add(l, r), env) <==> CanBe(Add(l, r), s, w)
  {
    AddExactly(l, r, env, s);
    PairsAreCuts(Strings(l, env), Strings(r, env), s);
  }

  lemma PairsAreCuts(ls: set<string>, rs: set<string>, s: string)
    ensures (exists choice :: Chosen(choice, [ls, rs]) && s == Flat(choice))
      <==> exists k: nat :: k <= |s| && s[..k] in ls && s[k..] in rs
  {
    if choice :| Chosen(choice, [ls, rs]) && s == Flat(choice) {
      FlatOfTwo(choice);
      assert choice[0] in [ls, rs][0] && choice[1] in [ls, rs][1];
      assert s[..|choice[0]|] == choice[0] && s[|choice[0]|..] == choice[1];
    }
    if k: nat :| k <= |s| && s[..k] in ls && s[k..] in rs {
      FlatOfTwo([s[..k], s[k..]]);
      assert s[..k] + s[k..] == s && Chosen([s[..k], s[k..]], [ls, rs]);
    }
  }

  /** Dropping `strip` loses the URL a test really calls: `"/a/".strip("/")` is recorded as `/a/` only. */
  lemma StrippedUrlIsMissed(w: World)
    ensures
      var e := Strip(Text("/a/"), {'/'}, true, true);
      CanBe(e, "a", w) && Strings(e, Env(map[], map[])) == {"/a/"} && !Covered({"/a/"}, "a")
  {
    assert Stripped("/a/", {'/'}, true, true) == "a" by {
      assert "/a/"[1..] == "a/" && "a/"[..1] == "a";
      assert Stripped("a", {'/'}, true, true) == "a";
      assert Stripped("a/", {'/'}, true, true) == Stripped("a", {'/'}, true, true);
    }
    assert CanBe(Text("/a/"), "/a/", w);
    PlainFillsOnlyItself("/a/", "a", {});
  }
}
