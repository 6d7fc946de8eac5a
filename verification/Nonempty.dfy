/** `_static_nonempty`: which iterables can never be empty. */
module Nonempty {
  import opened Options
  import opened Terms

  predicate Truthy(l: Literal) {
    match l
    case Str(s) => s != ""
    case Int(n) => n != 0
    case Bool(b) => b
    case OtherLit(t) => t
  }

  /** The constant arguments of `range`, if all are integers (a `bool` is one). */
  predicate IntConst(e: Term) {
    e.Const? && (e.lit.Int? || e.lit.Bool?)
  }

  function Bound(e: Term): nat
    requires IntConst(e)
  {
    match e.lit case Int(n) => n case Bool(b) => if b then 1 else 0
  }

  predicate StaticNonempty(e: Term, consts: Consts, seen: set<string>)
    decreases consts.Keys - seen, e
  {
    match e
    case Name(id) => id !in seen && id in consts && StaticNonempty(consts[id], consts, seen + {id})
    case Display(elts) => elts != [] && forall i | 0 <= i < |elts| :: !elts[i].Starred?
    case Dict(entries) => entries != [] && forall i | 0 <= i < |entries| :: entries[i].key.Some?
    case Const(lit) => Truthy(lit)
    case Method(recv, attr, args) =>
      if attr in VIEWS then StaticNonempty(recv, consts, seen) else CallNonempty(e, attr, args, consts, seen)
    case Call(func, args) => CallNonempty(e, func, args, consts, seen)
    case _ => false
  }

  /** A call by name; whose attribute it is does not matter. */
  predicate CallNonempty(e: Term, name: string, args: seq<Term>, consts: Consts, seen: set<string>)
    requires forall i | 0 <= i < |args| :: args[i] < e
    decreases consts.Keys - seen, e, 0
  {
    if name == "range" then
      args != [] && (forall i | 0 <= i < |args| :: IntConst(args[i])) &&
      (if |args| == 1 then Bound(args[0]) > 0 else Bound(args[1]) > Bound(args[0]))
    else if name in SAME_LENGTH then args != [] && StaticNonempty(args[0], consts, seen)
    else if name == "zip" then args != [] && forall i | 0 <= i < |args| :: StaticNonempty(args[i], consts, seen)
    else false
  }

  /** No attribute call is taken for a built-in of the same name, where the verdict looks at it. */
  predicate InFragment(e: Term) {
    match e
    case Method(recv, attr, _) =>
      if attr in VIEWS then InFragment(recv) else attr != "range" && attr != "zip" && attr !in SAME_LENGTH
    case Call(func, args) =>
      if func in SAME_LENGTH then args != [] ==> InFragment(args[0])
      else if func == "zip" then forall i | 0 <= i < |args| :: InFragment(args[i])
      else true
    case _ => true
  }

  /** The same, with every name the verdict follows on the way. */
  predicate FragmentFrom(e: Term, consts: Consts, seen: set<string>)
    decreases consts.Keys - seen, e
  {
    match e
    case Name(id) => id !in seen && id in consts ==> FragmentFrom(consts[id], consts, seen + {id})
    case Method(recv, attr, _) =>
      if attr in VIEWS then FragmentFrom(recv, consts, seen) else attr != "range" && attr != "zip" && attr !in SAME_LENGTH
    case Call(func, args) =>
      if func in SAME_LENGTH then args != [] ==> FragmentFrom(args[0], consts, seen)
      else if func == "zip" then forall i | 0 <= i < |args| :: FragmentFrom(args[i], consts, seen)
      else true
    case _ => true
  }

  predicate Judged(consts: Consts, n: string) { StaticNonempty(Name(n), consts, {}) }

  /** What the names judged never empty are bound to stays in the fragment. */
  predicate JudgedInFragment(consts: Consts) {
    forall n | n in consts && Judged(consts, n) :: InFragment(consts[n])
  }

  /** Every name judged never empty holds, where bound, a nonempty value. */
  ghost predicate Kept(env: Env, consts: Consts) {
    forall n | n in env && Judged(consts, n) :: NonEmpty(env[n])
  }

  lemma {:induction false} SeenOnlyRestricts(e: Term, consts: Consts, seen: set<string>, fewer: set<string>)
    requires fewer <= seen && StaticNonempty(e, consts, seen)
    ensures StaticNonempty(e, consts, fewer)
    decreases consts.Keys - seen, e
  {
    match e
    case Name(id) => SeenOnlyRestricts(consts[id], consts, seen + {id}, fewer + {id});
    case Method(recv, attr, args) =>
      if attr in VIEWS { SeenOnlyRestricts(recv, consts, seen, fewer); } else { ArgsOnlyRestrict(e, attr, args, consts, seen, fewer); }
    case Call(func, args) => ArgsOnlyRestrict(e, func, args, consts, seen, fewer);
    case _ =>
  }

  lemma {:induction false} ArgsOnlyRestrict(e: Term, name: string, args: seq<Term>, consts: Consts, seen: set<string>, fewer: set<string>)
    requires forall i | 0 <= i < |args| :: args[i] < e
    requires fewer <= seen && CallNonempty(e, name, args, consts, seen)
    ensures CallNonempty(e, name, args, consts, fewer)
    decreases consts.Keys - seen, e, 0
  {
    if name in SAME_LENGTH {
      SeenOnlyRestricts(args[0], consts, seen, fewer);
    } else if name == "zip" {
      forall i | 0 <= i < |args| ensures StaticNonempty(args[i], consts, fewer) {
        SeenOnlyRestricts(args[i], consts, seen, fewer);
      }
    }
  }

  // ----- exactness -----

  /** What has a length the source settles: text, displays without a splice, dictionaries without a merge, and
      what `range`, `zip`, the length-preserving built-ins and the views make of such; names followed. Any other
      constant counts if it is truthy. */
  predicate Static(e: Term, consts: Consts, seen: set<string>)
    decreases consts.Keys - seen, e
  {
    match e
    case Name(id) => id !in seen && id in consts && Static(consts[id], consts, seen + {id})
    case Const(lit) => lit.Str? || Truthy(lit)
    case Display(elts) => forall i | 0 <= i < |elts| :: !elts[i].Starred?
    case Dict(entries) => forall i | 0 <= i < |entries| :: entries[i].key.Some?
    case Method(recv, attr, _) => attr in VIEWS && Static(recv, consts, seen)
    case Call(func, args) =>
      && args != []
      && (func == "range" || func == "zip" || func in SAME_LENGTH)
      && (if func == "range" then forall i | 0 <= i < |args| :: IntConst(args[i])
          else if func == "zip" then forall i | 0 <= i < |args| :: Static(args[i], consts, seen)
          else Static(args[0], consts, seen))
    case _ => false
  }

  /** The verdict holds of nothing else. */
  lemma {:induction false} JudgedIsStatic(e: Term, consts: Consts, seen: set<string>)
    requires StaticNonempty(e, consts, seen) && FragmentFrom(e, consts, seen)
    ensures Static(e, consts, seen)
    decreases consts.Keys - seen, e
  {
    match e
    case Name(id) => JudgedIsStatic(consts[id], consts, seen + {id});
    case Method(recv, attr, args) => JudgedIsStatic(recv, consts, seen);
    case Call(func, args) =>
      if func == "zip" {
        forall i | 0 <= i < |args| ensures Static(args[i], consts, seen) { JudgedIsStatic(args[i], consts, seen); }
      } else if func in SAME_LENGTH {
        JudgedIsStatic(args[0], consts, seen);
      }
    case _ =>
  }

  /** And of what is static, of exactly those that are not empty. */
  lemma {:induction false} StaticExactly(e: Term, consts: Consts, seen: set<string>, env: Env, w: World)
    requires Static(e, consts, seen) && Consistent(env, consts, w) && Eval(e, env, w).Some?
    ensures StaticNonempty(e, consts, seen) <==> NonEmpty(Eval(e, env, w).value)
    decreases consts.Keys - seen, e
  {
    match e
    case Name(id) => StaticExactly(consts[id], consts, seen + {id}, env, w);
    case Const(_) =>
    case Display(elts) => DisplayLength(elts, env, w);
    case Dict(entries) => DictLength(entries, env, w);
    case Method(recv, attr, _) => StaticExactly(recv, consts, seen, env, w);
    case Call(func, args) =>
      if func == "range" {
        RangeExactly(args, env, w);
      } else if func == "zip" {
        forall i | 0 <= i < |args| && Eval(args[i], env, w).Some?
          ensures StaticNonempty(args[i], consts, seen) <==> NonEmpty(Eval(args[i], env, w).value)
        {
          StaticExactly(args[i], consts, seen, env, w);
        }
        ZipJudgedExactly(args, consts, seen, env, w);
      } else {
        StaticExactly(args[0], consts, seen, env, w);
        SameNonemptyExactly(func, Eval(args[0], env, w).value);
      }
  }

  lemma ZipJudgedExactly(args: seq<Term>, consts: Consts, seen: set<string>, env: Env, w: World)
    requires args != [] && Eval(Call("zip", args), env, w).Some?
    requires forall i | 0 <= i < |args| && Eval(args[i], env, w).Some? ::
               StaticNonempty(args[i], consts, seen) <==> NonEmpty(Eval(args[i], env, w).value)
    ensures StaticNonempty(Call("zip", args), consts, seen) <==> NonEmpty(Eval(Call("zip", args), env, w).value)
  {
    EachEvaluates(args, env, w);
    ZipNonemptyExactly(EvalAll(args, env, w).value);
  }

  /** Where an expression evaluates, in an environment that agrees with the bindings, it is judged never empty
      exactly when its length is static and not zero. */
  lemma NonemptyExactly(e: Term, consts: Consts, env: Env, w: World)
    requires FragmentFrom(e, consts, {}) && Consistent(env, consts, w) && Eval(e, env, w).Some?
    ensures StaticNonempty(e, consts, {}) <==> Static(e, consts, {}) && NonEmpty(Eval(e, env, w).value)
  {
    if StaticNonempty(e, consts, {}) { JudgedIsStatic(e, consts, {}); }
    if Static(e, consts, {}) { StaticExactly(e, consts, {}, env, w); }
  }

  /** So what is judged never empty evaluates, if at all, to a nonempty value; cyclic bindings included. */
  lemma NonemptySound(e: Term, consts: Consts, seen: set<string>, env: Env, w: World)
    requires StaticNonempty(e, consts, seen) && FragmentFrom(e, consts, seen) && Consistent(env, consts, w)
    ensures Eval(e, env, w).Some? ==> NonEmpty(Eval(e, env, w).value)
  {
    JudgedIsStatic(e, consts, seen);
    if Eval(e, env, w).Some? { StaticExactly(e, consts, seen, env, w); }
  }

  lemma {:induction false} DisplayLength(elts: seq<Term>, env: Env, w: World)
    requires forall i | 0 <= i < |elts| :: !elts[i].Starred?
    ensures EvalElts(elts, env, w).Some? ==> |EvalElts(elts, env, w).value| == |elts|
  {
    if elts != [] { DisplayLength(elts[1..], env, w); }
  }

  lemma {:induction false} DictLength(entries: seq<Entry>, env: Env, w: World)
    requires forall i | 0 <= i < |entries| :: entries[i].key.Some?
    ensures EvalDict(entries, env, w).Some? ==>
              EvalDict(entries, env, w).value.Table? && |EvalDict(entries, env, w).value.keys| == |entries|
  {
    if entries != [] { DictLength(entries[1..], env, w); }
  }

  lemma {:induction false} EachEvaluates(args: seq<Term>, env: Env, w: World)
    requires EvalAll(args, env, w).Some?
    ensures var vs := EvalAll(args, env, w).value;
            |vs| == |args| && forall i | 0 <= i < |args| :: Eval(args[i], env, w) == Some(vs[i])
  {
    if args != [] { EachEvaluates(args[1..], env, w); }
  }

  lemma {:induction false} ZipNonemptyExactly(vs: seq<Value>)
    requires vs != [] && CallZip(vs).Some?
    ensures NonEmpty(CallZip(vs).value) <==> forall i | 0 <= i < |vs| :: NonEmpty(vs[i])
  {
    if |vs| > 1 {
      ZipNonemptyExactly(vs[1..]);
      assert forall i | 1 <= i < |vs| :: vs[i] == vs[1..][i-1];
    }
  }

  lemma SameNonemptyExactly(func: string, v: Value)
    requires CallSame(func, v).Some?
    ensures NonEmpty(CallSame(func, v).value) <==> NonEmpty(v)
  {
  }

  /** The same, relying on the names only through what they hold now. */
  lemma {:induction false} NonemptyWhereKept(e: Term, consts: Consts, env: Env, w: World)
    requires StaticNonempty(e, consts, {}) && InFragment(e) && Kept(env, consts) && Eval(e, env, w).Some?
    ensures NonEmpty(Eval(e, env, w).value)
    decreases e
  {
    match e
    case Name(id) => assert Judged(consts, id);
    case Display(elts) => DisplayLength(elts, env, w);
    case Dict(entries) => DictLength(entries, env, w);
    case Const(_) =>
    case Method(recv, attr, _) => NonemptyWhereKept(recv, consts, env, w);
    case Call(func, args) =>
      if func == "range" {
        RangeExactly(args, env, w);
      } else if func == "zip" {
        EachEvaluates(args, env, w);
        forall i | 0 <= i < |args| ensures NonEmpty(EvalAll(args, env, w).value[i]) {
          NonemptyWhereKept(args[i], consts, env, w);
        }
        ZipNonemptyExactly(EvalAll(args, env, w).value);
      } else {
        NonemptyWhereKept(args[0], consts, env, w);
        SameNonemptyExactly(func, Eval(args[0], env, w).value);
      }
  }

  /** For `range` over constants the verdict is exact. A negative bound or step is not a constant but
      an operation on one, so the comparison of the first two bounds settles it. */
  lemma RangeExactly(args: seq<Term>, env: Env, w: World)
    requires forall i | 0 <= i < |args| :: IntConst(args[i])
    ensures match Eval(Call("range", args), env, w)
            case Some(v) => v.Items? && (v.elts != [] <==> CallNonempty(Call("range", args), "range", args, map[], {}))
            case None => true
  {
    EvalConsts(args, env, w);
  }

  lemma {:induction false} EvalConsts(args: seq<Term>, env: Env, w: World)
    requires forall i | 0 <= i < |args| :: IntConst(args[i])
    ensures match EvalAll(args, env, w)
            case Some(vs) => |vs| == |args| && forall i | 0 <= i < |args| :: vs[i] == Num(Bound(args[i]))
            case None => false
  {
    if args != [] {
      EvalConsts(args[1..], env, w);
      assert Eval(args[0], env, w) == Some(Num(Bound(args[0])));
      assert EvalAll(args, env, w) == Some([Num(Bound(args[0]))] + EvalAll(args[1..], env, w).value);
    }
  }

  /** `rng.range(1)` is judged never empty for its name alone, though it may return anything. */
  lemma BuiltinNameIsTrusted(recv: Term, env: Env)
    ensures var e := Method(recv, "range", [Const(Int(1))]);
            && StaticNonempty(e, map[], {}) && !InFragment(e)
            && exists w: World :: Eval(e, env, w) == Some(Items([]))
  {
    var e := Method(recv, "range", [Const(Int(1))]);
    var w: World := (e: Term) => Some(Items([]));
    assert Eval(e, env, w) == Some(Items([]));
  }
}
