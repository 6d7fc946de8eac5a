/** `_fully_literal`: which expressions have one value, whatever the environment. */
module LiteralTerms {
  import opened Options
  import opened Terms

  predicate FullyLiteral(e: Term, consts: Consts, seen: set<string>)
    decreases consts.Keys - seen, e, 0
  {
    match e
    case Const(_) => true
    case Name(id) => id !in seen && id in consts && FullyLiteral(consts[id], consts, seen + {id})
    case Display(elts) => forall i | 0 <= i < |elts| :: FullyLiteral(elts[i], consts, seen)
    case Dict(entries) =>
      forall i | 0 <= i < |entries| ::
        entries[i].key.Some? && FullyLiteral(entries[i].key.value, consts, seen) && FullyLiteral(entries[i].value, consts, seen)
    case Joined(parts) =>
      forall i | 0 <= i < |parts| ::
        if parts[i].Formatted? then FullyLiteral(parts[i].value, consts, seen) else FullyLiteral(parts[i], consts, seen)
    case BinOp(left, right) => FullyLiteral(left, consts, seen) && FullyLiteral(right, consts, seen)
    case _ => false
  }

  /** Fully literal, with format specifications looked at like everything else. */
  predicate Fixed(e: Term, consts: Consts, seen: set<string>)
    decreases consts.Keys - seen, e, 0
  {
    match e
    case Const(_) => true
    case Name(id) => id !in seen && id in consts && Fixed(consts[id], consts, seen + {id})
    case Display(elts) => forall i | 0 <= i < |elts| :: Fixed(elts[i], consts, seen)
    case Dict(entries) =>
      forall i | 0 <= i < |entries| ::
        entries[i].key.Some? && Fixed(entries[i].key.value, consts, seen) && Fixed(entries[i].value, consts, seen)
    case Joined(parts) => forall i | 0 <= i < |parts| :: Fixed(parts[i], consts, seen)
    case Formatted(value, spec) =>
      Fixed(value, consts, seen) && forall i | 0 <= i < |spec| :: Fixed(spec[i], consts, seen)
    case BinOp(left, right) => Fixed(left, consts, seen) && Fixed(right, consts, seen)
    case _ => false
  }

  predicate Spliced(elts: seq<Term>) { exists i :: 0 <= i < |elts| && elts[i].Starred? }

  predicate Merging(entries: seq<Entry>) { exists i :: 0 <= i < |entries| && entries[i].key.None? }

  /** Resolving names and taking literals, displays, f-strings and operators apart ends at `l`. */
  predicate OpenLeaf(e: Term, consts: Consts, seen: set<string>, l: Term)
    decreases consts.Keys - seen, e, 0
  {
    match e
    case Const(_) => false
    case Name(id) => if id !in seen && id in consts then OpenLeaf(consts[id], consts, seen + {id}, l) else l == e
    case Display(elts) =>
      if Spliced(elts) then l == e else exists i | 0 <= i < |elts| :: OpenLeaf(elts[i], consts, seen, l)
    case Dict(entries) =>
      if Merging(entries) then l == e
      else exists i | 0 <= i < |entries| ::
        OpenLeaf(entries[i].key.value, consts, seen, l) || OpenLeaf(entries[i].value, consts, seen, l)
    case Joined(parts) => exists i | 0 <= i < |parts| :: OpenLeaf(parts[i], consts, seen, l)
    case Formatted(value, spec) =>
      OpenLeaf(value, consts, seen, l) || exists i | 0 <= i < |spec| :: OpenLeaf(spec[i], consts, seen, l)
    case BinOp(left, right) => OpenLeaf(left, consts, seen, l) || OpenLeaf(right, consts, seen, l)
    case _ => l == e
  }

  lemma {:induction false} FixedHasNoLeaf(e: Term, consts: Consts, seen: set<string>, l: Term)
    requires Fixed(e, consts, seen)
    ensures !OpenLeaf(e, consts, seen, l)
    decreases consts.Keys - seen, e
  {
    match e
    case Const(_) =>
    case Name(id) => FixedHasNoLeaf(consts[id], consts, seen + {id}, l);
    case Display(elts) =>
      forall i | 0 <= i < |elts| ensures !OpenLeaf(elts[i], consts, seen, l) { FixedHasNoLeaf(elts[i], consts, seen, l); }
    case Dict(entries) =>
      forall i | 0 <= i < |entries|
        ensures !OpenLeaf(entries[i].key.value, consts, seen, l) && !OpenLeaf(entries[i].value, consts, seen, l)
      {
        FixedHasNoLeaf(entries[i].key.value, consts, seen, l);
        FixedHasNoLeaf(entries[i].value, consts, seen, l);
      }
    case Joined(parts) =>
      forall i | 0 <= i < |parts| ensures !OpenLeaf(parts[i], consts, seen, l) { FixedHasNoLeaf(parts[i], consts, seen, l); }
    case Formatted(value, spec) =>
      FixedHasNoLeaf(value, consts, seen, l);
      forall i | 0 <= i < |spec| ensures !OpenLeaf(spec[i], consts, seen, l) { FixedHasNoLeaf(spec[i], consts, seen, l); }
    case BinOp(left, right) => FixedHasNoLeaf(left, consts, seen, l); FixedHasNoLeaf(right, consts, seen, l);
  }

  lemma {:induction false} LeafIfNotFixed(e: Term, consts: Consts, seen: set<string>) returns (l: Term)
    requires !Fixed(e, consts, seen)
    ensures OpenLeaf(e, consts, seen, l)
    decreases consts.Keys - seen, e
  {
    l := e;
    match e
    case Name(id) => if id !in seen && id in consts { l := LeafIfNotFixed(consts[id], consts, seen + {id}); }
    case Display(elts) =>
      if !Spliced(elts) {
        var i :| 0 <= i < |elts| && !Fixed(elts[i], consts, seen);
        l := LeafIfNotFixed(elts[i], consts, seen);
      }
    case Dict(entries) =>
      if !Merging(entries) {
        var i :| 0 <= i < |entries| && !(Fixed(entries[i].key.value, consts, seen) && Fixed(entries[i].value, consts, seen));
        if Fixed(entries[i].value, consts, seen) {
          l := LeafIfNotFixed(entries[i].key.value, consts, seen);
        } else {
          l := LeafIfNotFixed(entries[i].value, consts, seen);
        }
      }
    case Joined(parts) =>
      var i :| 0 <= i < |parts| && !Fixed(parts[i], consts, seen);
      l := LeafIfNotFixed(parts[i], consts, seen);
    case Formatted(value, spec) =>
      if !Fixed(value, consts, seen) {
        l := LeafIfNotFixed(value, consts, seen);
      } else {
        var i :| 0 <= i < |spec| && !Fixed(spec[i], consts, seen);
        l := LeafIfNotFixed(spec[i], consts, seen);
      }
    case BinOp(left, right) =>
      if Fixed(left, consts, seen) {
        l := LeafIfNotFixed(right, consts, seen);
      } else {
        l := LeafIfNotFixed(left, consts, seen);
      }
    case _ =>
  }

  // ----- the same value in two environments -----

  ghost predicate Agree(e: Term, env: Env, w: World, env': Env, w': World) {
    Eval(e, env, w) == Eval(e, env', w')
  }

  ghost predicate LeavesAgree(e: Term, consts: Consts, seen: set<string>, env: Env, w: World, env': Env, w': World) {
    forall l :: OpenLeaf(e, consts, seen, l) ==> Agree(l, env, w, env', w')
  }

  /** Environments that agree with the bindings, and on the open leaves, agree on the expression. */
  lemma {:induction false} LeavesSuffice(e: Term, consts: Consts, seen: set<string>, env: Env, w: World, env': Env, w': World)
    requires LeavesAgree(e, consts, seen, env, w, env', w')
    requires Consistent(env, consts, w) && Consistent(env', consts, w')
    ensures Agree(e, env, w, env', w')
    decreases consts.Keys - seen, e, 1
  {
    match e
    case Const(_) =>
    case Name(id) =>
      if id !in seen && id in consts { LeavesSuffice(consts[id], consts, seen + {id}, env, w, env', w'); }
    case Display(elts) =>
      if !Spliced(elts) {
        forall i | 0 <= i < |elts| ensures Agree(elts[i], env, w, env', w') {
          LeavesSuffice(elts[i], consts, seen, env, w, env', w');
        }
        EltsAgree(elts, env, w, env', w');
      }
    case Dict(entries) =>
      if !Merging(entries) {
        forall i | 0 <= i < |entries|
          ensures Agree(entries[i].key.value, env, w, env', w') && Agree(entries[i].value, env, w, env', w')
        {
          LeavesSuffice(entries[i].key.value, consts, seen, env, w, env', w');
          LeavesSuffice(entries[i].value, consts, seen, env, w, env', w');
        }
        EntriesAgree(entries, env, w, env', w');
      }
    case Joined(parts) =>
      forall i | 0 <= i < |parts| ensures Agree(parts[i], env, w, env', w') {
        LeavesSuffice(parts[i], consts, seen, env, w, env', w');
      }
      AllAgree(parts, env, w, env', w');
    case Formatted(value, spec) =>
      LeavesSuffice(value, consts, seen, env, w, env', w');
      forall i | 0 <= i < |spec| ensures Agree(spec[i], env, w, env', w') {
        LeavesSuffice(spec[i], consts, seen, env, w, env', w');
      }
      AllAgree(spec, env, w, env', w');
    case BinOp(left, right) =>
      LeavesSuffice(left, consts, seen, env, w, env', w');
      LeavesSuffice(right, consts, seen, env, w, env', w');
    case _ =>
  }

  /** Where the expression evaluates and two environments agree on it, they agree on every open leaf. */
  lemma {:induction false} LeavesNeeded(e: Term, consts: Consts, seen: set<string>, env: Env, w: World, env': Env, w': World, l: Term)
    requires OpenLeaf(e, consts, seen, l)
    requires Agree(e, env, w, env', w') && Eval(e, env, w).Some?
    requires Consistent(env, consts, w) && Consistent(env', consts, w')
    ensures Agree(l, env, w, env', w') && Eval(l, env, w).Some?
    decreases consts.Keys - seen, e
  {
    match e
    case Name(id) =>
      if id !in seen && id in consts { LeavesNeeded(consts[id], consts, seen + {id}, env, w, env', w', l); }
    case Display(elts) =>
      if !Spliced(elts) {
        var i :| 0 <= i < |elts| && OpenLeaf(elts[i], consts, seen, l);
        EltOfAgreeing(elts, i, env, w, env', w');
        LeavesNeeded(elts[i], consts, seen, env, w, env', w', l);
      }
    case Dict(entries) =>
      if !Merging(entries) {
        var i :| 0 <= i < |entries| && (OpenLeaf(entries[i].key.value, consts, seen, l) || OpenLeaf(entries[i].value, consts, seen, l));
        EntryOfAgreeing(entries, i, env, w, env', w');
        if OpenLeaf(entries[i].key.value, consts, seen, l) {
          LeavesNeeded(entries[i].key.value, consts, seen, env, w, env', w', l);
        } else {
          LeavesNeeded(entries[i].value, consts, seen, env, w, env', w', l);
        }
      }
    case Joined(parts) =>
      var i :| 0 <= i < |parts| && OpenLeaf(parts[i], consts, seen, l);
      PartOfAgreeing(parts, i, env, w, env', w');
      LeavesNeeded(parts[i], consts, seen, env, w, env', w', l);
    case Formatted(value, spec) =>
      FieldOfAgreeing(value, spec, env, w, env', w');
      if OpenLeaf(value, consts, seen, l) {
        LeavesNeeded(value, consts, seen, env, w, env', w', l);
      } else {
        var i :| 0 <= i < |spec| && OpenLeaf(spec[i], consts, seen, l);
        PartOfAgreeing(spec, i, env, w, env', w');
        LeavesNeeded(spec[i], consts, seen, env, w, env', w', l);
      }
    case BinOp(left, right) =>
      OperandsOfAgreeing(left, right, env, w, env', w');
      LeavesNeeded(if OpenLeaf(left, consts, seen, l) then left else right, consts, seen, env, w, env', w', l);
    case _ =>
  }

  lemma OperandsOfAgreeing(left: Term, right: Term, env: Env, w: World, env': Env, w': World)
    requires Agree(BinOp(left, right), env, w, env', w') && Eval(BinOp(left, right), env, w).Some?
    ensures Agree(left, env, w, env', w') && Eval(left, env, w).Some?
    ensures Agree(right, env, w, env', w') && Eval(right, env, w).Some?
  {
    var v := Eval(BinOp(left, right), env, w).value;
    assert v.parts[0] == Eval(left, env, w).value == Eval(left, env', w').value;
    assert v.parts[1] == Eval(right, env, w).value == Eval(right, env', w').value;
  }

  lemma FieldOfAgreeing(value: Term, spec: seq<Term>, env: Env, w: World, env': Env, w': World)
    requires Agree(Formatted(value, spec), env, w, env', w') && Eval(Formatted(value, spec), env, w).Some?
    ensures Agree(value, env, w, env', w') && Eval(value, env, w).Some?
    ensures EvalAll(spec, env, w) == EvalAll(spec, env', w') && EvalAll(spec, env, w).Some?
  {
    var v := Eval(Formatted(value, spec), env, w).value;
    assert v.parts[0] == Eval(value, env, w).value == Eval(value, env', w').value;
    assert v.parts[1..] == EvalAll(spec, env, w).value == EvalAll(spec, env', w').value;
  }

  lemma {:induction false} PartOfAgreeing(es: seq<Term>, i: nat, env: Env, w: World, env': Env, w': World)
    requires i < |es| && EvalAll(es, env, w).Some? && EvalAll(es, env, w) == EvalAll(es, env', w')
    ensures Agree(es[i], env, w, env', w') && Eval(es[i], env, w).Some?
    decreases i
  {
    var vs := EvalAll(es, env, w).value;
    assert vs[0] == Eval(es[0], env, w).value == Eval(es[0], env', w').value;
    assert vs[1..] == EvalAll(es[1..], env, w).value == EvalAll(es[1..], env', w').value;
    if i > 0 { PartOfAgreeing(es[1..], i - 1, env, w, env', w'); }
  }

  lemma {:induction false} EltOfAgreeing(es: seq<Term>, i: nat, env: Env, w: World, env': Env, w': World)
    requires i < |es| && !Spliced(es) && EvalElts(es, env, w).Some? && EvalElts(es, env, w) == EvalElts(es, env', w')
    ensures Agree(es[i], env, w, env', w') && Eval(es[i], env, w).Some?
    decreases i
  {
    var vs := EvalElts(es, env, w).value;
    assert !es[0].Starred? && !Spliced(es[1..]);
    assert vs[0] == Eval(es[0], env, w).value == Eval(es[0], env', w').value;
    assert vs[1..] == EvalElts(es[1..], env, w).value == EvalElts(es[1..], env', w').value;
    if i > 0 { EltOfAgreeing(es[1..], i - 1, env, w, env', w'); }
  }

  lemma {:induction false} EntryOfAgreeing(es: seq<Entry>, i: nat, env: Env, w: World, env': Env, w': World)
    requires i < |es| && !Merging(es) && EvalDict(es, env, w).Some? && EvalDict(es, env, w) == EvalDict(es, env', w')
    ensures es[i].key.Some?
    ensures Agree(es[i].key.value, env, w, env', w') && Eval(es[i].key.value, env, w).Some?
    ensures Agree(es[i].value, env, w, env', w') && Eval(es[i].value, env, w).Some?
    decreases i
  {
    FirstEntry(es, env, w);
    FirstEntry(es, env', w');
    if i > 0 { EntryOfAgreeing(es[1..], i - 1, env, w, env', w'); }
  }

  /** The first key and value of the table are those of the first entry, the others the rest's. */
  lemma FirstEntry(es: seq<Entry>, env: Env, w: World)
    requires es != [] && !Merging(es) && EvalDict(es, env, w).Some?
    ensures es[0].key.Some? && !Merging(es[1..])
    ensures EvalDict(es, env, w).value.Table?
    ensures
      var t := EvalDict(es, env, w).value;
      && t.keys != [] && t.vals != []
      && Eval(es[0].key.value, env, w) == Some(t.keys[0]) && Eval(es[0].value, env, w) == Some(t.vals[0])
      && EvalDict(es[1..], env, w) == Some(Table(t.keys[1..], t.vals[1..]))
  {
    assert es[0].key.Some? && !Merging(es[1..]);
    assert EvalEntry(es[0], env, w).Some? && EvalDict(es[1..], env, w).Some?;
    var rest := EvalDict(es[1..], env, w).value;
    var k, v := Eval(es[0].key.value, env, w).value, Eval(es[0].value, env, w).value;
    assert EvalEntry(es[0], env, w) == Some(Table([k], [v]));
    var t := EvalDict(es, env, w).value;
    assert t == Table([k] + rest.keys, [v] + rest.vals);
    assert t.keys[1..] == rest.keys && t.vals[1..] == rest.vals;
  }

  /** In all environments that agree with the bindings the expression has one value, or none in all. */
  ghost predicate AlwaysSame(e: Term, consts: Consts) {
    forall env, w, env', w' ::
      Consistent(env, consts, w) && Consistent(env', consts, w') ==> Agree(e, env, w, env', w')
  }

  ghost predicate LeavesAlwaysSame(e: Term, consts: Consts) {
    forall env, w, env', w' ::
      Consistent(env, consts, w) && Consistent(env', consts, w') && Eval(e, env, w).Some? ==>
        LeavesAgree(e, consts, {}, env, w, env', w')
  }

  /** The value is fixed exactly when, where it has one, the open leaves are. */
  lemma SameExactly(e: Term, consts: Consts)
    ensures AlwaysSame(e, consts) <==> LeavesAlwaysSame(e, consts)
  {
    if AlwaysSame(e, consts) {
      forall env, w, env', w', l | Consistent(env, consts, w) && Consistent(env', consts, w')
        && Eval(e, env, w).Some? && OpenLeaf(e, consts, {}, l) ensures Agree(l, env, w, env', w')
      {
        LeavesNeeded(e, consts, {}, env, w, env', w', l);
      }
    }
    if LeavesAlwaysSame(e, consts) {
      forall env, w, env', w' | Consistent(env, consts, w) && Consistent(env', consts, w')
        ensures Agree(e, env, w, env', w')
      {
        if Eval(e, env, w).Some? {
          LeavesSuffice(e, consts, {}, env, w, env', w');
        } else if Eval(e, env', w').Some? {
          LeavesSuffice(e, consts, {}, env', w', env, w);
        }
      }
    }
  }

  /** A fixed expression has the same value in all environments that agree with the bindings. */
  lemma FixedIsSame(e: Term, consts: Consts)
    requires Fixed(e, consts, {})
    ensures AlwaysSame(e, consts)
  {
    forall env, w, env', w' | Consistent(env, consts, w) && Consistent(env', consts, w')
      ensures Agree(e, env, w, env', w')
    {
      forall l ensures !OpenLeaf(e, consts, {}, l) { FixedHasNoLeaf(e, consts, {}, l); }
      LeavesSuffice(e, consts, {}, env, w, env', w');
    }
  }

  // ----- leaves on which nothing else depends -----

  /** A name, or code whose value comes from outside the modelled fragment. */
  predicate Changeable(l: Term) {
    match l
    case Name(_) => true
    case Other(_) => true
    case Method(_, attr, _) => attr !in VIEWS
    case Call(func, args) => func != "range" && func != "zip" && (func in SAME_LENGTH ==> args == [])
    case _ => false
  }

  /** Its value exists as soon as those of the names and outside code in it do. */
  predicate Total(e: Term)
    decreases e
  {
    match e
    case Const(_) => true
    case Display(elts) => !Spliced(elts) && forall i | 0 <= i < |elts| :: Total(elts[i])
    case Dict(entries) =>
      !Merging(entries) && forall i | 0 <= i < |entries| :: Total(entries[i].key.value) && Total(entries[i].value)
    case Joined(parts) => forall i | 0 <= i < |parts| :: Total(parts[i])
    case Formatted(value, spec) => Total(value) && forall i | 0 <= i < |spec| :: Total(spec[i])
    case BinOp(left, right) => Total(left) && Total(right)
    case _ => Changeable(e)
  }

  /** The names whose bindings depend on the leaf, each after those it depends on; the other bindings
      mention neither the leaf nor any of them. */
  predicate Dependents(l: Term, order: seq<string>, consts: Consts) {
    && Changeable(l) && (l.Name? ==> l.id !in consts)
    && (forall i | 0 <= i < |order| :: order[i] in consts && Total(consts[order[i]]))
    && (forall i, j | 0 <= i < j < |order| :: order[i] != order[j])
    && (forall i, j | 0 <= i <= j < |order| :: !Contains(consts[order[i]], Name(order[j])))
    && (forall m | m in consts && m !in order :: !Contains(consts[m], l) && forall j | 0 <= j < |order| :: !Contains(consts[m], Name(order[j])))
  }

  function EnvWith(env: Env, l: Term, v: Value): Env { if l.Name? then env[l.id := v] else env }

  function WorldWith(w: World, l: Term, v: Value): World {
    if l.Name? then w else (t: Term) => if t == l then Some(v) else w(t)
  }

  lemma {:induction false} EvalIgnores(e: Term, l: Term, v: Value, env: Env, w: World)
    requires Changeable(l) && !Contains(e, l)
    ensures Agree(e, env, w, EnvWith(env, l, v), WorldWith(w, l, v))
    decreases e, 1
  {
    match e
    case Display(elts) => EltsIgnore(elts, l, v, env, w);
    case Dict(entries) => EntriesIgnore(entries, l, v, env, w);
    case Joined(parts) => AllIgnore(parts, l, v, env, w);
    case Formatted(value, spec) => EvalIgnores(value, l, v, env, w); AllIgnore(spec, l, v, env, w);
    case BinOp(left, right) => EvalIgnores(left, l, v, env, w); EvalIgnores(right, l, v, env, w);
    case Call(_, args) =>
      AllIgnore(args, l, v, env, w);
      if args != [] { EvalIgnores(args[0], l, v, env, w); }
      CallIgnores(e, l, v, env, w);
    case Method(recv, _, _) => EvalIgnores(recv, l, v, env, w);
    case _ =>
  }

  /** What a call's value is made of: its arguments, the first one alone, and the outside. */
  function CallValue(func: string, all: Option<seq<Value>>, first: Option<Value>, outside: Option<Value>, bare: bool): Option<Value> {
    if func == "range" then (match all case Some(vs) => CallRange(vs) case None => None)
    else if func == "zip" then (match all case Some(vs) => CallZip(vs) case None => None)
    else if func in SAME_LENGTH && !bare then (match first case Some(v) => CallSame(func, v) case None => None)
    else outside
  }

  lemma CallHasValue(e: Term, env: Env, w: World)
    requires e.Call?
    ensures Eval(e, env, w) ==
      CallValue(e.func, EvalAll(e.args, env, w), if e.args == [] then None else Eval(e.args[0], env, w), w(e), e.args == [])
  {
  }

  lemma CallIgnores(e: Term, l: Term, v: Value, env: Env, w: World)
    requires e.Call? && e != l
    requires EvalAll(e.args, env, w) == EvalAll(e.args, EnvWith(env, l, v), WorldWith(w, l, v))
    requires e.args != [] ==> Agree(e.args[0], env, w, EnvWith(env, l, v), WorldWith(w, l, v))
    ensures Agree(e, env, w, EnvWith(env, l, v), WorldWith(w, l, v))
  {
    CallHasValue(e, env, w);
    CallHasValue(e, EnvWith(env, l, v), WorldWith(w, l, v));
    assert WorldWith(w, l, v)(e) == w(e);
  }

  lemma {:induction false} AllIgnore(es: seq<Term>, l: Term, v: Value, env: Env, w: World)
    requires Changeable(l) && forall i | 0 <= i < |es| :: !Contains(es[i], l)
    ensures EvalAll(es, env, w) == EvalAll(es, EnvWith(env, l, v), WorldWith(w, l, v))
    decreases es, 0
  {
    if es != [] {
      EvalIgnores(es[0], l, v, env, w);
      AllIgnore(es[1..], l, v, env, w);
    }
  }

  lemma {:induction false} EltsIgnore(es: seq<Term>, l: Term, v: Value, env: Env, w: World)
    requires Changeable(l) && forall i | 0 <= i < |es| :: !Contains(es[i], l)
    ensures EvalElts(es, env, w) == EvalElts(es, EnvWith(env, l, v), WorldWith(w, l, v))
    decreases es, 0
  {
    if es != [] {
      EltIgnores(es[0], l, v, env, w);
      EltsIgnore(es[1..], l, v, env, w);
    }
  }

  lemma {:induction false} EltIgnores(e: Term, l: Term, v: Value, env: Env, w: World)
    requires Changeable(l) && !Contains(e, l)
    ensures EvalElt(e, env, w) == EvalElt(e, EnvWith(env, l, v), WorldWith(w, l, v))
    decreases e, 2
  {
    EvalIgnores(if e.Starred? then e.e else e, l, v, env, w);
  }

  lemma {:induction false} EntryIgnores(entry: Entry, l: Term, v: Value, env: Env, w: World)
    requires Changeable(l) && (entry.key.Some? ==> !Contains(entry.key.value, l)) && !Contains(entry.value, l)
    ensures EvalEntry(entry, env, w) == EvalEntry(entry, EnvWith(env, l, v), WorldWith(w, l, v))
    decreases entry, 2
  {
    match entry
    case Entry(None, value) => EvalIgnores(value, l, v, env, w);
    case Entry(Some(key), value) => EvalIgnores(key, l, v, env, w); EvalIgnores(value, l, v, env, w);
  }

  lemma {:induction false} EntriesIgnore(es: seq<Entry>, l: Term, v: Value, env: Env, w: World)
    requires Changeable(l)
    requires forall i | 0 <= i < |es| ::
      (es[i].key.Some? ==> !Contains(es[i].key.value, l)) && !Contains(es[i].value, l)
    ensures EvalDict(es, env, w) == EvalDict(es, EnvWith(env, l, v), WorldWith(w, l, v))
    decreases es, 0
  {
    if es != [] {
      EntryIgnores(es[0], l, v, env, w);
      EntriesIgnore(es[1..], l, v, env, w);
    }
  }

  /** The names of the one are bound in the other, and outside code with a value keeps having one. */
  ghost predicate HasValues(env: Env, w: World, env': Env, w': World) {
    env.Keys <= env'.Keys && forall t :: w(t).Some? ==> w'(t).Some?
  }

  lemma {:induction false} TotalHasValue(e: Term, env: Env, w: World, env': Env, w': World)
    requires Total(e) && HasValues(env, w, env', w') && Eval(e, env, w).Some?
    ensures Eval(e, env', w').Some?
    decreases e, 1
  {
    match e
    case Display(elts) => EltsHaveValues(elts, env, w, env', w');
    case Dict(entries) => EntriesHaveValues(entries, env, w, env', w');
    case Joined(parts) => AllHaveValues(parts, env, w, env', w');
    case Formatted(value, spec) => TotalHasValue(value, env, w, env', w'); AllHaveValues(spec, env, w, env', w');
    case BinOp(left, right) => TotalHasValue(left, env, w, env', w'); TotalHasValue(right, env, w, env', w');
    case _ =>
  }

  lemma {:induction false} AllHaveValues(es: seq<Term>, env: Env, w: World, env': Env, w': World)
    requires (forall i | 0 <= i < |es| :: Total(es[i])) && HasValues(env, w, env', w') && EvalAll(es, env, w).Some?
    ensures EvalAll(es, env', w').Some?
    decreases es, 0
  {
    if es != [] {
      TotalHasValue(es[0], env, w, env', w');
      AllHaveValues(es[1..], env, w, env', w');
    }
  }

  lemma {:induction false} EltsHaveValues(es: seq<Term>, env: Env, w: World, env': Env, w': World)
    requires !Spliced(es) && forall i | 0 <= i < |es| :: Total(es[i])
    requires HasValues(env, w, env', w') && EvalElts(es, env, w).Some?
    ensures EvalElts(es, env', w').Some?
    decreases es, 0
  {
    if es != [] {
      assert !es[0].Starred? && !Spliced(es[1..]);
      TotalHasValue(es[0], env, w, env', w');
      EltsHaveValues(es[1..], env, w, env', w');
    }
  }

  lemma {:induction false} EntriesHaveValues(es: seq<Entry>, env: Env, w: World, env': Env, w': World)
    requires !Merging(es) && forall i | 0 <= i < |es| :: Total(es[i].key.value) && Total(es[i].value)
    requires HasValues(env, w, env', w') && EvalDict(es, env, w).Some?
    ensures EvalDict(es, env', w').Some? && EvalDict(es, env', w').value.Table?
    decreases es, 0
  {
    if es != [] {
      FirstEntry(es, env, w);
      EntryHasValue(es[0], env, w, env', w');
      EntriesHaveValues(es[1..], env, w, env', w');
    }
  }

  lemma {:induction false} EntryHasValue(entry: Entry, env: Env, w: World, env': Env, w': World)
    requires entry.key.Some? && Total(entry.key.value) && Total(entry.value) && HasValues(env, w, env', w')
    requires Eval(entry.key.value, env, w).Some? && Eval(entry.value, env, w).Some?
    ensures EvalEntry(entry, env', w').Some? && EvalEntry(entry, env', w').value.Table?
    decreases entry, 2
  {
    match entry
    case Entry(Some(key), value) =>
      TotalHasValue(key, env, w, env', w');
      TotalHasValue(value, env, w, env', w');
  }

  /** `env'` binds what `env` binds with the leaf at `v`, up to the first `k` dependents, which agree with
      their bindings; the bindings of all other names have the values they had. */
  ghost predicate Settled(l: Term, v: Value, order: seq<string>, k: nat, consts: Consts, env: Env, w: World, env': Env)
    requires k <= |order|
  {
    && RestKept(order[..k], EnvWith(env, l, v), env')
    && (forall i | 0 <= i < k :: Holds(order[i], consts, env', WorldWith(w, l, v)))
    && OthersHold(order, consts, env, env', WorldWith(w, l, v))
  }

  ghost predicate RestKept(but: seq<string>, env: Env, env': Env) {
    env'.Keys == env.Keys && forall n | n in env' && n !in but :: env'[n] == env[n]
  }

  ghost predicate Holds(n: string, consts: Consts, env: Env, w: World) {
    n in env && n in consts && Eval(consts[n], env, w) == Some(env[n])
  }

  ghost predicate OthersHold(order: seq<string>, consts: Consts, env: Env, env': Env, w': World) {
    forall m | m in consts && m !in order :: m in env && Eval(consts[m], env', w') == Some(env[m])
  }

  lemma SettlesNone(l: Term, v: Value, order: seq<string>, consts: Consts, env: Env, w: World)
    requires Consistent(env, consts, w) && Dependents(l, order, consts)
    ensures Settled(l, v, order, 0, consts, env, w, EnvWith(env, l, v))
  {
    forall m | m in consts && m !in order
      ensures m in env && Eval(consts[m], EnvWith(env, l, v), WorldWith(w, l, v)) == Some(env[m])
    {
      EvalIgnores(consts[m], l, v, env, w);
    }
  }

  lemma NameIgnored(e: Term, d: string, value: Value, env: Env, w: World)
    requires !Contains(e, Name(d))
    ensures Eval(e, env[d := value], w) == Eval(e, env, w)
  {
    EvalIgnores(e, Name(d), value, env, w);
  }

  lemma NextHasValue(l: Term, v: Value, order: seq<string>, k: nat, consts: Consts, env: Env, w: World, env': Env)
    requires Consistent(env, consts, w) && Dependents(l, order, consts) && k < |order|
    requires Settled(l, v, order, k, consts, env, w, env')
    ensures Eval(consts[order[k]], env', WorldWith(w, l, v)).Some?
  {
    TotalHasValue(consts[order[k]], env, w, env', WorldWith(w, l, v));
  }

  lemma SettledStay(l: Term, v: Value, order: seq<string>, k: nat, consts: Consts, env: Env, w: World, env': Env,
                    value: Value, i: nat)
    requires Dependents(l, order, consts) && i <= k < |order| && Settled(l, v, order, k, consts, env, w, env')
    requires Eval(consts[order[k]], env', WorldWith(w, l, v)) == Some(value)
    ensures Holds(order[i], consts, env'[order[k] := value], WorldWith(w, l, v))
  {
    NameIgnored(consts[order[i]], order[k], value, env', WorldWith(w, l, v));
    if i < k { assert Holds(order[i], consts, env', WorldWith(w, l, v)); }
  }

  lemma OthersStay(l: Term, order: seq<string>, k: nat, consts: Consts, env: Env, env': Env, value: Value, w': World)
    requires Dependents(l, order, consts) && k < |order| && OthersHold(order, consts, env, env', w')
    ensures OthersHold(order, consts, env, env'[order[k] := value], w')
  {
    forall m | m in consts && m !in order
      ensures m in env && Eval(consts[m], env'[order[k] := value], w') == Some(env[m])
    {
      NameIgnored(consts[m], order[k], value, env', w');
    }
  }

  lemma RestStays(order: seq<string>, k: nat, env: Env, env': Env, value: Value)
    requires k < |order| && order[k] in env && RestKept(order[..k], env, env')
    ensures RestKept(order[..k+1], env, env'[order[k] := value])
  {
    assert order[..k+1] == order[..k] + [order[k]];
  }

  lemma SettlesOneMore(l: Term, v: Value, order: seq<string>, k: nat, consts: Consts, env: Env, w: World, env': Env)
    returns (next: Env)
    requires Consistent(env, consts, w) && Dependents(l, order, consts) && k < |order|
    requires Settled(l, v, order, k, consts, env, w, env')
    ensures Settled(l, v, order, k + 1, consts, env, w, next)
  {
    var w', d := WorldWith(w, l, v), order[k];
    NextHasValue(l, v, order, k, consts, env, w, env');
    var value := Eval(consts[d], env', w').value;
    next := env'[d := value];
    RestStays(order, k, EnvWith(env, l, v), env', value);
    OthersStay(l, order, k, consts, env, env', value, w');
    forall i | 0 <= i < k + 1 ensures Holds(order[i], consts, next, w') {
      SettledStay(l, v, order, k, consts, env, w, env', value, i);
    }
  }

  lemma {:induction false} SettlesAll(l: Term, v: Value, order: seq<string>, k: nat, consts: Consts, env: Env, w: World)
    returns (env': Env)
    requires Consistent(env, consts, w) && Dependents(l, order, consts) && k <= |order|
    ensures Settled(l, v, order, k, consts, env, w, env')
    decreases k
  {
    if k == 0 {
      SettlesNone(l, v, order, consts, env, w);
      env' := EnvWith(env, l, v);
    } else {
      var before := SettlesAll(l, v, order, k - 1, consts, env, w);
      env' := SettlesOneMore(l, v, order, k - 1, consts, env, w, before);
    }
  }

  /** A leaf may take any value: the bindings that depend on it can follow. */
  lemma LeafMayChange(l: Term, v: Value, order: seq<string>, consts: Consts, env: Env, w: World) returns (env': Env)
    requires Consistent(env, consts, w) && Dependents(l, order, consts)
    ensures Consistent(env', consts, WorldWith(w, l, v)) && Eval(l, env', WorldWith(w, l, v)) == Some(v)
  {
    env' := SettlesAll(l, v, order, |order|, consts, env, w);
    assert order[..|order|] == order;
    forall m | m in consts ensures m in env' && Eval(consts[m], env', WorldWith(w, l, v)) == Some(env'[m]) {
      if m in order {
        var i :| 0 <= i < |order| && order[i] == m;
        assert Holds(order[i], consts, env', WorldWith(w, l, v));
      }
    }
  }

  ghost predicate LeavesMayChange(e: Term, consts: Consts) {
    forall l :: OpenLeaf(e, consts, {}, l) ==> exists order :: Dependents(l, order, consts)
  }

  /** Where the open leaves are names or outside code, and the bindings that depend on them can follow their
      values, an expression that evaluates has one value exactly when there are no open leaves. */
  lemma FixedExactly(e: Term, consts: Consts, env: Env, w: World)
    requires Consistent(env, consts, w) && Eval(e, env, w).Some? && LeavesMayChange(e, consts)
    ensures AlwaysSame(e, consts) <==> Fixed(e, consts, {})
  {
    if Fixed(e, consts, {}) {
      FixedIsSame(e, consts);
    } else {
      var l := LeafIfNotFixed(e, consts, {});
      var order :| Dependents(l, order, consts);
      var other := if Eval(l, env, w) == Some(Num(0)) then Num(1) else Num(0);
      var w' := WorldWith(w, l, other);
      var env' := LeafMayChange(l, other, order, consts, env, w);
      if Agree(e, env, w, env', w') { LeavesNeeded(e, consts, {}, env, w, env', w', l); }
    }
  }

  lemma {:induction false} AllAgree(es: seq<Term>, env: Env, w: World, env': Env, w': World)
    requires forall i | 0 <= i < |es| :: Agree(es[i], env, w, env', w')
    ensures EvalAll(es, env, w) == EvalAll(es, env', w')
    decreases es
  {
    if es != [] { assert Agree(es[0], env, w, env', w'); AllAgree(es[1..], env, w, env', w'); }
  }

  lemma {:induction false} EltsAgree(es: seq<Term>, env: Env, w: World, env': Env, w': World)
    requires !Spliced(es) && forall i | 0 <= i < |es| :: Agree(es[i], env, w, env', w')
    ensures EvalElts(es, env, w) == EvalElts(es, env', w')
    decreases es
  {
    if es != [] {
      assert !es[0].Starred? && !Spliced(es[1..]) && Agree(es[0], env, w, env', w');
      EltsAgree(es[1..], env, w, env', w');
      assert EvalElt(es[0], env, w) == EvalElt(es[0], env', w');
    }
  }

  lemma {:induction false} EntriesAgree(es: seq<Entry>, env: Env, w: World, env': Env, w': World)
    requires forall i | 0 <= i < |es| :: es[i].key.Some? && Agree(es[i].key.value, env, w, env', w') && Agree(es[i].value, env, w, env', w')
    ensures EvalDict(es, env, w) == EvalDict(es, env', w')
    decreases es
  {
    if es != [] {
      assert Agree(es[0].key.value, env, w, env', w') && Agree(es[0].value, env, w, env', w');
      EntriesAgree(es[1..], env, w, env', w');
      assert EvalEntry(es[0], env, w) == EvalEntry(es[0], env', w');
    }
  }

  // ----- what the auditor accepts -----

  /** Every format specification reached, names followed, is fixed. */
  predicate SpecsFixed(e: Term, consts: Consts, seen: set<string>)
    decreases consts.Keys - seen, e, 0
  {
    match e
    case Name(id) => id !in seen && id in consts ==> SpecsFixed(consts[id], consts, seen + {id})
    case Display(elts) => forall i | 0 <= i < |elts| :: SpecsFixed(elts[i], consts, seen)
    case Dict(entries) =>
      forall i | 0 <= i < |entries| ::
        (entries[i].key.Some? ==> SpecsFixed(entries[i].key.value, consts, seen)) && SpecsFixed(entries[i].value, consts, seen)
    case Joined(parts) => forall i | 0 <= i < |parts| :: SpecsFixed(parts[i], consts, seen)
    case Formatted(value, spec) =>
      SpecsFixed(value, consts, seen) && forall i | 0 <= i < |spec| :: Fixed(spec[i], consts, seen)
    case BinOp(left, right) => SpecsFixed(left, consts, seen) && SpecsFixed(right, consts, seen)
    case _ => true
  }

  /** What the auditor accepts is fixed exactly when every format specification it passes over is. */
  lemma {:induction false} LiteralIsFixedBarSpecs(e: Term, consts: Consts, seen: set<string>)
    requires FullyLiteral(e, consts, seen)
    ensures Fixed(e, consts, seen) <==> SpecsFixed(e, consts, seen)
    decreases consts.Keys - seen, e
  {
    match e
    case Const(_) =>
    case Name(id) => LiteralIsFixedBarSpecs(consts[id], consts, seen + {id});
    case Display(elts) =>
      forall i | 0 <= i < |elts| ensures Fixed(elts[i], consts, seen) <==> SpecsFixed(elts[i], consts, seen) {
        LiteralIsFixedBarSpecs(elts[i], consts, seen);
      }
    case Dict(entries) =>
      forall i | 0 <= i < |entries|
        ensures Fixed(entries[i].key.value, consts, seen) <==> SpecsFixed(entries[i].key.value, consts, seen)
        ensures Fixed(entries[i].value, consts, seen) <==> SpecsFixed(entries[i].value, consts, seen)
      {
        LiteralIsFixedBarSpecs(entries[i].key.value, consts, seen);
        LiteralIsFixedBarSpecs(entries[i].value, consts, seen);
      }
    case Joined(parts) =>
      forall i | 0 <= i < |parts| ensures Fixed(parts[i], consts, seen) <==> SpecsFixed(parts[i], consts, seen) {
        LiteralIsFixedBarSpecs(if parts[i].Formatted? then parts[i].value else parts[i], consts, seen);
      }
    case BinOp(left, right) =>
      LiteralIsFixedBarSpecs(left, consts, seen);
      LiteralIsFixedBarSpecs(right, consts, seen);
  }

  /** Replacement fields stand in f-strings only, as Python has it. */
  predicate FieldsInStrings(e: Term)
    decreases e
  {
    match e
    case Display(elts) => forall i | 0 <= i < |elts| :: FieldsInStrings(elts[i])
    case Dict(entries) =>
      forall i | 0 <= i < |entries| ::
        (entries[i].key.Some? ==> FieldsInStrings(entries[i].key.value)) && FieldsInStrings(entries[i].value)
    case Joined(parts) =>
      forall i | 0 <= i < |parts| :: FieldsInStrings(if parts[i].Formatted? then parts[i].value else parts[i])
    case BinOp(left, right) => FieldsInStrings(left) && FieldsInStrings(right)
    case Formatted(_, _) => false
    case _ => true
  }

  predicate AllFieldsInStrings(consts: Consts) { forall n | n in consts :: FieldsInStrings(consts[n]) }

  /** What is fixed throughout is accepted. */
  lemma {:induction false} FixedIsLiteral(e: Term, consts: Consts, seen: set<string>)
    requires Fixed(e, consts, seen) && FieldsInStrings(e) && AllFieldsInStrings(consts)
    ensures FullyLiteral(e, consts, seen)
    decreases consts.Keys - seen, e
  {
    match e
    case Const(_) =>
    case Name(id) => FixedIsLiteral(consts[id], consts, seen + {id});
    case Display(elts) =>
      forall i | 0 <= i < |elts| ensures FullyLiteral(elts[i], consts, seen) { FixedIsLiteral(elts[i], consts, seen); }
    case Dict(entries) =>
      forall i | 0 <= i < |entries|
        ensures FullyLiteral(entries[i].key.value, consts, seen) && FullyLiteral(entries[i].value, consts, seen)
      {
        FixedIsLiteral(entries[i].key.value, consts, seen);
        FixedIsLiteral(entries[i].value, consts, seen);
      }
    case Joined(parts) =>
      forall i | 0 <= i < |parts|
        ensures FullyLiteral(if parts[i].Formatted? then parts[i].value else parts[i], consts, seen)
      {
        assert Fixed(parts[i], consts, seen);
        FixedIsLiteral(if parts[i].Formatted? then parts[i].value else parts[i], consts, seen);
      }
    case BinOp(left, right) => FixedIsLiteral(left, consts, seen); FixedIsLiteral(right, consts, seen);
  }

  /** Where all format specifications are fixed, exactly the expressions with one value are accepted, if what
      they end at may change. */
  lemma FullyLiteralExactly(e: Term, consts: Consts, env: Env, w: World)
    requires SpecsFixed(e, consts, {}) && FieldsInStrings(e) && AllFieldsInStrings(consts)
    requires Consistent(env, consts, w) && Eval(e, env, w).Some? && LeavesMayChange(e, consts)
    ensures FullyLiteral(e, consts, {}) <==> AlwaysSame(e, consts)
  {
    FixedExactly(e, consts, env, w);
    if FullyLiteral(e, consts, {}) { LiteralIsFixedBarSpecs(e, consts, {}); }
    if Fixed(e, consts, {}) { FixedIsLiteral(e, consts, {}); }
  }

  /** So for what the auditor accepts: one value in all environments, if the specifications it passes over
      are fixed; and only if, where they end at leaves that may change. */
  lemma FullyLiteralIsFixed(e: Term, consts: Consts, env: Env, w: World)
    requires FullyLiteral(e, consts, {})
    ensures SpecsFixed(e, consts, {}) ==> AlwaysSame(e, consts)
    ensures Consistent(env, consts, w) && Eval(e, env, w).Some? && LeavesMayChange(e, consts)
      ==> (AlwaysSame(e, consts) <==> SpecsFixed(e, consts, {}))
  {
    LiteralIsFixedBarSpecs(e, consts, {});
    if SpecsFixed(e, consts, {}) {
      FixedIsSame(e, consts);
    } else if Consistent(env, consts, w) && Eval(e, env, w).Some? && LeavesMayChange(e, consts) {
      FixedExactly(e, consts, env, w);
    }
  }

  /** `f"{BASE:{width}}"` */
  function Padded(): Term {
    Joined([Formatted(Const(Str("base")), [Name("width")])])
  }

  /** `compute_width()` */
  const COMPUTED := Call("compute_width", [])

  /** The bindings of the width shown below: none, a number, or the result of outside code. */
  predicate WidthBinding(consts: Consts) {
    consts == map[] || consts == map["width" := Const(Int(10))] || consts == map["width" := COMPUTED]
  }

  /** It passes for fixed although the width may be anything, if nothing binds it or it is bound once to
      the result of outside code; with the width bound once to a number it is fixed. */
  lemma FormatSpecIsOverlooked(consts: Consts)
    requires WidthBinding(consts)
    ensures FullyLiteral(Padded(), consts, {})
    ensures AlwaysSame(Padded(), consts) <==> "width" in consts && consts["width"] != COMPUTED
  {
    var w: World := (e: Term) => Some(Num(1));
    var env := map["width" := if "width" in consts && consts["width"] != COMPUTED then Num(10) else Num(1)];
    PaddedHasValue(env, w);
    PaddedReads(consts);
    forall l | OpenLeaf(Padded(), consts, {}, l) ensures exists order :: Dependents(l, order, consts) {
      PaddedLeaf(consts, l);
      var order := if "width" in consts then ["width"] else [];
      assert Dependents(l, order, consts);
    }
    FullyLiteralIsFixed(Padded(), consts, env, w);
  }

  lemma PaddedReads(consts: Consts)
    requires WidthBinding(consts)
    ensures FullyLiteral(Padded(), consts, {})
    ensures SpecsFixed(Padded(), consts, {}) <==> "width" in consts && consts["width"] != COMPUTED
  {
    var field := Padded().parts[0];
    assert "width" in consts ==> (Fixed(consts["width"], consts, {} + {"width"}) <==> consts["width"] != COMPUTED);
    assert Fixed(field.spec[0], consts, {}) <==> "width" in consts && consts["width"] != COMPUTED;
    assert SpecsFixed(field, consts, {}) <==> Fixed(field.spec[0], consts, {});
  }

  lemma PaddedLeaf(consts: Consts, l: Term)
    requires WidthBinding(consts) && OpenLeaf(Padded(), consts, {}, l)
    ensures if "width" in consts then consts["width"] == COMPUTED == l else l == Name("width")
  {
    var field := Padded().parts[0];
    assert OpenLeaf(field, consts, {}, l);
    assert OpenLeaf(field.spec[0], consts, {}, l);
    assert "width" in consts ==> OpenLeaf(consts["width"], consts, {} + {"width"}, l);
  }

  lemma PaddedHasValue(env: Env, w: World)
    requires "width" in env
    ensures Eval(Padded(), env, w).Some?
  {
    OnePart(Formatted(Const(Str("base")), [Name("width")]), env, w);
    OnePart(Name("width"), env, w);
  }

  lemma OnePart(e: Term, env: Env, w: World)
    ensures EvalAll([e], env, w) == match Eval(e, env, w) case Some(v) => Some([v]) case None => None
  {
    assert [e][1..] == [] && EvalAll([], env, w) == Some([]);
    if Eval(e, env, w).Some? {
      assert [Eval(e, env, w).value] + [] == [Eval(e, env, w).value];
    }
  }
}
