/** `_single_assignments`: which names are bound exactly once, and what they hold while a function runs. */
module SingleBindings {
  import opened Options
  import opened Terms
  import opened Nonempty

  datatype Target = Plain(id: string) | Pattern(names: seq<string>)

  /** A binding site: an assignment; a loop target, augmented assignment or `as` clause of a `with`, which
      may leave anything in its names; or one the tally does not look at: a parameter, a `:=`, an `except`
      clause's name, an import, a nested definition, a pattern of a `match`, a `del`. */
  datatype Site = Assign(targets: seq<Target>, value: Term) | Poison(names: seq<string>) | Unseen(names: seq<string>)

  function NameCount(names: seq<string>, n: string): nat {
    if names == [] then 0 else (if names[0] == n then 2 else 0) + NameCount(names[1..], n)
  }

  function TargetCount(ts: seq<Target>, n: string): nat {
    if ts == [] then 0
    else (match ts[0] case Plain(id) => if id == n then 1 else 0 case Pattern(names) => NameCount(names, n)) +
         TargetCount(ts[1..], n)
  }

  function SiteCount(site: Site, n: string): nat {
    match site case Assign(ts, _) => TargetCount(ts, n) case Poison(names) => NameCount(names, n) case Unseen(_) => 0
  }

  /** Once for each plain binding of the name, twice for any other. */
  function Bindings(sites: seq<Site>, n: string): nat {
    if sites == [] then 0 else SiteCount(sites[0], n) + Bindings(sites[1..], n)
  }

  predicate PlainIn(site: Site, n: string) {
    site.Assign? && Plain(n) in site.targets
  }

  /** `n` is bound once, as a whole, to `e`. */
  ghost predicate BoundOnceTo(sites: seq<Site>, n: string, e: Term) {
    Bindings(sites, n) == 1 && exists k :: 0 <= k < |sites| && PlainIn(sites[k], n) && sites[k].value == e
  }

  function Lookup(counts: map<string, nat>, n: string): nat {
    if n in counts then counts[n] else 0
  }

  /** Tallies for the sites seen so far: the counts, and the last plain value of each name. */
  ghost predicate Tallied(sites: seq<Site>, counts: map<string, nat>, values: Consts) {
    && (forall n :: Lookup(counts, n) == Bindings(sites, n))
    && (forall n :: n in values ==> exists k :: 0 <= k < |sites| && PlainIn(sites[k], n) && sites[k].value == values[n])
    && (forall n, k :: 0 <= k < |sites| && PlainIn(sites[k], n) ==> n in values)
  }

  method PoisonNames(names: seq<string>, counts0: map<string, nat>) returns (counts: map<string, nat>)
    ensures forall n :: Lookup(counts, n) == Lookup(counts0, n) + NameCount(names, n)
  {
    counts := counts0;
    for i := 0 to |names|
      invariant forall n :: Lookup(counts, n) + NameCount(names[i..], n) == Lookup(counts0, n) + NameCount(names, n)
    {
      assert names[i..][1..] == names[i+1..];
      counts := counts[names[i] := Lookup(counts, names[i]) + 2];
    }
  }

  lemma {:induction false} BindingsSnoc(sites: seq<Site>, k: nat, n: string)
    requires k < |sites|
    ensures Bindings(sites[..k+1], n) == Bindings(sites[..k], n) + SiteCount(sites[k], n)
  {
    assert sites[..k+1][0] == sites[0] && sites[..k+1][1..] == sites[1..][..k];
    if k > 0 {
      assert sites[..k][1..] == sites[1..][..k-1];
      BindingsSnoc(sites[1..], k - 1, n);
    }
  }

  lemma TallyGrows(sites: seq<Site>, k: nat, counts0: map<string, nat>, values0: Consts, counts: map<string, nat>, values: Consts)
    requires k < |sites| && Tallied(sites[..k], counts0, values0)
    requires forall n :: Lookup(counts, n) == Lookup(counts0, n) + SiteCount(sites[k], n)
    requires forall n :: n in values <==> n in values0 || PlainIn(sites[k], n)
    requires forall n :: n in values ==> values[n] == if PlainIn(sites[k], n) then sites[k].value else values0[n]
    ensures Tallied(sites[..k+1], counts, values)
  {
    var more := sites[..k+1];
    forall n ensures Lookup(counts, n) == Bindings(more, n) {
      BindingsSnoc(sites, k, n);
    }
    forall n | n in values
      ensures exists j :: 0 <= j < |more| && PlainIn(more[j], n) && more[j].value == values[n]
    {
      if PlainIn(sites[k], n) {
        assert more[k] == sites[k];
      } else {
        var j :| 0 <= j < k && PlainIn(sites[..k][j], n) && sites[..k][j].value == values0[n];
        assert more[j] == sites[..k][j];
      }
    }
    forall n, j | 0 <= j < |more| && PlainIn(more[j], n) ensures n in values {
      assert j < k ==> more[j] == sites[..k][j];
    }
  }

  lemma {:induction false} OddIsPlain(ts: seq<Target>, n: string)
    ensures TargetCount(ts, n) % 2 == 1 ==> Plain(n) in ts
  {
    if ts != [] {
      OddIsPlain(ts[1..], n);
      if ts[0].Pattern? { PatternIsEven(ts[0].names, n); }
    }
  }

  lemma {:induction false} PatternIsEven(names: seq<string>, n: string)
    ensures NameCount(names, n) % 2 == 0
  {
    if names != [] { PatternIsEven(names[1..], n); }
  }

  lemma {:induction false} SingleIsPlain(sites: seq<Site>, n: string)
    requires Bindings(sites, n) == 1
    ensures exists k :: 0 <= k < |sites| && PlainIn(sites[k], n)
  {
    if SiteCount(sites[0], n) == 0 {
      SingleIsPlain(sites[1..], n);
      var k :| 0 <= k < |sites[1..]| && PlainIn(sites[1..][k], n);
      assert PlainIn(sites[k+1], n);
    } else if sites[0].Poison? {
      PatternIsEven(sites[0].names, n);
    } else {
      OddIsPlain(sites[0].targets, n);
      assert PlainIn(sites[0], n);
    }
  }

  /** The targets of one assignment. */
  method AssignTargets(ts: seq<Target>, value: Term, counts0: map<string, nat>, values0: Consts)
    returns (counts: map<string, nat>, values: Consts)
    ensures forall n :: Lookup(counts, n) == Lookup(counts0, n) + TargetCount(ts, n)
    ensures forall n :: n in values <==> n in values0 || Plain(n) in ts
    ensures forall n :: n in values ==> values[n] == if Plain(n) in ts then value else values0[n]
  {
    counts, values := counts0, values0;
    for j := 0 to |ts|
      invariant forall n :: Lookup(counts, n) + TargetCount(ts[j..], n) == Lookup(counts0, n) + TargetCount(ts, n)
      invariant forall n :: n in values <==> n in values0 || Plain(n) in ts[..j]
      invariant forall n :: n in values ==> values[n] == if Plain(n) in ts[..j] then value else values0[n]
    {
      assert ts[j..][1..] == ts[j+1..] && ts[..j+1] == ts[..j] + [ts[j]];
      match ts[j]
      case Plain(id) =>
        counts := counts[id := Lookup(counts, id) + 1];
        values := values[id := value];
      case Pattern(names) => counts := PoisonNames(names, counts);
    }
    assert ts[..|ts|] == ts;
  }

  method SingleAssignments(sites: seq<Site>) returns (consts: Consts)
    ensures Resolves(sites, consts)
  {
    var counts: map<string, nat>, values: Consts := map[], map[];
    for k := 0 to |sites|
      invariant Tallied(sites[..k], counts, values)
    {
      ghost var counts0, values0 := counts, values;
      match sites[k] {
        case Poison(names) => counts := PoisonNames(names, counts);
        case Assign(ts, value) => counts, values := AssignTargets(ts, value, counts, values);
        case Unseen(_) =>
      }
      TallyGrows(sites, k, counts0, values0, counts, values);
    }
    assert sites[..|sites|] == sites;
    consts := map n | n in values && Lookup(counts, n) == 1 :: values[n];
    forall n | Bindings(sites, n) == 1 ensures n in values {
      SingleIsPlain(sites, n);
    }
  }

  // ----- running the bindings, in any order and any number of times -----

  /** The value of a single assignment is the one its only site gives it. */
  lemma {:induction false} OnlySite(sites: seq<Site>, n: string, j: nat, k: nat)
    requires Bindings(sites, n) == 1 && j < |sites| && k < |sites|
    requires PlainIn(sites[j], n) && SiteCount(sites[k], n) > 0
    ensures j == k && SiteCount(sites[k], n) == 1
  {
    PlainCounts(sites[j].targets, n);
    if j == 0 {
      if k > 0 { CountsIn(sites[1..], n, k - 1); }
    } else {
      CountsIn(sites[1..], n, j - 1);
      if k > 0 { OnlySite(sites[1..], n, j - 1, k - 1); }
    }
  }

  lemma {:induction false} PlainCounts(ts: seq<Target>, n: string)
    requires Plain(n) in ts
    ensures TargetCount(ts, n) > 0
  {
    if ts[0] != Plain(n) { PlainCounts(ts[1..], n); }
  }

  lemma {:induction false} CountsIn(sites: seq<Site>, n: string, k: nat)
    requires k < |sites|
    ensures SiteCount(sites[k], n) <= Bindings(sites, n)
  {
    if k > 0 { CountsIn(sites[1..], n, k - 1); }
  }

  /** The names an execution of the site may change. */
  predicate Touches(site: Site, n: string) {
    SiteCount(site, n) > 0 || (site.Unseen? && n in site.names)
  }

  /** One execution of a site: plain targets get the value, other names anything; the rest stays. */
  ghost predicate Executes(site: Site, env: Env, env': Env) {
    && (forall n :: !Touches(site, n) ==> (n in env' <==> n in env) && (n in env ==> env'[n] == env[n]))
    && (site.Assign? ==> exists w :: AssignsFrom(site, env, env', w))
  }

  ghost predicate AssignsFrom(site: Site, env: Env, env': Env, w: World)
    requires site.Assign?
  {
    match Eval(site.value, env, w)
    case Some(v) => forall n :: SiteCount(site, n) == 1 && Plain(n) in site.targets ==> n in env' && env'[n] == v
    case None => env' == env
  }

  /** The names bound exactly once, with their values: what `SingleAssignments` computes. */
  ghost predicate Resolves(sites: seq<Site>, consts: Consts) {
    && (forall n :: n in consts <==> Bindings(sites, n) == 1)
    && (forall n :: n in consts ==> BoundOnceTo(sites, n, consts[n]))
  }

  lemma ResolvedSite(sites: seq<Site>, consts: Consts, n: string, k: nat)
    requires Resolves(sites, consts) && n in consts && k < |sites| && SiteCount(sites[k], n) > 0
    ensures PlainIn(sites[k], n) && SiteCount(sites[k], n) == 1 && sites[k].value == consts[n]
  {
    assert BoundOnceTo(sites, n, consts[n]);
    var j :| 0 <= j < |sites| && PlainIn(sites[j], n) && sites[j].value == consts[n];
    OnlySite(sites, n, j, k);
  }

  /** The site may leave anything in the name. */
  predicate Frees(site: Site, n: string) {
    !site.Assign? && Touches(site, n)
  }

  predicate Untouched(sites: seq<Site>, n: string) {
    forall k | 0 <= k < |sites| :: !Touches(sites[k], n)
  }

  /** What the function assigns to a name judged never empty, it assigns to it as a whole, and the value is
      judged never empty too. For the function's own single names this is so by itself. */
  ghost predicate AssignsJudged(sites: seq<Site>, table: Consts) {
    forall k | 0 <= k < |sites| && sites[k].Assign? :: SiteAssignsJudged(sites[k], table)
  }

  ghost predicate SiteAssignsJudged(site: Site, table: Consts)
    requires site.Assign?
  {
    forall n :: SiteCount(site, n) > 0 && Judged(table, n) ==>
      SiteCount(site, n) == 1 && PlainIn(site, n) && StaticNonempty(site.value, table, {}) && InFragment(site.value)
  }

  /** Nothing but assignments binds a name judged never empty. */
  ghost predicate NoneFreed(sites: seq<Site>, table: Consts) {
    forall k, n :: 0 <= k < |sites| && Judged(table, n) ==> !Frees(sites[k], n)
  }

  lemma NameKept(sites: seq<Site>, table: Consts, k: nat, env: Env, env': Env, n: string)
    requires AssignsJudged(sites, table) && NoneFreed(sites, table)
    requires k < |sites| && Executes(sites[k], env, env') && Kept(env, table)
    requires n in env' && Judged(table, n)
    ensures NonEmpty(env'[n])
  {
    var site := sites[k];
    assert !Frees(site, n);
    if Touches(site, n) {
      assert SiteAssignsJudged(site, table);
      var w :| AssignsFrom(site, env, env', w);
      if Eval(site.value, env, w).Some? { NonemptyWhereKept(site.value, table, env, w); }
    }
  }

  /** One execution of the site numbered `k`. */
  datatype Step = Step(k: nat, before: Env, after: Env)

  /** A run of a function's bindings: each step executes some site, on what the last one left. */
  ghost predicate BindingRun(sites: seq<Site>, start: Env, steps: seq<Step>)
    decreases steps
  {
    steps != [] ==>
      && steps[0].before == start && steps[0].k < |sites|
      && Executes(sites[steps[0].k], start, steps[0].after)
      && BindingRun(sites, steps[0].after, steps[1..])
  }

  function Final(start: Env, steps: seq<Step>): Env {
    if steps == [] then start else steps[|steps|-1].after
  }

  lemma {:induction false} RunKeeps(sites: seq<Site>, table: Consts, start: Env, steps: seq<Step>)
    requires AssignsJudged(sites, table) && NoneFreed(sites, table)
    requires Kept(start, table) && BindingRun(sites, start, steps)
    ensures Kept(Final(start, steps), table)
    decreases steps
  {
    if steps != [] {
      var next := steps[0].after;
      forall n | n in next && Judged(table, n) ensures NonEmpty(next[n]) {
        NameKept(sites, table, steps[0].k, start, next, n);
      }
      RunKeeps(sites, table, next, steps[1..]);
    }
  }

  /** A site that may leave anything in a name can empty it at once. */
  lemma FreedIsEmptied(sites: seq<Site>, table: Consts, k: nat, n: string) returns (steps: seq<Step>)
    requires k < |sites| && Frees(sites[k], n) && Judged(table, n)
    ensures BindingRun(sites, map[], steps) && !Kept(Final(map[], steps), table)
  {
    var after: Env := map[n := Items([])];
    steps := [Step(k, map[], after)];
    assert Executes(sites[k], map[], after);
    assert n in Final(map[], steps) && !NonEmpty(after[n]);
  }

  // ----- a function's bindings laid over the module's -----

  /** What `_loop_only` resolves names with: the function's single names over the module's. */
  function Merged(outer: Consts, own: Consts): Consts { outer + own }

  /** A function's environment when it starts: the module's names, but for those it binds itself. */
  ghost predicate StartsFrom(start: Env, globals: Env, sites: seq<Site>) {
    forall n :: n in start ==> Untouched(sites, n) && n in globals && start[n] == globals[n]
  }

  /** At every moment of every run of the function - its sites in any order, any number of times - the names
      judged never empty hold something, whatever the module's names held, so long as those the module's
      own table judges never empty did. */
  ghost predicate AlwaysKept(outer: Consts, sites: seq<Site>, table: Consts) {
    forall globals: Env, start, steps :: Kept(globals, outer) && StartsFrom(start, globals, sites) && BindingRun(sites, start, steps) ==>
      Kept(Final(start, steps), table)
  }

  /** A name judged never empty that the function does not bind is judged so by the module's table alone. */
  ghost predicate JudgedOutside(outer: Consts, sites: seq<Site>, table: Consts) {
    forall n :: Judged(table, n) && Untouched(sites, n) ==> Judged(outer, n)
  }

  lemma KeptFromOutside(outer: Consts, sites: seq<Site>, table: Consts)
    requires AssignsJudged(sites, table) && JudgedOutside(outer, sites, table) && NoneFreed(sites, table)
    ensures AlwaysKept(outer, sites, table)
  {
    forall globals: Env, start, steps | Kept(globals, outer) && StartsFrom(start, globals, sites) && BindingRun(sites, start, steps)
      ensures Kept(Final(start, steps), table)
    {
      assert Kept(start, table);
      RunKeeps(sites, table, start, steps);
    }
  }

  lemma KeptOnlyFromOutside(outer: Consts, sites: seq<Site>, table: Consts)
    requires AlwaysKept(outer, sites, table)
    ensures JudgedOutside(outer, sites, table) && NoneFreed(sites, table)
  {
    forall n | Judged(table, n) && Untouched(sites, n) ensures Judged(outer, n) {
      var globals: Env := map[n := Items([])];
      assert Kept(globals, outer) || Judged(outer, n);
      assert StartsFrom(globals, globals, sites) && BindingRun(sites, globals, []) && Final(globals, []) == globals;
    }
    forall k, n | 0 <= k < |sites| && Judged(table, n) ensures !Frees(sites[k], n) {
      if Frees(sites[k], n) {
        var steps := FreedIsEmptied(sites, table, k, n);
        var none: Env := map[];
        assert Kept(none, outer) && StartsFrom(none, none, sites);
      }
    }
  }

  /** With the merged table, names judged never empty hold something at every moment of every run exactly
      when those the function leaves alone are judged so by the module's table, and those it binds are bound
      by assignments only. */
  lemma MergedTableKept(outer: Consts, sites: seq<Site>, own: Consts)
    requires AssignsJudged(sites, Merged(outer, own))
    ensures AlwaysKept(outer, sites, Merged(outer, own)) <==>
      JudgedOutside(outer, sites, Merged(outer, own)) && NoneFreed(sites, Merged(outer, own))
  {
    var table := Merged(outer, own);
    if JudgedOutside(outer, sites, table) && NoneFreed(sites, table) { KeptFromOutside(outer, sites, table); }
    if AlwaysKept(outer, sites, table) { KeptOnlyFromOutside(outer, sites, table); }
  }

  /** No site the tally does not look at binds a name judged never empty. */
  ghost predicate NoneUnseen(sites: seq<Site>, consts: Consts) {
    forall k, n :: 0 <= k < |sites| && Judged(consts, n) && sites[k].Unseen? ==> n !in sites[k].names
  }

  /** For one scope by itself - single names start unbound - a name judged never empty holds something
      whenever it is bound, in every run, exactly when no site the tally overlooks binds one. */
  lemma NonemptyThroughout(sites: seq<Site>, consts: Consts)
    requires Resolves(sites, consts) && JudgedInFragment(consts)
    ensures AlwaysKept(map[], sites, consts) <==> NoneUnseen(sites, consts)
  {
    OwnAssigned(sites, consts, consts);
    assert Merged(map[], consts) == consts;
    MergedTableKept(map[], sites, consts);
    forall n | Judged(consts, n) ensures !Untouched(sites, n) { SingleTouched(sites, consts, n); }
    forall k, n | 0 <= k < |sites| && Judged(consts, n) && Frees(sites[k], n) ensures sites[k].Unseen? && n in sites[k].names {
      if sites[k].Poison? { ResolvedSite(sites, consts, n, k); }
    }
    assert forall k, n :: 0 <= k < |sites| && sites[k].Unseen? && n in sites[k].names ==> Frees(sites[k], n);
  }

  lemma SingleTouched(sites: seq<Site>, consts: Consts, n: string)
    requires Resolves(sites, consts) && n in consts
    ensures !Untouched(sites, n)
  {
    SingleIsPlain(sites, n);
    var k :| 0 <= k < |sites| && PlainIn(sites[k], n);
    PlainCounts(sites[k].targets, n);
    assert Touches(sites[k], n);
  }

  /** The names a function binds once are assigned what the merged table resolves them to. */
  lemma OwnAssigned(sites: seq<Site>, own: Consts, table: Consts)
    requires Resolves(sites, own) && JudgedInFragment(table)
    requires forall n | n in own :: n in table && table[n] == own[n]
    requires forall n | Judged(table, n) && n !in own :: Bindings(sites, n) == 0
    ensures AssignsJudged(sites, table)
  {
    forall k, n | 0 <= k < |sites| && sites[k].Assign? && SiteCount(sites[k], n) > 0 && Judged(table, n)
      ensures SiteCount(sites[k], n) == 1 && PlainIn(sites[k], n) && StaticNonempty(sites[k].value, table, {}) && InFragment(sites[k].value)
    {
      CountsIn(sites, n, k);
      ResolvedSite(sites, own, n, k);
      SeenOnlyRestricts(table[n], table, {} + {n}, {});
    }
    forall k | 0 <= k < |sites| && sites[k].Assign? ensures SiteAssignsJudged(sites[k], table) { }
  }

  /** `X = [1]` in the module, `X = []` twice in the function: the module's value still vouches for `X`. */
  lemma RebindingIsMissed() returns (after: Env)
    ensures var outer: Consts, site := map["X" := Display([Const(Int(1))])], Assign([Plain("X")], Display([]));
      && Resolves([site, site], map[]) && StaticNonempty(Name("X"), Merged(outer, map[]), {})
      && Executes(site, map[], after) && "X" in after && !NonEmpty(after["X"])
  {
    var outer: Consts, site := map["X" := Display([Const(Int(1))])], Assign([Plain("X")], Display([]));
    TwiceBound(site);
    assert StaticNonempty(outer["X"], Merged(outer, map[]), {} + {"X"});
    after := EmptyRun(site);
  }

  lemma EmptyRun(site: Site) returns (after: Env)
    requires site == Assign([Plain("X")], Display([]))
    ensures Executes(site, map[], after) && "X" in after && !NonEmpty(after["X"])
  {
    var w: World := (e: Term) => None;
    after := map["X" := Items([])];
    assert Eval(site.value, map[], w) == Some(Items([]));
    assert AssignsFrom(site, map[], after, w);
    forall n | SiteCount(site, n) == 0 ensures n != "X" { PlainCounts(site.targets, "X"); }
  }

  lemma TwiceBound(site: Site)
    requires site == Assign([Plain("X")], Display([]))
    ensures Resolves([site, site], map[])
  {
    assert [site, site][1..] == [site] && [site][1..] == [];
    assert forall n :: TargetCount(site.targets, n) == if n == "X" then 1 else 0 by {
      assert site.targets[1..] == [];
    }
    forall n ensures Bindings([site, site], n) != 1 {
      assert Bindings([site, site], n) == SiteCount(site, n) + (SiteCount(site, n) + Bindings([], n));
    }
  }

  /** `Y = []`, `X = Y` in the module and `Y = [1]` in the function: the function's `Y` vouches for the
      module's `X`, which is empty. */
  lemma ShadowedNameVouches()
    ensures var outer: Consts, own: Consts := map["X" := Name("Y"), "Y" := Display([])], map["Y" := Display([Const(Int(1))])];
      var globals: Env := map["X" := Items([]), "Y" := Items([])];
      && Kept(globals, outer) && StaticNonempty(Name("X"), Merged(outer, own), {}) && !NonEmpty(globals["X"])
  {
    var outer: Consts, own: Consts := map["X" := Name("Y"), "Y" := Display([])], map["Y" := Display([Const(Int(1))])];
    assert !StaticNonempty(Display([]), outer, {} + {"Y"}) && !StaticNonempty(Display([]), outer, {} + {"X"} + {"Y"});
    assert !StaticNonempty(Name("Y"), outer, {} + {"X"});
    var table := Merged(outer, own);
    assert StaticNonempty(table["Y"], table, {} + {"X"} + {"Y"});
    assert StaticNonempty(Name("Y"), table, {} + {"X"});
  }
}
