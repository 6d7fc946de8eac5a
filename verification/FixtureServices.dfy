/** `_fixture_services`: which external services each fixture substitutes, its own patches and those
    of every fixture it requests, directly or not. The graph may be cyclic and name fixtures that are
    not there. */
module FixtureServices {

  datatype Fixture = Fixture(name: string, direct: set<string>, requests: seq<string>)

  type Services = map<string, set<string>>
  type Requests = map<string, seq<string>>

  /** A later function of the same name replaces an earlier one. */
  function DirectOf(fns: seq<Fixture>): Services {
    if fns == [] then map[] else var n := |fns| - 1; DirectOf(fns[..n])[fns[n].name := fns[n].direct]
  }

  function RequestsOf(fns: seq<Fixture>): Requests {
    if fns == [] then map[] else var n := |fns| - 1; RequestsOf(fns[..n])[fns[n].name := fns[n].requests]
  }

  /** The names in the order in which they first appear. */
  function Order(fns: seq<Fixture>): (names: seq<string>)
    ensures forall n :: n in names <==> n in DirectOf(fns)
    ensures forall n :: n in names <==> n in RequestsOf(fns)
    ensures |names| <= |fns|
    ensures forall i, j | 0 <= i < j < |names| :: names[i] != names[j]
  {
    if fns == [] then []
    else
      var n := |fns| - 1;
      var before := Order(fns[..n]);
      if fns[n].name in before then before else before + [fns[n].name]
  }

  /** The last function of a name is the one that counts. */
  lemma {:induction false} LastOfName(fns: seq<Fixture>, i: nat)
    requires i < |fns| && forall j | i < j < |fns| :: fns[j].name != fns[i].name
    ensures fns[i].name in DirectOf(fns) && DirectOf(fns)[fns[i].name] == fns[i].direct
    ensures fns[i].name in RequestsOf(fns) && RequestsOf(fns)[fns[i].name] == fns[i].requests
  {
    var n := |fns| - 1;
    if i < n {
      forall j | i < j < n ensures fns[..n][j].name != fns[i].name { assert fns[..n][j] == fns[j]; }
      LastOfName(fns[..n], i);
    }
  }

  lemma {:induction false} KnownNames(fns: seq<Fixture>, name: string)
    ensures name in DirectOf(fns) <==> exists i :: 0 <= i < |fns| && fns[i].name == name
    ensures name in RequestsOf(fns) <==> exists i :: 0 <= i < |fns| && fns[i].name == name
  {
    if fns != [] {
      var n := |fns| - 1;
      KnownNames(fns[..n], name);
      if i :| 0 <= i < |fns| && fns[i].name == name {
        if i < n { assert fns[..n][i].name == name; }
      }
    }
  }

  // ----- the specification: reachability -----

  /** `b` is reached from `a` by following `k` requests through known fixtures. */
  ghost predicate Reaches(req: Requests, a: string, b: string, k: nat)
    decreases k
  {
    a in req && if k == 0 then a == b else exists m :: m in req[a] && Reaches(req, m, b, k - 1)
  }

  /** Some fixture reached from `name` patches `service` itself. */
  ghost predicate Substitutes(direct: Services, req: Requests, name: string, service: string) {
    exists b, k :: Reaches(req, name, b, k) && b in direct && service in direct[b]
  }

  // ----- one round -----

  /** What the known fixtures among `requested` substitute. */
  function Inherited(services: Services, requested: seq<string>): set<string> {
    if requested == [] then {}
    else (if requested[0] in services then services[requested[0]] else {}) + Inherited(services, requested[1..])
  }

  lemma {:induction false} InheritedExactly(services: Services, requested: seq<string>, s: string)
    ensures s in Inherited(services, requested) <==> exists r :: r in requested && r in services && s in services[r]
  {
    if requested != [] {
      InheritedExactly(services, requested[1..], s);
    }
  }

  /** No requester lacks the service that a fixture it requests has. */
  ghost predicate Closed(services: Services, req: Requests, s: string) {
    forall n, r :: n in services && n in req && r in req[n] && r in services && s in services[r] ==> s in services[n]
  }

  /** Requesters have everything the fixtures they request have. */
  ghost predicate ClosedUp(bound: Services, req: Requests) {
    forall n, r :: n in bound && n in req && r in req[n] && r in bound ==> bound[r] <= bound[n]
  }

  /** What every round keeps: between the direct patches and any bound that is closed. */
  ghost predicate Between(direct: Services, services: Services, bound: Services) {
    && services.Keys == direct.Keys == bound.Keys
    && forall n :: n in services ==> direct[n] <= services[n] <= bound[n]
  }

  /** From the one state to the other, fixtures only gain services. */
  ghost predicate Grows(before: Services, after: Services) {
    before.Keys == after.Keys && forall n :: n in before ==> before[n] <= after[n]
  }

  /** A service that was settled before has not moved. */
  ghost predicate SettledStay(before: Services, after: Services, req: Requests) {
    forall n, s :: n in before && n in after && s in after[n] && Closed(before, req, s) ==> s in before[n]
  }

  /** The fixtures in `names` have taken over what their requests had before. */
  ghost predicate TakenOver(before: Services, after: Services, req: Requests, names: seq<string>) {
    forall n, r :: n in names && n in req && n in after && r in req[n] && r in before ==> before[r] <= after[n]
  }

  /** The update of one fixture, from the current state. */
  function Visit(services: Services, req: Requests, name: string): Services
    requires name in services && name in req
  {
    services[name := services[name] + Inherited(services, req[name])]
  }

  lemma VisitKeeps(before: Services, services: Services, req: Requests, names: seq<string>, name: string)
    requires name in req && name in services && Grows(before, services)
    requires SettledStay(before, services, req) && TakenOver(before, services, req, names)
    ensures var after := Visit(services, req, name);
            Grows(before, after) && SettledStay(before, after, req) && TakenOver(before, after, req, names + [name])
  {
    var after := Visit(services, req, name);
    forall n, s | n in before && n in after && s in after[n] && Closed(before, req, s) ensures s in before[n] {
      InheritedExactly(services, req[name], s);
    }
    forall r | r in req[name] && r in before ensures before[r] <= after[name] {
      forall s | s in before[r] ensures s in after[name] {
        InheritedExactly(services, req[name], s);
      }
    }
  }

  lemma VisitStaysBetween(direct: Services, services: Services, bound: Services, req: Requests, name: string)
    requires name in req && name in services && Between(direct, services, bound) && ClosedUp(bound, req)
    ensures Between(direct, Visit(services, req, name), bound)
  {
    forall s | s in Inherited(services, req[name]) ensures s in bound[name] {
      InheritedExactly(services, req[name], s);
    }
  }

  /** One pass over all fixtures, each updated in place from the current state. */
  method Round(order: seq<string>, req: Requests, before: Services, ghost direct: Services, ghost bound: Services)
    returns (services: Services, changed: bool)
    requires before.Keys == req.Keys && forall n :: n in order <==> n in req
    requires Between(direct, before, bound) && ClosedUp(bound, req)
    ensures Between(direct, services, bound) && Grows(before, services)
    ensures SettledStay(before, services, req) && TakenOver(before, services, req, order)
    ensures !changed ==> services == before
  {
    services, changed := before, false;
    for i := 0 to |order|
      invariant Between(direct, services, bound) && Grows(before, services)
      invariant SettledStay(before, services, req) && TakenOver(before, services, req, order[..i])
      invariant !changed ==> services == before
    {
      var name := order[i];
      var inherited := Inherited(services, req[name]);
      VisitKeeps(before, services, req, order[..i], name);
      VisitStaysBetween(direct, services, bound, req, name);
      assert order[..i+1] == order[..i] + [name];
      if inherited - services[name] != {} {
        services := services[name := services[name] + inherited];
        changed := true;
      } else {
        assert services[name] + inherited == services[name];
        assert Visit(services, req, name) == services;
      }
    }
    assert order[..|order|] == order;
  }

  // ----- the rounds reach the fixpoint -----

  function Holders(services: Services, s: string): set<string> {
    set n | n in services && s in services[n]
  }

  /** A service not yet settled has spread to more fixtures than there were rounds. */
  ghost predicate Progress(services: Services, req: Requests, rounds: nat) {
    forall s :: Closed(services, req, s) || |Holders(services, s)| > rounds
  }

  lemma RoundProgresses(before: Services, after: Services, req: Requests, order: seq<string>, rounds: nat)
    requires before.Keys == req.Keys && (forall n :: n in order <==> n in req)
    requires Grows(before, after) && SettledStay(before, after, req) && TakenOver(before, after, req, order)
    requires Progress(before, req, rounds)
    ensures Progress(after, req, rounds + 1)
    ensures before == after ==> forall s :: Closed(after, req, s)
  {
    forall s ensures Closed(after, req, s) || |Holders(after, s)| > rounds + 1 {
      if !Closed(before, req, s) {
        var n, r :| n in before && n in req && r in req[n] && r in before && s in before[r] && s !in before[n];
        assert before[r] <= after[n];
        assert Holders(before, s) + {n} <= Holders(after, s);
        FewerMembers(Holders(before, s) + {n}, Holders(after, s));
      }
    }
  }

  lemma {:induction false} FewerMembers(a: set<string>, b: set<string>)
    requires a <= b
    ensures |a| <= |b|
  {
    if x :| x in a {
      FewerMembers(a - {x}, b - {x});
    }
  }

  lemma {:induction false} ClosedAlong(services: Services, direct: Services, req: Requests, n: string, b: string, k: nat, s: string)
    requires services.Keys == direct.Keys == req.Keys && (forall n :: n in direct ==> direct[n] <= services[n])
    requires Closed(services, req, s) && Reaches(req, n, b, k) && b in direct && s in direct[b]
    ensures s in services[n]
    decreases k
  {
    if k > 0 {
      var m :| m in req[n] && Reaches(req, m, b, k - 1);
      MustBeKnown(req, m, b, k - 1);
      ClosedAlong(services, direct, req, m, b, k - 1, s);
    }
  }

  lemma MustBeKnown(req: Requests, a: string, b: string, k: nat)
    requires Reaches(req, a, b, k)
    ensures a in req
  {
  }

  /** Every entry is substituted by the fixture it is listed for. */
  ghost predicate OnlySubstituted(bound: Services, direct: Services, req: Requests) {
    forall n, s :: n in bound && s in bound[n] ==> Substitutes(direct, req, n, s)
  }

  /** What is substituted, as a table: it is closed, and holds the direct patches. */
  lemma SubstitutedBound(direct: Services, req: Requests) returns (bound: Services)
    requires direct.Keys == req.Keys
    ensures ClosedUp(bound, req) && Between(direct, direct, bound) && OnlySubstituted(bound, direct, req)
  {
    bound := map n | n in direct :: set m, s | m in direct && s in direct[m] && Substitutes(direct, req, n, s) :: s;
    forall n, r, s | n in bound && r in req[n] && r in bound && s in bound[r] ensures s in bound[n] {
      var b, k: nat :| Reaches(req, r, b, k) && b in direct && s in direct[b];
      assert Reaches(req, n, b, k + 1);
      assert Substitutes(direct, req, n, s);
    }
    forall n, s | n in direct && s in direct[n] ensures s in bound[n] {
      assert Reaches(req, n, n, 0);
      assert Substitutes(direct, req, n, s);
    }
  }

  /** The rounds: at most one more than there are functions, fewer if one changes nothing. */
  method Settle(order: seq<string>, direct: Services, req: Requests, limit: nat, ghost bound: Services)
    returns (services: Services)
    requires direct.Keys == req.Keys && (forall n :: n in order <==> n in req) && |order| <= limit
    requires Between(direct, direct, bound) && ClosedUp(bound, req)
    ensures Between(direct, services, bound) && forall s :: Closed(services, req, s)
  {
    services := direct;
    FirstProgress(direct, req);
    for round := 0 to limit + 1
      invariant Between(direct, services, bound) && Progress(services, req, round)
    {
      var more, changed := Round(order, req, services, direct, bound);
      RoundProgresses(services, more, req, order, round);
      services := more;
      if !changed {
        return;
      }
    }
    forall s ensures Closed(services, req, s) {
      HoldersAreFew(services, order, s);
    }
  }

  /** However the graph is tied, each fixture ends with exactly the services patched by some fixture
      reached from it; fixtures that substitute nothing are left out. */
  method FixtureServices(fns: seq<Fixture>) returns (found: Services)
    ensures forall n, s :: n in found && s in found[n] <==>
                           n in DirectOf(fns) && Substitutes(DirectOf(fns), RequestsOf(fns), n, s)
    ensures forall n :: n in found ==> found[n] != {}
  {
    var direct, req, order := DirectOf(fns), RequestsOf(fns), Order(fns);
    SameNames(fns);
    ghost var bound := SubstitutedBound(direct, req);
    var services := Settle(order, direct, req, |fns|, bound);
    found := map n | n in services && services[n] != {} :: services[n];
    SettledExactly(services, direct, req, bound);
  }

  lemma SameNames(fns: seq<Fixture>)
    ensures DirectOf(fns).Keys == RequestsOf(fns).Keys && forall n :: n in Order(fns) <==> n in RequestsOf(fns)
  {
  }

  lemma SettledExactly(services: Services, direct: Services, req: Requests, bound: Services)
    requires direct.Keys == req.Keys && Between(direct, services, bound) && OnlySubstituted(bound, direct, req)
    requires forall s :: Closed(services, req, s)
    ensures forall n, s :: n in services ==> (s in services[n] <==> Substitutes(direct, req, n, s))
  {
    forall n, s | n in services && Substitutes(direct, req, n, s) ensures s in services[n] {
      var b, k: nat :| Reaches(req, n, b, k) && b in direct && s in direct[b];
      ClosedAlong(services, direct, req, n, b, k, s);
    }
  }

  lemma FirstProgress(services: Services, req: Requests)
    ensures Progress(services, req, 0)
  {
    forall s | !Closed(services, req, s) ensures |Holders(services, s)| > 0 {
      var n, r :| n in services && n in req && r in req[n] && r in services && s in services[r] && s !in services[n];
      assert r in Holders(services, s);
    }
  }

  lemma HoldersAreFew(services: Services, order: seq<string>, s: string)
    requires forall n :: n in order <==> n in services
    ensures |Holders(services, s)| <= |order|
  {
    var all := set n | n in order;
    assert Holders(services, s) <= all;
    FewerMembers(Holders(services, s), all);
    MembersOf(order);
  }

  lemma {:induction false} MembersOf(names: seq<string>)
    ensures |set n | n in names| <= |names|
  {
    if names != [] {
      MembersOf(names[1..]);
      assert (set n | n in names) == {names[0]} + set n | n in names[1..];
    }
  }
}
