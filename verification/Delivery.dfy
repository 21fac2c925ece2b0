/**
 What the gateway is told to serve after a successful run, plan by plan: which routes are there, and which
 cells each of them sends its requests to.
 */
module Delivery {
  import opened Basics
  import opened Overlay
  import opened Placements
  import opened PlacementCompiler
  import opened RoutePlans
  import opened CellController
  import opened RouterModel
  import opened Convergence
  import opened Safety
  import opened RouterController
  import opened Metadata

  function RouteKey(env: Env, name: string): Key {
    Key(env.router.gatewayNs, name)
  }

  /** A route of that name carries the router's labels. */
  predicate Routed(w: World, env: Env, name: string) {
    RouteKey(env, name) in w.routes && Labelled(w.routes[RouteKey(env, name)].labels, env.router)
  }

  // ----- any plan

  lemma SamePlan(run: Run, env: Env, i: nat, m: Materialized)
    requires Reconciled(run, env) && i < |AllPlans(run.routes, run.ps)|
    requires m in Mats(run.cells, AllPlans(run.routes, run.ps))
    requires m.plan.name == AllPlans(run.routes, run.ps)[i].name
    ensures m.plan == AllPlans(run.routes, run.ps)[i]
    ensures m.backends == Resolved(run.cells, m.plan.spec) && m.backends != []
  {
    var plans := AllPlans(run.routes, run.ps);
    var ms := Mats(run.cells, plans);
    var j :| 0 <= j < |ms| && ms[j] == m;
    var k := MatSource(run.cells, plans, j);
    PlansDistinct(run.routes, run.ps);
    assert k == i;
  }

  /** A plan has a route exactly when something it refers to resolves, and the route then says what the plan
      says, on the backends the plan is to have. */
  lemma PlanServed(run: Run, env: Env, i: nat)
    requires Reconciled(run, env) && i < |AllPlans(run.routes, run.ps)|
    ensures var plan := AllPlans(run.routes, run.ps)[i];
      && (Routed(run.now, env, plan.name) <==> !NothingResolves(run.cells, plan.spec))
      && (Routed(run.now, env, plan.name) ==>
            && Chosen(run.cells, plan.spec, Resolved(run.cells, plan.spec))
            && IsRouteOf(run.now.routes[RouteKey(env, plan.name)], env,
                         Materialized(plan, Resolved(run.cells, plan.spec))))
  {
    var plans := AllPlans(run.routes, run.ps);
    var plan := plans[i];
    var ms, k := Mats(run.cells, plans), RouteKey(env, plan.name);
    PlansDistinct(run.routes, run.ps);
    MatsDistinct(run.cells, plans);
    ExactRoutes(run.was, env, ms, k);
    ResolvedChosen(run.cells, plan.spec);
    if Routed(run.now, env, plan.name) {
      var m :| m in ms && m.plan.name == plan.name && IsRouteOf(run.now.routes[k], env, m);
      SamePlan(run, env, i, m);
    } else if Resolved(run.cells, plan.spec) != [] {
      MatExists(run.cells, plans, i);
    }
  }

  // ----- static routes

  /** The static route is there exactly when something it refers to resolves; it then has the specified
      hostnames, listeners and matches, and the backends it is to have. */
  lemma StaticRouteServed(run: Run, env: Env, i: nat)
    requires Reconciled(run, env) && i < |run.routes|
    ensures var spec, key := run.routes[i], RouteKey(env, run.routes[i].name);
      && (Routed(run.now, env, spec.name) <==> !NothingResolves(run.cells, spec))
      && (Routed(run.now, env, spec.name) ==>
            && run.now.routes[key].owner == Some(env.router.uid)
            && exists bs :: Chosen(run.cells, spec, bs) && SpecSays(run.now.routes[key].spec, env.router, spec, bs))
  {
    assert AllPlans(run.routes, run.ps)[i] == RoutePlan(run.routes[i].name, run.routes[i], None);
    PlanServed(run, env, i);
  }

  // ----- placements

  lemma {:induction false} PlanAmongPresent(outs: seq<Option<RoutePlan>>, k: nat) returns (i: nat)
    requires k < |outs| && outs[k].Some?
    ensures i < |Present(outs)| && Present(outs)[i] == outs[k].value
  {
    var n := |outs| - 1;
    if k < n {
      i := PlanAmongPresent(outs[..n], k);
    } else {
      i := |Present(outs[..n])|;
    }
  }

  lemma PlacementPlan(routes: seq<RouteSpec>, ps: seq<Placement>, k: nat) returns (i: nat)
    requires k < |ps| && PlannedAt(ps, k)
    ensures i < |AllPlans(routes, ps)|
    ensures AllPlans(routes, ps)[i] == RoutePlan(ps[k].name, CompiledSpec(ps[k]).value, Some(ps[k]))
  {
    OutcomeAt(ps, k);
    var j := PlanAmongPresent(Outcomes(ps), k);
    i := |routes| + j;
  }

  predicate SomeResolves(cells: map<string, Cell>, refs: seq<BackendRef>) {
    exists i :: 0 <= i < |refs| && Resolves(cells, refs[i].cellRef)
  }

  /** Without a fallback, the backends are the references that resolve; no cell has the empty name. */
  lemma NoFallback(cells: map<string, Cell>, s: RouteSpec)
    requires s.fallbackBackend.None? && "" !in cells
    ensures Resolved(cells, s) == ResolveAll(cells, [BackendRef(s.cellRef, s.weight)] + s.additionalBackends)
  {
    var primary := BackendRef(s.cellRef, s.weight);
    ResolveConcat(cells, [primary], s.additionalBackends);
    ResolveOne(cells, primary);
    if s.cellRef == "" {
      assert [] + s.additionalBackends == s.additionalBackends;
    }
  }

  /** The backends of a compiled placement are its destinations that resolve. */
  lemma DestinationsResolved(cells: map<string, Cell>, p: Placement)
    requires Compiles(p) && "" !in cells
    ensures Resolved(cells, CompiledSpec(p).value) == ResolveAll(cells, p.spec.destinations)
    ensures NothingResolves(cells, CompiledSpec(p).value) <==> !SomeResolves(cells, p.spec.destinations)
  {
    CompiledCarriesOver(p);
    NoFallback(cells, CompiledSpec(p).value);
    ResolvedChosen(cells, CompiledSpec(p).value);
    EmptyIffNone(cells, p.spec.destinations);
    assert NoneResolves(cells, p.spec.destinations) <==> !SomeResolves(cells, p.spec.destinations);
  }

  /** The backends are exactly the references that resolve, in order and with their weights. */
  ghost predicate Reaches(os: seq<BackendObject>, cells: map<string, Cell>, refs: seq<BackendRef>) {
    exists bs, idx :: PicksReady(cells, refs, bs, idx) && BackendsSay(os, bs)
  }

  ghost predicate Delivers(r: Route, env: Env, cells: map<string, Cell>, p: Placement)
    requires Compiles(p)
  {
    && Managed(r, env.router)
    && Reaches(r.spec.backends, cells, p.spec.destinations)
    && r.spec.hostnames == p.spec.hostnames
    && ParentsSay(r.spec.parents, env.router, p.spec.listenerNames)
    && |r.spec.matches| == 1 && r.spec.matches == BuildMatches(CompiledSpec(p).value)
    && (p.name != "" ==> PLACEMENT_NAME in r.labels && r.labels[PLACEMENT_NAME] == p.name)
  }

  lemma PlacementDelivered(r: Route, env: Env, cells: map<string, Cell>, p: Placement)
    requires Compiles(p) && "" !in cells
    requires var s := CompiledSpec(p).value;
      IsRouteOf(r, env, Materialized(RoutePlan(p.name, s, Some(p)), Resolved(cells, s)))
    ensures Delivers(r, env, cells, p)
  {
    DestinationsResolved(cells, p);
    CompiledCarriesOver(p);
    NeverCatchAll(p);
    var idx := ResolveIsSubsequence(cells, p.spec.destinations);
    assert BackendsSay(r.spec.backends, ResolveAll(cells, p.spec.destinations));
  }

  /** A planned placement has a route exactly when one of its destinations resolves; the route then has exactly
      the resolving destinations as backends, in order and with their weights, the placement's hostnames and
      listeners, the one match compiled from its selectors, and its name as a label. */
  lemma PlacementServed(run: Run, env: Env, k: nat)
    requires Reconciled(run, env) && k < |run.ps| && PlannedAt(run.ps, k) && "" !in run.cells
    ensures var p, key := run.ps[k], RouteKey(env, run.ps[k].name);
      && (Routed(run.now, env, p.name) <==> SomeResolves(run.cells, p.spec.destinations))
      && (Routed(run.now, env, p.name) ==> Delivers(run.now.routes[key], env, run.cells, p))
  {
    var p := run.ps[k];
    var i := PlacementPlan(run.routes, run.ps, k);
    PlanServed(run, env, i);
    DestinationsResolved(run.cells, p);
    if Routed(run.now, env, p.name) {
      PlacementDelivered(run.now.routes[RouteKey(env, p.name)], env, run.cells, p);
    }
  }

  /** One of the route's matches applies, all of them on regular expressions, or it has none. */
  ghost predicate Takes(r: Route, req: Request) {
    && (forall m :: m in r.spec.matches ==> m.path.Some? ==> m.path.value.kind.RegularExpression?)
    && RuleHolds(r.spec.matches, req)
  }

  ghost predicate Selects(p: Placement, req: Request) {
    PathHolds(p.spec.selectors, req) && forall s :: s in p.spec.selectors ==> SelectorHolds(s, req)
  }

  /** The request has no newline, and the meaning of the selectors is that of their compiled match. */
  predicate MeaningKept(p: Placement, req: Request) {
    RequestPlain(req) && HeadersApart(p.spec.selectors) && PathShape(p.spec.selectors)
  }

  lemma DeliveredTakes(r: Route, env: Env, cells: map<string, Cell>, p: Placement, req: Request)
    requires Compiles(p) && MeaningKept(p, req) && Delivers(r, env, cells, p)
    ensures Takes(r, req) <==> Selects(p, req)
  {
    CompilationPreservesMeaning(p, req);
    assert r.spec.matches == BuildMatches(CompiledSpec(p).value);
  }

  /** From the selectors to the gateway: once one of its destinations resolves, a planned placement has a route,
      and that route takes a request exactly when all the selectors hold of it. */
  lemma PlacementTakesRequests(run: Run, env: Env, k: nat, req: Request)
    requires Reconciled(run, env) && k < |run.ps| && PlannedAt(run.ps, k) && "" !in run.cells
    requires SomeResolves(run.cells, run.ps[k].spec.destinations) && MeaningKept(run.ps[k], req)
    ensures Routed(run.now, env, run.ps[k].name)
    ensures Takes(run.now.routes[RouteKey(env, run.ps[k].name)], req) <==> Selects(run.ps[k], req)
  {
    PlacementServed(run, env, k);
    DeliveredTakes(run.now.routes[RouteKey(env, run.ps[k].name)], env, run.cells, run.ps[k], req);
  }

  /** A placement that overlaps another or does not compile has no route. */
  lemma UnplannedAbsent(run: Run, env: Env, k: nat)
    requires Reconciled(run, env) && k < |run.ps| && !PlannedAt(run.ps, k)
    ensures !Routed(run.now, env, run.ps[k].name)
  {
    var plans := AllPlans(run.routes, run.ps);
    RunRoutesExact(run, env, RouteKey(env, run.ps[k].name));
    if Wanted(run.cells, plans, run.ps[k].name) {
      var i :| 0 <= i < |plans| && plans[i].name == run.ps[k].name;
      NoPlanNamed(run.routes, run.ps, k, i);
    }
  }

  lemma NoPlanNamed(routes: seq<RouteSpec>, ps: seq<Placement>, k: nat, i: nat)
    requires Distinct(AllNames(routes, ps)) && k < |ps| && !PlannedAt(ps, k) && i < |AllPlans(routes, ps)|
    ensures AllPlans(routes, ps)[i].name != ps[k].name
  {
    OutcomeAt(ps, k);
    OutcomesNamed(ps);
    NoneNamed(StaticPlans(routes), RouteNames(routes), Outcomes(ps), Names(ps), i, k);
  }
}
