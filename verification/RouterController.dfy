/**
 The CellRouter controller as it runs against a cluster: every API call may fail, and a failing call
 aborts the run where it stands.
 */
module RouterController {
  import opened Basics
  import opened Overlay
  import opened Placements
  import opened PlacementCompiler
  import opened RoutePlans
  import opened CellController
  import opened RouterModel
  import opened Convergence
  import opened Safety
  import opened Reports
  import Sorting

  /** What comes of an API call. `Lost` is a call that took effect although the caller sees an error. */
  datatype Reply = Done | Refused | Lost

  /** `b` continues the history `a` with states that all satisfy `inv`. */
  ghost predicate Extends(a: seq<World>, b: seq<World>, inv: World -> bool) {
    && |a| <= |b| && b[..|a|] == a
    && forall i :: |a| <= i < |b| ==> inv(b[i])
  }

  lemma ExtendsTrans(a: seq<World>, b: seq<World>, c: seq<World>, inv: World -> bool)
    requires Extends(a, b, inv) && Extends(b, c, inv)
    ensures Extends(a, c, inv)
  {
    assert c[..|a|] == c[..|b|][..|a|];
    forall i | |a| <= i < |c| ensures inv(c[i]) {
      if i < |b| {
        assert c[i] == c[..|b|][i];
      }
    }
  }

  /** While a run writes, objects under another controller stay as they were at its start. */
  ghost function Safe(env: Env, triples: set<Triple>, was: World): World -> bool {
    (w: World) => Good(w, env, triples) && ForeignKept(was, w, env.router)
  }

  /** While it cleans up, and so over the whole run, they stay or are deleted for their labels. */
  ghost function Tidy(env: Env, triples: set<Triple>, was: World): World -> bool {
    (w: World) => Good(w, env, triples) && ForeignSpared(was, w, env.router)
  }

  lemma ExtendsWeaker(a: seq<World>, b: seq<World>, env: Env, triples: set<Triple>, was: World)
    requires Extends(a, b, Safe(env, triples, was))
    ensures Extends(a, b, Tidy(env, triples, was))
  {
    forall i | |a| <= i < |b| ensures Tidy(env, triples, was)(b[i]) {
      assert Safe(env, triples, was)(b[i]);
      KeptIsSpared(was, b[i], env.router);
    }
  }

  /** During finalization objects of other owners stay as they were at the start. */
  ghost function SafeFinal(env: Env, triples: set<Triple>, was: World): World -> bool {
    (w: World) => Good(w, env, triples) && Untouched(was, w, env.router) && w.deleting
  }

  function WithGateway(w: World, router: RouterId): World {
    w.(gateways := w.gateways[GatewayKey(router) := Some(router.uid)])
  }

  /** The state from which the routes are reconciled: the finalizer and the gateway are in place. */
  function Prepared(w: World, router: RouterId): World {
    WithGateway(w.(finalizer := true), router)
  }

  /** The gateway has a namespace and no other controller. */
  predicate GatewayFree(w: World, router: RouterId) {
    router.gatewayNs != "" && !GatewayForeign(w, router, GatewayKey(router))
  }

  /** The names are distinct and no other controller holds an object to be written. */
  predicate Feasible(w: World, env: Env, cells: map<string, Cell>, routes: seq<RouteSpec>, ps: seq<Placement>) {
    Distinct(AllNames(routes, ps)) && PlansFree(w, env, cells, AllPlans(routes, ps))
  }

  /** A successful run over the routes: where it started and ended, what it read and what it reports. */
  datatype Run = Run(was: World, now: World, cells: map<string, Cell>, routes: seq<RouteSpec>, ps: seq<Placement>,
                     report: Report)

  ghost predicate Reconciled(run: Run, env: Env) {
    && Distinct(AllNames(run.routes, run.ps))
    && run.now == Settled(run.was, env, Mats(run.cells, AllPlans(run.routes, run.ps)))
    && Sound(run.now, env, run.cells, AllPlans(run.routes, run.ps))
    && Accurate(run.report, run.was, env, run.cells, run.routes, run.ps)
  }

  // ----- what a successful run leaves

  lemma PlansDistinct(routes: seq<RouteSpec>, ps: seq<Placement>)
    requires Distinct(AllNames(routes, ps))
    ensures DistinctPlanNames(AllPlans(routes, ps))
  {
    var plans := AllPlans(routes, ps);
    forall i, j | 0 <= i < j < |plans| ensures plans[i].name != plans[j].name {
      PlanNamesDistinct(routes, ps, i, j);
    }
  }

  /** The plan called `name` resolves to some backend. */
  predicate Wanted(cells: map<string, Cell>, plans: seq<RoutePlan>, name: string) {
    exists i :: 0 <= i < |plans| && plans[i].name == name && Resolved(cells, plans[i].spec) != []
  }

  lemma WantedRoutes(was: World, env: Env, cells: map<string, Cell>, plans: seq<RoutePlan>, k: Key)
    requires DistinctPlanNames(plans) && k.ns == env.router.gatewayNs
    ensures var r := Settled(was, env, Mats(cells, plans)).routes;
      k in r && Labelled(r[k].labels, env.router) <==> Wanted(cells, plans, k.name)
  {
    MatsDistinct(cells, plans);
    ExactRoutes(was, env, Mats(cells, plans), k);
    ExpectedAreResolved(cells, plans, k.name);
  }

  /** The labelled routes of the gateway namespace are exactly the plans with a resolved backend. */
  lemma RunRoutesExact(run: Run, env: Env, k: Key)
    requires Reconciled(run, env) && k.ns == env.router.gatewayNs
    ensures k in run.now.routes && Labelled(run.now.routes[k].labels, env.router) <==>
            Wanted(run.cells, AllPlans(run.routes, run.ps), k.name)
  {
    PlansDistinct(run.routes, run.ps);
    WantedRoutes(run.was, env, run.cells, AllPlans(run.routes, run.ps), k);
  }

  lemma WantedGrants(was: World, env: Env, triples: set<Triple>, cells: map<string, Cell>, plans: seq<RoutePlan>,
                     k: Key)
    requires Good(was, env, triples) && NoCollision(env, triples) && InPlay(cells, plans, triples)
    ensures var g, ms := Settled(was, env, Mats(cells, plans)).grants, Mats(cells, plans);
      && (k in g && Labelled(g[k].labels, env.router) <==>
          exists t :: DesiredGrant(env, ms, t) && GrantKey(env, t) == k)
      && (k in g && Labelled(g[k].labels, env.router) ==> GrantFor(g[k], env, ms, k))
  {
    forall t | DesiredGrant(env, Mats(cells, plans), t) ensures t in triples {
      DesiredInPlay(env, cells, plans, triples, t);
    }
    ExactGrants(was, env, Mats(cells, plans), triples, k);
  }

  /** The labelled grants are exactly those of the backends the plans resolve to, and each permits exactly the
      gateway namespace to refer to exactly that backend's Service. */
  lemma RunGrantsExact(run: Run, env: Env, triples: set<Triple>, k: Key)
    requires Reconciled(run, env) && Good(run.was, env, triples) && NoCollision(env, triples)
    requires InPlay(run.cells, AllPlans(run.routes, run.ps), triples)
    ensures k in run.now.grants && Labelled(run.now.grants[k].labels, env.router) <==>
            exists t :: DesiredGrant(env, Mats(run.cells, AllPlans(run.routes, run.ps)), t) && GrantKey(env, t) == k
    ensures k in run.now.grants && Labelled(run.now.grants[k].labels, env.router) ==>
      GrantFor(run.now.grants[k], env, Mats(run.cells, AllPlans(run.routes, run.ps)), k)
  {
    WantedGrants(run.was, env, triples, run.cells, AllPlans(run.routes, run.ps), k);
  }

  lemma SettledTwice(was: World, env: Env, cells: map<string, Cell>, plans: seq<RoutePlan>)
    requires DistinctPlanNames(plans)
    ensures var w := Settled(was, env, Mats(cells, plans)); Settled(w, env, Mats(cells, plans)) == w
  {
    MatsDistinct(cells, plans);
    SettledIdempotent(was, env, Mats(cells, plans));
  }

  lemma PreparedAlready(was: World, env: Env, ms: seq<Materialized>)
    ensures var w := Settled(Prepared(was, env.router), env, ms); Prepared(w, env.router) == w
  {
  }

  /** A second successful run on the same specifications and cells changes nothing at all. */
  lemma SecondRunChangesNothing(was: World, first: Run, second: Run, env: Env)
    requires Reconciled(first, env) && Reconciled(second, env) && first.was == Prepared(was, env.router)
    requires second.was == Prepared(first.now, env.router)
    requires second.cells == first.cells && second.routes == first.routes && second.ps == first.ps
    ensures second.now == first.now
  {
    var plans := AllPlans(first.routes, first.ps);
    PlansDistinct(first.routes, first.ps);
    PreparedAlready(was, env, Mats(first.cells, plans));
    SettledTwice(first.was, env, first.cells, plans);
  }

  lemma OwnRoutesGone(w: World, w': World, env: Env, triples: set<Triple>)
    requires Covered(w, env, triples)
    requires w' == DropRoutes(w, set k | k in w.routes && k.ns == env.router.gatewayNs &&
                                         Managed(w.routes[k], env.router))
    ensures forall k :: k in w'.routes ==> !Managed(w'.routes[k], env.router)
  {
    forall k | k in w'.routes ensures !Managed(w'.routes[k], env.router) {
      if Managed(w.routes[k], env.router) {
        CoveredLocal(w, env, triples, k);
      }
    }
  }

  lemma CoveredLocal(w: World, env: Env, triples: set<Triple>, k: Key)
    requires Covered(w, env, triples) && k in w.routes && Managed(w.routes[k], env.router)
    ensures k.ns == env.router.gatewayNs
  {
    assert RouteCovered(w, env, triples, k, w.routes[k]);
  }

  class Cluster {
    var world: World
    var cells: map<string, Cell>
    /** What comes of the next API calls; once used up, calls succeed. */
    var replies: seq<Reply>
    /** Every state the cluster has been in. */
    ghost var trace: seq<World>

    ghost predicate Valid()
      reads this
    {
      trace != [] && trace[|trace| - 1] == world
    }

    constructor (world: World, cells: map<string, Cell>)
      ensures Valid() && this.world == world && this.cells == cells && trace == [world] && replies == []
    {
      this.world, this.cells, this.replies, this.trace := world, cells, [], [world];
    }

    /** A call that changes none of the objects modelled. */
    method Call() returns (ok: bool)
      modifies this`replies
      ensures ok <==> old(replies) == [] || old(replies)[0].Done?
      ensures replies == if old(replies) == [] then [] else old(replies)[1..]
    {
      ok := replies == [] || replies[0].Done?;
      replies := if replies == [] then [] else replies[1..];
    }

    /** A call that writes or deletes one object. */
    method Commit(next: World, ghost inv: World -> bool) returns (ok: bool)
      requires Valid() && inv(world) && inv(next)
      modifies this`world, this`replies, this`trace
      ensures Valid() && Extends(old(trace), trace, inv) && inv(world)
      ensures world == next || (!ok && world == old(world))
      ensures old(replies) == [] ==> ok && replies == []
    {
      var reply := if replies == [] then Done else replies[0];
      replies := if replies == [] then [] else replies[1..];
      if !reply.Refused? {
        world := next;
      }
      trace := trace + [world];
      ok := reply.Done?;
    }

    /** `CreateOrUpdate`: read, refuse an object controlled by another owner, write what differs. */
    method CreateOrUpdate(next: World, foreign: bool, ghost inv: World -> bool) returns (ok: bool)
      requires Valid() && inv(world) && (!foreign ==> inv(next))
      modifies this`world, this`replies, this`trace
      ensures Valid() && Extends(old(trace), trace, inv) && inv(world)
      ensures world == next || (!ok && world == old(world))
      ensures foreign ==> !ok && world == old(world)
      ensures old(replies) == [] ==> replies == [] && (ok <==> !foreign)
    {
      ok := Call();
      if !ok || foreign {
        ok := false;
        return;
      }
      if next != world {
        ok := Commit(next, inv);
      }
    }

    // ----- deletions

    method DeleteRoutes(doomed: set<Key>, ghost inv: World -> bool) returns (ok: bool)
      requires Valid() && forall s :: s <= doomed ==> inv(DropRoutes(world, s))
      modifies this`world, this`replies, this`trace
      ensures Valid() && Extends(old(trace), trace, inv) && inv(world)
      ensures ok ==> world == DropRoutes(old(world), doomed)
      ensures old(replies) == [] ==> ok && replies == []
    {
      var rest := doomed;
      ok := true;
      assert world == DropRoutes(old(world), doomed - rest);
      while rest != {}
        invariant rest <= doomed && ok
        invariant Valid() && Extends(old(trace), trace, inv)
        invariant world == DropRoutes(old(world), doomed - rest)
        invariant old(replies) == [] ==> replies == []
      {
        var k :| k in rest;
        ghost var before := trace;
        var next := DropRoutes(world, {k});
        assert next == DropRoutes(old(world), doomed - (rest - {k}));
        ok := Commit(next, inv);
        ExtendsTrans(old(trace), before, trace, inv);
        if !ok {
          return;
        }
        rest := rest - {k};
      }
      assert doomed - rest == doomed;
    }

    method DeleteGrants(doomed: set<Key>, ghost inv: World -> bool) returns (ok: bool)
      requires Valid() && forall s :: s <= doomed ==> inv(DropGrants(world, s))
      modifies this`world, this`replies, this`trace
      ensures Valid() && Extends(old(trace), trace, inv) && inv(world)
      ensures ok ==> world == DropGrants(old(world), doomed)
      ensures old(replies) == [] ==> ok && replies == []
    {
      var rest := doomed;
      ok := true;
      assert world == DropGrants(old(world), doomed - rest);
      while rest != {}
        invariant rest <= doomed && ok
        invariant Valid() && Extends(old(trace), trace, inv)
        invariant world == DropGrants(old(world), doomed - rest)
        invariant old(replies) == [] ==> replies == []
      {
        var k :| k in rest;
        ghost var before := trace;
        var next := DropGrants(world, {k});
        assert next == DropGrants(old(world), doomed - (rest - {k}));
        ok := Commit(next, inv);
        ExtendsTrans(old(trace), before, trace, inv);
        if !ok {
          return;
        }
        rest := rest - {k};
      }
      assert doomed - rest == doomed;
    }

    /** `cleanupStaleRoutes`. */
    method CleanupStaleRoutes(env: Env, expected: set<string>, ghost triples: set<Triple>, ghost was: World)
      returns (ok: bool)
      requires Valid() && Tidy(env, triples, was)(world)
      modifies this`world, this`replies, this`trace
      ensures Valid() && Extends(old(trace), trace, Tidy(env, triples, was)) && Tidy(env, triples, was)(world)
      ensures ok ==> world == DropStaleRoutes(old(world), env, expected)
      ensures old(replies) == [] ==> ok && replies == []
    {
      ok := Call();
      if !ok {
        return;
      }
      var stale := set k | k in world.routes && StaleRoute(k, world.routes[k], env.router, expected);
      forall s | s <= stale ensures Tidy(env, triples, was)(DropRoutes(world, s)) {
        DropRoutesKeeps(world, env, triples, s);
        DropLabelledRoutes(was, world, env.router, s);
      }
      ok := DeleteRoutes(stale, Tidy(env, triples, was));
    }

    /** `cleanupStaleReferenceGrants`: safe once managed routes need only the expected grants. */
    method CleanupStaleGrants(env: Env, expected: set<string>, ghost triples: set<Triple>, ghost was: World)
      returns (ok: bool)
      requires Valid() && Tidy(env, triples, was)(world) && NeedsOnly(world, env, expected)
      modifies this`world, this`replies, this`trace
      ensures Valid() && Extends(old(trace), trace, Tidy(env, triples, was)) && Tidy(env, triples, was)(world)
      ensures ok ==> world == DropStaleGrants(old(world), env, expected)
      ensures old(replies) == [] ==> ok && replies == []
    {
      ok := Call();
      if !ok {
        return;
      }
      var stale := set k | k in world.grants && StaleGrant(k, world.grants[k], env.router, expected);
      forall s | s <= stale ensures Tidy(env, triples, was)(DropGrants(world, s)) {
        DropGrantsKeeps(world, env, triples, s, expected);
        DropLabelledGrants(was, world, env.router, s);
      }
      ok := DeleteGrants(stale, Tidy(env, triples, was));
    }

    // ----- backends

    /** `resolveBackendCandidates`: a missing or unready cell is skipped, a failing read aborts. */
    method ResolveCandidates(refs: seq<BackendRef>) returns (ok: bool, backends: seq<BackendTarget>)
      modifies this`replies
      ensures ok ==> backends == ResolveAll(cells, refs)
      ensures old(replies) == [] ==> ok && replies == []
    {
      backends := [];
      for i := 0 to |refs|
        invariant backends == ResolveAll(cells, refs[..i])
        invariant old(replies) == [] ==> replies == []
      {
        assert refs[..i + 1][..i] == refs[..i];
        ok := Call();
        if !ok {
          return;
        }
        var found := ResolveRef(cells, refs[i]);
        if found.Some? {
          backends := backends + [found.value];
        }
      }
      assert refs[..|refs|] == refs;
      ok := true;
    }

    /** `resolveRouteBackends`. */
    method ResolveRouteBackends(spec: RouteSpec) returns (ok: bool, backends: seq<BackendTarget>)
      modifies this`replies
      ensures ok ==> backends == Resolved(cells, spec)
      ensures ok ==> if backends == [] then NothingResolves(cells, spec) else Chosen(cells, spec, backends)
      ensures old(replies) == [] ==> ok && replies == []
    {
      ResolvedChosen(cells, spec);
      ok, backends := ResolveCandidates(Candidates(spec));
      if ok && backends == [] && spec.fallbackBackend.Some? {
        ok, backends := ResolveCandidates([spec.fallbackBackend.value]);
      }
    }

    // ----- one plan

    /** `reconcileReferenceGrant`. */
    method ReconcileGrant(env: Env, route: string, b: BackendTarget, ghost triples: set<Triple>, ghost was: World)
      returns (ok: bool)
      requires Valid() && Safe(env, triples, was)(world) && world.finalizer
      requires NoCollision(env, triples) && GrantTriple(route, ObjectOf(b)) in triples
      modifies this`world, this`replies, this`trace
      ensures Valid() && Extends(old(trace), trace, Safe(env, triples, was)) && Safe(env, triples, was)(world)
      ensures ok ==> world == WithGrant(old(world), env, route, b)
      ensures old(replies) == [] ==>
        replies == [] && (ok <==> !GrantForeign(was, env.router, GrantWrite(env, route, b).key))
    {
      GrantKeeps(world, env, triples, route, b);
      SameForeign(was, world, env.router, GrantWrite(env, route, b).key);
      var foreign := GrantForeign(world, env.router, GrantWrite(env, route, b).key);
      if !foreign {
        GrantKeepsForeign(was, world, env, route, b);
      }
      ok := CreateOrUpdate(WithGrant(world, env, route, b), foreign, Safe(env, triples, was));
    }

    /** The grants of one plan, written before its route. */
    method ReconcileGrants(env: Env, route: string, bs: seq<BackendTarget>, ghost triples: set<Triple>,
                           ghost was: World) returns (ok: bool)
      requires Valid() && Safe(env, triples, was)(world) && world.finalizer && NoCollision(env, triples)
      requires forall b :: b in bs ==> GrantTriple(route, ObjectOf(b)) in triples
      modifies this`world, this`replies, this`trace
      ensures Valid() && Extends(old(trace), trace, Safe(env, triples, was)) && Safe(env, triples, was)(world)
      ensures ok ==> world == WithGrants(old(world), env, route, bs) && AllGranted(world, env, triples, route, bs)
      ensures old(replies) == [] ==> replies == [] && (ok <==> GrantsFree(was, env, route, bs))
    {
      ok := true;
      for i := 0 to |bs|
        invariant Valid() && Extends(old(trace), trace, Safe(env, triples, was)) && Safe(env, triples, was)(world)
        invariant ok && world == WithGrants(old(world), env, route, bs[..i])
        invariant old(replies) == [] ==> replies == [] && GrantsFree(was, env, route, bs[..i])
      {
        ghost var before := trace;
        GrantsFreeNext(was, env, route, bs, i);
        ok := ReconcileGrant(env, route, bs[i], triples, was);
        ExtendsTrans(old(trace), before, trace, Safe(env, triples, was));
        if !ok {
          return;
        }
        WithGrantsNext(old(world), env, route, bs, i);
      }
      assert bs[..|bs|] == bs;
      GrantsGranted(old(world), env, triples, route, bs);
    }

    /** The route of one plan, once all its backends are granted. */
    method ReconcileRoute(env: Env, m: Materialized, ghost triples: set<Triple>, ghost was: World) returns (ok: bool)
      requires Valid() && Safe(env, triples, was)(world) && world.finalizer
      requires AllGranted(world, env, triples, m.plan.name, m.backends)
      modifies this`world, this`replies, this`trace
      ensures Valid() && Extends(old(trace), trace, Safe(env, triples, was)) && Safe(env, triples, was)(world)
      ensures ok ==> world == WithRoute(old(world), env, m)
      ensures old(replies) == [] ==> replies == [] && (ok <==> !RouteForeign(was, env.router, RouteWrite(env, m).key))
    {
      RouteKeeps(world, env, triples, m);
      SameForeign(was, world, env.router, RouteWrite(env, m).key);
      var foreign := RouteForeign(world, env.router, RouteWrite(env, m).key);
      if !foreign {
        RouteKeepsForeign(was, world, env, m);
      }
      ok := CreateOrUpdate(WithRoute(world, env, m), foreign, Safe(env, triples, was));
    }

    /** The grants of one plan, then its route. */
    method WritePlan(env: Env, m: Materialized, ghost triples: set<Triple>, ghost was: World) returns (ok: bool)
      requires Valid() && Safe(env, triples, was)(world) && world.finalizer && NoCollision(env, triples)
      requires forall b :: b in m.backends ==> GrantTriple(m.plan.name, ObjectOf(b)) in triples
      modifies this`world, this`replies, this`trace
      ensures Valid() && Extends(old(trace), trace, Safe(env, triples, was)) && Safe(env, triples, was)(world)
      ensures ok ==> world == WithPlan(old(world), env, m)
      ensures old(replies) == [] ==> replies == [] && (ok <==> MatFree(was, env, m))
    {
      ok := ReconcileGrants(env, m.plan.name, m.backends, triples, was);
      if ok {
        ghost var before := trace;
        ok := ReconcileRoute(env, m, triples, was);
        ExtendsTrans(old(trace), before, trace, Safe(env, triples, was));
      }
    }

    /** What a pass of the plan loop does before it writes: resolve, and patch the placement's status. */
    method ResolvePlan(plan: RoutePlan) returns (ok: bool, backends: seq<BackendTarget>)
      modifies this`replies
      ensures ok ==> backends == Resolved(cells, plan.spec)
      ensures old(replies) == [] ==> ok && replies == []
    {
      ok, backends := ResolveRouteBackends(plan.spec);
      if ok && plan.placement.Some? {
        ok := Call();
      }
    }

    /** One pass of the plan loop of `reconcileRoutes`. */
    method ReconcilePlan(env: Env, plan: RoutePlan, ghost triples: set<Triple>, ghost was: World)
      returns (ok: bool, backends: seq<BackendTarget>, routeReady: bool)
      requires Valid() && Safe(env, triples, was)(world) && world.finalizer
      requires NoCollision(env, triples) && PlanInPlay(cells, plan, triples)
      modifies this`world, this`replies, this`trace
      ensures Valid() && Extends(old(trace), trace, Safe(env, triples, was)) && Safe(env, triples, was)(world)
      ensures ok ==> backends == Resolved(cells, plan.spec)
      ensures ok ==> world == WithBackends(old(world), env, plan, backends)
      ensures ok && backends != [] ==> routeReady == ReadyAt(old(world), env, plan.name)
      ensures old(replies) == [] ==> replies == [] && (ok <==> PlanFree(was, env, cells, plan))
    {
      routeReady := false;
      ok, backends := ResolvePlan(plan);
      if !ok || backends == [] {
        return;
      }
      ok, routeReady := WriteAndCheck(env, Materialized(plan, backends), triples, was);
    }

    method WriteAndCheck(env: Env, m: Materialized, ghost triples: set<Triple>, ghost was: World)
      returns (ok: bool, routeReady: bool)
      requires Valid() && Safe(env, triples, was)(world) && world.finalizer && NoCollision(env, triples)
      requires forall b :: b in m.backends ==> GrantTriple(m.plan.name, ObjectOf(b)) in triples
      modifies this`world, this`replies, this`trace
      ensures Valid() && Extends(old(trace), trace, Safe(env, triples, was)) && Safe(env, triples, was)(world)
      ensures ok ==> world == WithPlan(old(world), env, m) && routeReady == ReadyAt(old(world), env, m.plan.name)
      ensures old(replies) == [] ==> replies == [] && (ok <==> MatFree(was, env, m))
    {
      routeReady := false;
      ok := WritePlan(env, m, triples, was);
      if ok {
        PlanKeepsStatus(old(world), env, m, Key(env.router.gatewayNs, m.plan.name));
        routeReady := CheckRoute(env, m.plan.name);
      }
    }

    /** The readiness of a route just written, read off the stored object. */
    method CheckRoute(env: Env, name: string) returns (ready: bool)
      requires Key(env.router.gatewayNs, name) in world.routes
      ensures ready <==> ReadyAt(world, env, name)
    {
      var route := world.routes[Key(env.router.gatewayNs, name)];
      ready := IsRouteReady(route.status, env.router.gatewayName, env.router.gatewayNs);
    }

    /** One pass of the plan loop, with what the loop accumulates. */
    method CountPlan(env: Env, plans: seq<RoutePlan>, i: nat, before: Tally, ghost ready: bool, ghost start: World,
                     ghost triples: set<Triple>, ghost was: World) returns (ok: bool, tally: Tally)
      requires Valid() && Safe(env, triples, was)(world) && world.finalizer
      requires NoCollision(env, triples) && i < |plans| && PlanInPlay(cells, plans[i], triples)
      requires world == Written(start, env, Mats(cells, plans[..i]))
      requires Tallies(before, start, env, cells, plans[..i], ready)
      modifies this`world, this`replies, this`trace
      ensures Valid() && Extends(old(trace), trace, Safe(env, triples, was)) && Safe(env, triples, was)(world)
      ensures ok ==> world == Written(start, env, Mats(cells, plans[..i + 1])) && world.finalizer
      ensures ok ==> Tallies(tally, start, env, cells, plans[..i + 1], ready)
      ensures old(replies) == [] ==> replies == [] && (ok <==> PlanFree(was, env, cells, plans[i]))
    {
      var backends, routeReady;
      ok, backends, routeReady := ReconcilePlan(env, plans[i], triples, was);
      tally := before;
      if ok {
        MatsNext(cells, plans, i);
        WrittenAppend(start, env, Mats(cells, plans[..i]), plans[i], backends);
        StatusKept(start, env, Mats(cells, plans[..i]), Key(env.router.gatewayNs, plans[i].name));
        CountKeeps(before, start, env, cells, plans, i, ready, backends, routeReady);
        tally := Count(before, env, plans[i], backends, routeReady);
      }
    }

    /** The plan loop of `reconcileRoutes`. */
    method ReconcilePlans(env: Env, plans: seq<RoutePlan>, ready: bool, ghost triples: set<Triple>, ghost was: World)
      returns (ok: bool, tally: Tally)
      requires Valid() && Safe(env, triples, was)(world) && world.finalizer
      requires NoCollision(env, triples) && InPlay(cells, plans, triples)
      modifies this`world, this`replies, this`trace
      ensures Valid() && Extends(old(trace), trace, Safe(env, triples, was)) && Safe(env, triples, was)(world)
      ensures ok ==> world == Written(old(world), env, Mats(cells, plans))
      ensures ok ==> Tallies(tally, old(world), env, cells, plans, ready)
      ensures old(replies) == [] ==> replies == [] && (ok <==> PlansFree(was, env, cells, plans))
    {
      ok, tally := true, Tally({}, {}, ready, false, []);
      NothingTallied(tally, world, env, cells, ready);
      for i := 0 to |plans|
        invariant Valid() && Extends(old(trace), trace, Safe(env, triples, was)) && Safe(env, triples, was)(world)
        invariant ok && world == Written(old(world), env, Mats(cells, plans[..i])) && world.finalizer
        invariant Tallies(tally, old(world), env, cells, plans[..i], ready)
        invariant old(replies) == [] ==> replies == [] && PlansFree(was, env, cells, plans[..i])
      {
        ghost var before := trace;
        PlansFreeNext(was, env, cells, plans, i);
        ok, tally := CountPlan(env, plans, i, tally, ready, old(world), triples, was);
        ExtendsTrans(old(trace), before, trace, Safe(env, triples, was));
        if !ok {
          return;
        }
      }
      assert plans[..|plans|] == plans;
    }

    /** The loop over invalid placements: a status patch each, in an order the language leaves open. */
    method ReportInvalid(invalid: map<string, Reason>)
      returns (ok: bool, statuses: seq<RouteStatus>, ghost order: seq<string>)
      modifies this`replies
      ensures ok ==> Enumerates(order, invalid.Keys) && statuses == InvalidStatuses(order)
      ensures old(replies) == [] ==> ok && replies == []
    {
      ok, statuses, order := true, [], [];
      var rest := invalid.Keys;
      while rest != {}
        invariant ok && rest <= invalid.Keys && Enumerates(order, invalid.Keys - rest)
        invariant statuses == InvalidStatuses(order)
        invariant old(replies) == [] ==> replies == []
      {
        var name :| name in rest;
        ok := Call();
        if !ok {
          return;
        }
        statuses := statuses + [RouteStatus(name, [], "", [], name)];
        order := order + [name];
        rest := rest - {name};
      }
    }

    /** The two cleanups, routes before grants. */
    method Cleanup(env: Env, routes: set<string>, grants: set<string>, ghost w: World, ghost ms: seq<Materialized>,
                   ghost triples: set<Triple>, ghost was: World) returns (ok: bool)
      requires Valid() && Tidy(env, triples, was)(world) && world == Written(w, env, ms) && DistinctPlans(ms)
      requires routes == ExpectedRoutes(ms) && grants == ExpectedGrants(env, ms)
      modifies this`world, this`replies, this`trace
      ensures Valid() && Extends(old(trace), trace, Tidy(env, triples, was)) && Tidy(env, triples, was)(world)
      ensures ok ==> world == Settled(w, env, ms)
      ensures old(replies) == [] ==> ok && replies == []
    {
      ok := CleanupStaleRoutes(env, routes, triples, was);
      if !ok {
        return;
      }
      ghost var before := trace;
      ExpectedSuffice(w, env, triples, ms);
      ok := CleanupStaleGrants(env, grants, triples, was);
      ExtendsTrans(old(trace), before, trace, Tidy(env, triples, was));
    }

    /** The plan loop and the cleanups. */
    method ApplyPlans(env: Env, plans: seq<RoutePlan>, ready: bool, ghost triples: set<Triple>, ghost was: World)
      returns (ok: bool, tally: Tally)
      requires Valid() && Safe(env, triples, was)(world) && world.finalizer
      requires NoCollision(env, triples) && InPlay(cells, plans, triples) && DistinctPlanNames(plans)
      modifies this`world, this`replies, this`trace
      ensures Valid() && Extends(old(trace), trace, Tidy(env, triples, was)) && Tidy(env, triples, was)(world)
      ensures ok ==> world == Settled(old(world), env, Mats(cells, plans))
      ensures ok ==> Tallies(tally, old(world), env, cells, plans, ready)
      ensures old(replies) == [] ==> replies == [] && (ok <==> PlansFree(was, env, cells, plans))
    {
      ok, tally := ReconcilePlans(env, plans, ready, triples, was);
      ExtendsWeaker(old(trace), trace, env, triples, was);
      if ok {
        ghost var before := trace;
        MatsDistinct(cells, plans);
        ok := Cleanup(env, tally.routes, tally.grants, old(world), Mats(cells, plans), triples, was);
        ExtendsTrans(old(trace), before, trace, Tidy(env, triples, was));
      }
    }

    /** `reconcileRoutes` once the plans are built. */
    method ReconcilePlanned(env: Env, planned: Plans, ghost triples: set<Triple>, ghost was: World)
      returns (ok: bool, report: Report, ghost order: seq<string>)
      requires Valid() && Safe(env, triples, was)(world) && world.finalizer
      requires NoCollision(env, triples) && InPlay(cells, planned.plans, triples) && DistinctPlanNames(planned.plans)
      modifies this`world, this`replies, this`trace
      ensures Valid() && Extends(old(trace), trace, Tidy(env, triples, was)) && Tidy(env, triples, was)(world)
      ensures ok ==> world == Settled(old(world), env, Mats(cells, planned.plans))
      ensures ok ==> Enumerates(order, planned.invalid.Keys) &&
                     report.statuses == InvalidStatuses(order) + PlanStatuses(cells, planned.plans)
      ensures ok ==> (report.needsRequeue <==> SomePending(old(world), env, cells, planned.plans))
      ensures ok ==> (report.allReady <==> !report.needsRequeue && planned.invalid == map[])
      ensures old(replies) == [] ==> replies == [] && (ok <==> PlansFree(was, env, cells, planned.plans))
    {
      report := Report(false, true, []);
      var statuses;
      ok, statuses, order := ReportInvalid(planned.invalid);
      if !ok {
        return;
      }
      var tally;
      ok, tally := ApplyPlans(env, planned.plans, planned.invalid == map[], triples, was);
      if ok {
        report := Report(tally.allReady, tally.needsRequeue, statuses + tally.statuses);
      }
    }

    /** `reconcileRoutes`. */
    method ReconcileRoutes(env: Env, routes: seq<RouteSpec>, ps: seq<Placement>, ghost triples: set<Triple>,
                           ghost was: World)
      returns (ok: bool, report: Report)
      requires Schema(ps) && Valid() && Safe(env, triples, was)(world) && world.finalizer
      requires NoCollision(env, triples) && InPlay(cells, AllPlans(routes, ps), triples)
      modifies this`world, this`replies, this`trace
      ensures Valid() && Extends(old(trace), trace, Tidy(env, triples, was)) && Tidy(env, triples, was)(world)
      ensures ok ==> Reconciled(Run(old(world), world, cells, routes, ps, report), env)
      ensures old(replies) == [] ==> replies == [] && (ok <==> Feasible(was, env, cells, routes, ps))
    {
      report := Report(false, false, []);
      var planned := BuildRoutePlans(routes, ps);
      if planned.Err? {
        ok := false;
        return;
      }
      ghost var plans := planned.value.plans;
      PlansDistinct(routes, ps);
      ghost var order;
      ok, report, order := ReconcilePlanned(env, planned.value, triples, was);
      if ok {
        SettledSound(old(world), env, triples, cells, plans);
        AccurateAll(report, old(world), env, cells, routes, ps, planned.value.invalid, order);
      }
    }

    // ----- the whole reconcile

    method EnsureFinalizer(env: Env, ghost triples: set<Triple>, ghost was: World) returns (ok: bool)
      requires Valid() && Safe(env, triples, was)(world)
      modifies this`world, this`replies, this`trace
      ensures Valid() && Extends(old(trace), trace, Safe(env, triples, was)) && Safe(env, triples, was)(world)
      ensures ok ==> world == old(world).(finalizer := true)
      ensures old(replies) == [] ==> ok && replies == []
    {
      if world.finalizer {
        ok := true;
        return;
      }
      SameObjects(world, world.(finalizer := true), env, triples);
      GatewayKeepsForeign(was, world, world.(finalizer := true), env.router);
      ok := Commit(world.(finalizer := true), Safe(env, triples, was));
    }

    /** `reconcileGatewayNamespace`: a read and a write of an object that is not modelled. */
    method ReconcileGatewayNamespace(env: Env) returns (ok: bool)
      modifies this`replies
      ensures ok ==> env.router.gatewayNs != ""
      ensures old(replies) == [] ==> replies == [] && (ok <==> env.router.gatewayNs != "")
    {
      ok := env.router.gatewayNs != "";
      if ok {
        ok := Call();
      }
      if ok {
        ok := Call();
      }
    }

    /** `reconcileGateway`, after its namespace. */
    method ReconcileGateway(env: Env, ghost triples: set<Triple>, ghost was: World) returns (ok: bool)
      requires Valid() && Safe(env, triples, was)(world) && world.finalizer
      modifies this`world, this`replies, this`trace
      ensures Valid() && Extends(old(trace), trace, Safe(env, triples, was)) && Safe(env, triples, was)(world)
      ensures ok ==> world == WithGateway(old(world), env.router) && env.router.gatewayNs != ""
      ensures old(replies) == [] ==> replies == [] && (ok <==> GatewayFree(was, env.router))
    {
      ok := ReconcileGatewayNamespace(env);
      if !ok {
        return;
      }
      SameForeign(was, world, env.router, GatewayKey(env.router));
      var foreign := GatewayForeign(world, env.router, GatewayKey(env.router));
      SameObjects(world, WithGateway(world, env.router), env, triples);
      if !foreign {
        GatewayKeepsForeign(was, world, WithGateway(world, env.router), env.router);
      }
      ok := CreateOrUpdate(WithGateway(world, env.router), foreign, Safe(env, triples, was));
    }

    /** What precedes the routes: finalizer, gateway, and the list of placements. */
    method Prepare(env: Env, ghost triples: set<Triple>) returns (ok: bool)
      requires Valid() && Good(world, env, triples)
      modifies this`world, this`replies, this`trace
      ensures Valid() && Extends(old(trace), trace, Tidy(env, triples, old(world)))
      ensures Safe(env, triples, old(world))(world) && Tidy(env, triples, old(world))(world)
      ensures ok ==> world == Prepared(old(world), env.router)
      ensures old(replies) == [] ==> replies == [] && (ok <==> GatewayFree(old(world), env.router))
    {
      ok := PrepareObjects(env, triples, old(world));
      if ok {
        ok := Call();
      }
      ExtendsWeaker(old(trace), trace, env, triples, old(world));
      KeptIsSpared(old(world), world, env.router);
    }

    method PrepareObjects(env: Env, ghost triples: set<Triple>, ghost was: World) returns (ok: bool)
      requires Valid() && Safe(env, triples, was)(world)
      modifies this`world, this`replies, this`trace
      ensures Valid() && Extends(old(trace), trace, Safe(env, triples, was)) && Safe(env, triples, was)(world)
      ensures ok ==> world == Prepared(old(world), env.router)
      ensures old(replies) == [] ==> replies == [] && (ok <==> GatewayFree(was, env.router))
    {
      ok := EnsureFinalizer(env, triples, was);
      if ok {
        ghost var before := trace;
        ok := ReconcileGateway(env, triples, was);
        ExtendsTrans(old(trace), before, trace, Safe(env, triples, was));
      }
    }

    /** `reconcileNormal`: `settled` when the routes were reconciled, and `ok` when the patch of the router's
        status then got through as well. That patch is the last call of a run, so its reply is only read. */
    method ReconcileNormal(env: Env, routes: seq<RouteSpec>, ps: seq<Placement>, ghost triples: set<Triple>)
      returns (ok: bool, settled: bool, report: Report)
      requires Schema(ps) && Valid() && Good(world, env, triples)
      requires NoCollision(env, triples) && InPlay(cells, AllPlans(routes, ps), triples)
      modifies this`world, this`replies, this`trace
      ensures Valid() && Extends(old(trace), trace, Tidy(env, triples, old(world)))
      ensures Tidy(env, triples, old(world))(world)
      ensures settled ==> Reconciled(Run(Prepared(old(world), env.router), world, cells, routes, ps, report), env)
      ensures ok <==> settled && (replies == [] || replies[0].Done?)
      ensures old(replies) == [] ==> replies == []
      ensures old(replies) == [] ==>
        (settled <==> GatewayFree(old(world), env.router) && Feasible(old(world), env, cells, routes, ps))
    {
      report := Report(false, true, []);
      ok := Prepare(env, triples);
      ghost var before := trace;
      if !ok {
        settled := false;
        return;
      }
      settled, report := ReconcileRoutes(env, routes, ps, triples, old(world));
      ExtendsTrans(old(trace), before, trace, Tidy(env, triples, old(world)));
      ok := settled && (replies == [] || replies[0].Done?);
    }

    // ----- finalization

    /** `deleteManagedHTTPRoutes`: only routes the router controls. */
    method DeleteManagedRoutes(env: Env, ghost triples: set<Triple>, ghost was: World) returns (ok: bool)
      requires Valid() && SafeFinal(env, triples, was)(world)
      modifies this`world, this`replies, this`trace
      ensures Valid() && Extends(old(trace), trace, SafeFinal(env, triples, was)) && SafeFinal(env, triples, was)(world)
      ensures ok ==> forall k :: k in world.routes ==> !Managed(world.routes[k], env.router)
      ensures old(replies) == [] ==> ok && replies == []
    {
      ok := Call();
      if !ok {
        return;
      }
      var own := set k | k in world.routes && k.ns == env.router.gatewayNs && Managed(world.routes[k], env.router);
      ghost var w := world;
      forall s | s <= own ensures SafeFinal(env, triples, was)(DropRoutes(w, s)) {
        DropRoutesKeeps(w, env, triples, s);
        DropOwnRoutes(was, w, env.router, s);
      }
      ok := DeleteRoutes(own, SafeFinal(env, triples, was));
      if ok {
        OwnRoutesGone(w, world, env, triples);
      }
    }

    /** `deleteManagedReferenceGrants`, after the routes. */
    method DeleteManagedGrants(env: Env, ghost triples: set<Triple>, ghost was: World) returns (ok: bool)
      requires Valid() && SafeFinal(env, triples, was)(world)
      requires forall k :: k in world.routes ==> !Managed(world.routes[k], env.router)
      modifies this`world, this`replies, this`trace
      ensures Valid() && Extends(old(trace), trace, SafeFinal(env, triples, was)) && SafeFinal(env, triples, was)(world)
      ensures ok ==> world.routes == old(world).routes
      ensures ok ==> forall k :: k in world.grants ==> !ManagedGrant(world.grants[k], env.router)
      ensures old(replies) == [] ==> ok && replies == []
    {
      ok := Call();
      if !ok {
        return;
      }
      var own := set k | k in world.grants && ManagedGrant(world.grants[k], env.router);
      ghost var w := world;
      forall s | s <= own ensures SafeFinal(env, triples, was)(DropGrants(w, s)) {
        DropGrantsKeeps(w, env, triples, s, {});
        DropOwnGrants(was, w, env.router, s);
      }
      ok := DeleteGrants(own, SafeFinal(env, triples, was));
    }

    /** `deleteManagedGateway`. */
    method DeleteManagedGateway(env: Env, ghost triples: set<Triple>, ghost was: World) returns (ok: bool)
      requires Valid() && SafeFinal(env, triples, was)(world)
      modifies this`world, this`replies, this`trace
      ensures Valid() && Extends(old(trace), trace, SafeFinal(env, triples, was)) && SafeFinal(env, triples, was)(world)
      ensures ok ==> world.routes == old(world).routes && world.grants == old(world).grants
      ensures ok ==> !OwnsGateway(world, env.router)
      ensures old(replies) == [] ==> ok && replies == []
    {
      ok := Call();
      if !ok || !OwnsGateway(world, env.router) {
        return;
      }
      var next := world.(gateways := world.gateways - {GatewayKey(env.router)});
      SameObjects(world, next, env, triples);
      ok := Commit(next, SafeFinal(env, triples, was));
    }

    /** The end of `reconcileDeletion`. */
    method RemoveFinalizer(env: Env, ghost triples: set<Triple>, ghost was: World) returns (ok: bool)
      requires Valid() && SafeFinal(env, triples, was)(world) && Clean(world, env.router)
      modifies this`world, this`replies, this`trace
      ensures Valid() && Extends(old(trace), trace, SafeFinal(env, triples, was)) && SafeFinal(env, triples, was)(world)
      ensures ok ==> world == old(world).(finalizer := false)
      ensures old(replies) == [] ==> ok && replies == []
    {
      ok := true;
      if world.finalizer {
        var next := world.(finalizer := false);
        SameObjects(world, next, env, triples);
        ok := Commit(next, SafeFinal(env, triples, was));
      }
    }

    /** `reconcileDeletion`: routes, then grants, then the gateway, then the finalizer. */
    method ReconcileDeletion(env: Env, ghost triples: set<Triple>) returns (ok: bool)
      requires Valid() && Good(world, env, triples) && world.deleting
      modifies this`world, this`replies, this`trace
      ensures Valid() && Extends(old(trace), trace, SafeFinal(env, triples, old(world)))
      ensures SafeFinal(env, triples, old(world))(world)
      ensures ok ==> Clean(world, env.router) && !world.finalizer
      ensures old(replies) == [] ==> ok && replies == []
    {
      ghost var was, inv := world, SafeFinal(env, triples, world);
      UntouchedSelf(world, env.router);
      ok := DeleteManagedRoutes(env, triples, was);
      if !ok {
        return;
      }
      ghost var before := trace;
      ok := DeleteManagedGrants(env, triples, was);
      ExtendsTrans(old(trace), before, trace, inv);
      if !ok {
        return;
      }
      before := trace;
      ok := DeleteManagedGateway(env, triples, was);
      ExtendsTrans(old(trace), before, trace, inv);
      if !ok {
        return;
      }
      before := trace;
      ok := RemoveFinalizer(env, triples, was);
      ExtendsTrans(old(trace), before, trace, inv);
    }
  }
}
