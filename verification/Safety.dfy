/**
 What the router keeps true of the cluster at every point of every run, and which single writes and
 deletions keep it.
 */
module Safety {
  import opened Basics
  import opened Overlay
  import opened Metadata
  import opened Placements
  import opened RoutePlans
  import opened PlacementCompiler
  import opened CellController
  import opened RouterModel
  import opened Convergence

  predicate ManagedGrant(g: Grant, router: RouterId) {
    Labelled(g.labels, router) && g.owner == Some(router.uid)
  }

  function GatewayKey(router: RouterId): Key {
    Key(router.gatewayNs, router.gatewayName)
  }

  predicate OwnsGateway(w: World, router: RouterId) {
    GatewayKey(router) in w.gateways && w.gateways[GatewayKey(router)] == Some(router.uid)
  }

  /** Nothing the router manages is left. */
  predicate Clean(w: World, router: RouterId) {
    && (forall k :: k in w.routes ==> !Managed(w.routes[k], router))
    && (forall k :: k in w.grants ==> !ManagedGrant(w.grants[k], router))
    && !OwnsGateway(w, router)
  }

  /** Every managed route's backends are granted, grants carry the names of their triples, and without
      the finalizer nothing managed exists. */
  ghost predicate Good(w: World, env: Env, triples: set<Triple>) {
    && Covered(w, env, triples)
    && WellNamed(w, env, triples)
    && (w.finalizer || Clean(w, env.router))
  }

  // ----- single steps

  lemma GrantKeeps(w: World, env: Env, triples: set<Triple>, route: string, b: BackendTarget)
    requires NoCollision(env, triples) && GrantTriple(route, ObjectOf(b)) in triples && Good(w, env, triples)
    requires w.finalizer
    ensures Good(WithGrant(w, env, route, b), env, triples)
  {
    GrantStepCovered(w, env, triples, route, b);
    var w', t := WithGrant(w, env, route, b), GrantTriple(route, ObjectOf(b));
    forall k | k in w'.grants && Labelled(w'.grants[k].labels, env.router)
      ensures exists t :: t in triples && GrantKey(env, t) == k
    {
      if k == GrantKey(env, t) {
        assert t in triples;
      } else {
        assert w'.grants[k] == w.grants[k];
      }
    }
  }

  lemma RouteKeeps(w: World, env: Env, triples: set<Triple>, m: Materialized)
    requires Good(w, env, triples) && w.finalizer && AllGranted(w, env, triples, m.plan.name, m.backends)
    ensures Good(WithRoute(w, env, m), env, triples)
  {
    RouteStepCovered(w, env, triples, m);
  }

  lemma DropRoutesKeeps(w: World, env: Env, triples: set<Triple>, ks: set<Key>)
    requires Good(w, env, triples)
    ensures Good(DropRoutes(w, ks), env, triples)
  {
    DropRoutesCovered(w, env, triples, ks);
  }

  lemma DropGrantsKeeps(w: World, env: Env, triples: set<Triple>, ks: set<Key>, names: set<string>)
    requires Good(w, env, triples) && NeedsOnly(w, env, names) && forall k :: k in ks ==> k.name !in names
    ensures Good(DropGrants(w, ks), env, triples)
  {
    DropGrantsCovered(w, env, triples, ks, names);
    var w' := DropGrants(w, ks);
    forall k | k in w'.grants && Labelled(w'.grants[k].labels, env.router)
      ensures exists t :: t in triples && GrantKey(env, t) == k
    {
      assert w'.grants[k] == w.grants[k];
    }
  }

  /** Only routes and grants matter for coverage and names. */
  lemma SameObjects(w: World, w': World, env: Env, triples: set<Triple>)
    requires Good(w, env, triples) && w'.routes == w.routes && w'.grants == w.grants
    requires w'.finalizer || Clean(w', env.router)
    ensures Good(w', env, triples)
  {
    forall k | k in w'.routes && Managed(w'.routes[k], env.router)
      ensures RouteCovered(w', env, triples, k, w'.routes[k])
    {
      assert RouteCovered(w, env, triples, k, w.routes[k]);
      forall b | b in w'.routes[k].spec.backends ensures Granted(w', env, k.name, b) {
        assert Granted(w, env, k.name, b);
      }
    }
  }

  // ----- the plans of a run

  /** The plans that resolve to at least one backend, in order. */
  function Mats(cells: map<string, Cell>, plans: seq<RoutePlan>): seq<Materialized> {
    if plans == [] then []
    else
      var last := plans[|plans| - 1];
      AppendMat(Mats(cells, plans[..|plans| - 1]), last, Resolved(cells, last.spec))
  }

  function AppendMat(ms: seq<Materialized>, plan: RoutePlan, bs: seq<BackendTarget>): seq<Materialized> {
    if bs == [] then ms else ms + [Materialized(plan, bs)]
  }

  /** Each materialized plan comes from a plan, no earlier than its own position. */
  lemma {:induction false} MatSource(cells: map<string, Cell>, plans: seq<RoutePlan>, i: nat) returns (k: nat)
    requires i < |Mats(cells, plans)|
    ensures k < |plans| && Mats(cells, plans)[i] == Materialized(plans[k], Resolved(cells, plans[k].spec))
    ensures Resolved(cells, plans[k].spec) != [] && i == |Mats(cells, plans[..k])|
  {
    var n := |plans| - 1;
    if i < |Mats(cells, plans[..n])| {
      k := MatSource(cells, plans[..n], i);
      assert plans[..n][..k] == plans[..k];
    } else {
      k := n;
    }
  }

  lemma AppendHas(ms: seq<Materialized>, plan: RoutePlan, bs: seq<BackendTarget>, m: Materialized)
    requires m in ms || (bs != [] && m == Materialized(plan, bs))
    ensures m in AppendMat(ms, plan, bs)
  {
    assert bs != [] ==> AppendMat(ms, plan, bs)[|ms|] == Materialized(plan, bs);
  }

  lemma {:induction false} MatExists(cells: map<string, Cell>, plans: seq<RoutePlan>, k: nat)
    requires k < |plans| && Resolved(cells, plans[k].spec) != []
    ensures Materialized(plans[k], Resolved(cells, plans[k].spec)) in Mats(cells, plans)
  {
    var n := |plans| - 1;
    var front, m := Mats(cells, plans[..n]), Materialized(plans[k], Resolved(cells, plans[k].spec));
    assert Mats(cells, plans) == AppendMat(front, plans[n], Resolved(cells, plans[n].spec));
    if k < n {
      MatExists(cells, plans[..n], k);
    }
    AppendHas(front, plans[n], Resolved(cells, plans[n].spec), m);
  }

  /** The expected routes are exactly the plans with at least one resolved backend. */
  lemma ExpectedAreResolved(cells: map<string, Cell>, plans: seq<RoutePlan>, name: string)
    ensures name in ExpectedRoutes(Mats(cells, plans)) <==>
            exists k :: 0 <= k < |plans| && plans[k].name == name && Resolved(cells, plans[k].spec) != []
  {
    var ms := Mats(cells, plans);
    if name in ExpectedRoutes(ms) {
      var i :| 0 <= i < |ms| && ms[i].plan.name == name;
      var k := MatSource(cells, plans, i);
    }
    if k :| 0 <= k < |plans| && plans[k].name == name && Resolved(cells, plans[k].spec) != [] {
      MatExists(cells, plans, k);
    }
  }

  predicate DistinctPlanNames(plans: seq<RoutePlan>) {
    forall i, j :: 0 <= i < j < |plans| ==> plans[i].name != plans[j].name
  }

  lemma MatsDistinct(cells: map<string, Cell>, plans: seq<RoutePlan>)
    requires DistinctPlanNames(plans)
    ensures DistinctPlans(Mats(cells, plans))
  {
    var ms := Mats(cells, plans);
    forall i, j | 0 <= i < j < |ms| ensures ms[i].plan.name != ms[j].plan.name {
      var a := MatSource(cells, plans, i);
      var b := MatSource(cells, plans, j);
      assert a != b;
    }
  }

  /** The triples a plan's grants stand for are among those in play. */
  predicate PlanInPlay(cells: map<string, Cell>, plan: RoutePlan, triples: set<Triple>) {
    forall b :: b in Resolved(cells, plan.spec) ==> GrantTriple(plan.name, ObjectOf(b)) in triples
  }

  predicate InPlay(cells: map<string, Cell>, plans: seq<RoutePlan>, triples: set<Triple>) {
    forall i :: 0 <= i < |plans| ==> PlanInPlay(cells, plans[i], triples)
  }

  lemma DesiredInPlay(env: Env, cells: map<string, Cell>, plans: seq<RoutePlan>, triples: set<Triple>, t: Triple)
    requires InPlay(cells, plans, triples) && DesiredGrant(env, Mats(cells, plans), t)
    ensures t in triples
  {
    var ms := Mats(cells, plans);
    var i, j :| 0 <= i < |ms| && 0 <= j < |ms[i].backends| &&
      t == GrantTriple(ms[i].plan.name, ObjectOf(ms[i].backends[j]));
    var k := MatSource(cells, plans, i);
    assert PlanInPlay(cells, plans[k], triples);
    assert ms[i].backends[j] in Resolved(cells, plans[k].spec);
  }

  // ----- writing one plan after the other

  function WithGrants(w: World, env: Env, route: string, bs: seq<BackendTarget>): World {
    w.(grants := Fold(w.grants, GrantWritesOf(env, route, bs), PutGrant))
  }

  function WithPlan(w: World, env: Env, m: Materialized): World {
    WithRoute(WithGrants(w, env, m.plan.name, m.backends), env, m)
  }

  lemma {:induction false} FoldAppend<O, V>(m: map<Key, O>, a: seq<Write<V>>, b: seq<Write<V>>,
                                            put: (Option<O>, V) -> O)
    ensures Fold(m, a + b, put) == Fold(Fold(m, a, put), b, put)
  {
    if b == [] {
      assert a + b == a;
    } else {
      var n := |b| - 1;
      FoldAppend(m, a, b[..n], put);
      assert (a + b)[..|a + b| - 1] == a + b[..n];
      assert (a + b)[|a + b| - 1] == b[n];
    }
  }

  lemma WithGrantsNext(w: World, env: Env, route: string, bs: seq<BackendTarget>, i: nat)
    requires i < |bs|
    ensures WithGrants(w, env, route, bs[..i + 1]) == WithGrant(WithGrants(w, env, route, bs[..i]), env, route, bs[i])
  {
    var ws := GrantWritesOf(env, route, bs[..i + 1]);
    assert ws[..i] == GrantWritesOf(env, route, bs[..i]);
    assert ws[i] == GrantWrite(env, route, bs[i]);
  }

  lemma {:induction false} GrantsGranted(w: World, env: Env, triples: set<Triple>, route: string,
                                         bs: seq<BackendTarget>)
    requires NoCollision(env, triples) && forall b :: b in bs ==> GrantTriple(route, ObjectOf(b)) in triples
    ensures AllGranted(WithGrants(w, env, route, bs), env, triples, route, bs)
  {
    if bs != [] {
      var n := |bs| - 1;
      GrantsGranted(w, env, triples, route, bs[..n]);
      assert bs[..n + 1] == bs;
      WithGrantsNext(w, env, route, bs, n);
      GrantStep(WithGrants(w, env, route, bs[..n]), env, triples, route, bs[n]);
    }
  }

  lemma WrittenNext(w: World, env: Env, ms: seq<Materialized>, m: Materialized)
    ensures Written(w, env, ms + [m]) == WithPlan(Written(w, env, ms), env, m)
  {
    var rs := RouteWrites(env, ms + [m]);
    assert rs[..|ms|] == RouteWrites(env, ms) && rs[|ms|] == RouteWrite(env, m);
    assert (ms + [m])[..|ms|] == ms;
    FoldAppend(w.grants, GrantWrites(env, ms), GrantWritesOf(env, m.plan.name, m.backends), PutGrant);
  }

  lemma MatsNext(cells: map<string, Cell>, plans: seq<RoutePlan>, i: nat)
    requires i < |plans|
    ensures var bs := Resolved(cells, plans[i].spec);
      Mats(cells, plans[..i + 1]) == AppendMat(Mats(cells, plans[..i]), plans[i], bs)
  {
    assert plans[..i + 1][..i] == plans[..i];
  }

  /** Writing one more plan, if it has backends. */
  function WithBackends(w: World, env: Env, plan: RoutePlan, bs: seq<BackendTarget>): World {
    if bs == [] then w else WithPlan(w, env, Materialized(plan, bs))
  }

  lemma WrittenAppend(w: World, env: Env, ms: seq<Materialized>, plan: RoutePlan, bs: seq<BackendTarget>)
    ensures Written(w, env, AppendMat(ms, plan, bs)) == WithBackends(Written(w, env, ms), env, plan, bs)
  {
    if bs != [] {
      WrittenNext(w, env, ms, Materialized(plan, bs));
    }
  }

  /** The names of the grants one plan needs. */
  function GrantNames(env: Env, route: string, bs: seq<BackendTarget>): set<string> {
    set b | b in bs :: GrantName(env, GrantTriple(route, ObjectOf(b)))
  }

  lemma ExpectedNext(env: Env, ms: seq<Materialized>, plan: RoutePlan, bs: seq<BackendTarget>)
    ensures ExpectedRoutes(AppendMat(ms, plan, bs)) == ExpectedRoutes(ms) + if bs == [] then {} else {plan.name}
    ensures ExpectedGrants(env, AppendMat(ms, plan, bs)) == ExpectedGrants(env, ms) + GrantNames(env, plan.name, bs)
  {
    if bs != [] {
      var m, ws, earlier := Materialized(plan, bs), GrantWritesOf(env, plan.name, bs), GrantWrites(env, ms);
      assert (ms + [m])[..|ms|] == ms;
      assert GrantWrites(env, ms + [m]) == earlier + ws;
      forall x ensures x in GrantNames(env, plan.name, bs) <==> exists w :: w in ws && w.key.name == x {
        OneGrantName(env, plan.name, bs, x);
      }
    }
  }

  lemma OneGrantName(env: Env, route: string, bs: seq<BackendTarget>, x: string)
    ensures x in GrantNames(env, route, bs) <==> exists w :: w in GrantWritesOf(env, route, bs) && w.key.name == x
  {
    var ws := GrantWritesOf(env, route, bs);
    if x in GrantNames(env, route, bs) {
      var i :| 0 <= i < |bs| && GrantName(env, GrantTriple(route, ObjectOf(bs[i]))) == x;
      assert ws[i] == GrantWrite(env, route, bs[i]) && ws[i] in ws;
    }
    if w :| w in ws && w.key.name == x {
      var i :| 0 <= i < |ws| && ws[i] == w;
      assert ws[i] == GrantWrite(env, route, bs[i]);
      assert bs[i] in bs;
    }
  }

  /** After the stale routes are gone, the expected grants are all that managed routes need. */
  lemma ExpectedSuffice(w: World, env: Env, triples: set<Triple>, ms: seq<Materialized>)
    requires DistinctPlans(ms)
    requires Covered(DropStaleRoutes(Written(w, env, ms), env, ExpectedRoutes(ms)), env, triples)
    ensures NeedsOnly(DropStaleRoutes(Written(w, env, ms), env, ExpectedRoutes(ms)), env, ExpectedGrants(env, ms))
  {
    var w' := DropStaleRoutes(Written(w, env, ms), env, ExpectedRoutes(ms));
    assert w'.routes == Settled(w, env, ms).routes;
    forall k, b | k in w'.routes && Managed(w'.routes[k], env.router) && b in w'.routes[k].spec.backends
      ensures GrantName(env, GrantTriple(k.name, b)) in ExpectedGrants(env, ms)
    {
      assert RouteCovered(w', env, triples, k, w'.routes[k]);
      ExactRoutes(w, env, ms, k);
      NeedExpected(env, ms, k.name, w'.routes[k], b);
    }
  }

  lemma NeedExpected(env: Env, ms: seq<Materialized>, name: string, r: Route, b: BackendObject)
    requires Desired(r, env, ms, name) && b in r.spec.backends
    ensures GrantName(env, GrantTriple(name, b)) in ExpectedGrants(env, ms)
  {
    var m :| m in ms && m.plan.name == name && IsRouteOf(r, env, m);
    var i :| 0 <= i < |ms| && ms[i] == m;
    var j := BackendOf(r.spec, env.router, m.plan.spec, m.backends, b);
    GrantWriteExists(env, ms, i, j);
    assert GrantWrite(env, name, m.backends[j]).key.name == GrantName(env, GrantTriple(name, b));
  }

  // ----- what routes serve after a successful run

  /** The route names a primary cell, and that cell resolves. */
  predicate PrimaryResolves(cells: map<string, Cell>, spec: RouteSpec) {
    spec.cellRef != "" && Resolves(cells, spec.cellRef)
  }

  predicate NoneResolves(cells: map<string, Cell>, refs: seq<BackendRef>) {
    forall i :: 0 <= i < |refs| ==> !Resolves(cells, refs[i].cellRef)
  }

  /** The primary cell first, with the route's weight, if it resolves; then exactly the additional backends
      that resolve, in order and with their weights. */
  ghost predicate FromCandidates(cells: map<string, Cell>, spec: RouteSpec, bs: seq<BackendTarget>) {
    var n := if PrimaryResolves(cells, spec) then 1 else 0;
    && bs != [] && n <= |bs|
    && (n == 1 ==> Serves(cells, BackendRef(spec.cellRef, spec.weight), bs[0]))
    && exists idx :: PicksReady(cells, spec.additionalBackends, bs[n..], idx)
  }

  /** The fallback alone, because neither the primary cell nor an additional one resolves. */
  predicate FromFallback(cells: map<string, Cell>, spec: RouteSpec, bs: seq<BackendTarget>) {
    && !PrimaryResolves(cells, spec) && NoneResolves(cells, spec.additionalBackends)
    && spec.fallbackBackend.Some? && |bs| == 1 && PicksOne(cells, spec.fallbackBackend.value, bs[0])
  }

  /** The backends a route is to have. */
  ghost predicate Chosen(cells: map<string, Cell>, spec: RouteSpec, bs: seq<BackendTarget>) {
    FromCandidates(cells, spec, bs) || FromFallback(cells, spec, bs)
  }

  /** Nothing the route refers to resolves. */
  predicate NothingResolves(cells: map<string, Cell>, spec: RouteSpec) {
    && !PrimaryResolves(cells, spec) && NoneResolves(cells, spec.additionalBackends)
    && (spec.fallbackBackend.Some? ==> !Resolves(cells, spec.fallbackBackend.value.cellRef))
  }

  lemma CandidatesSplit(cells: map<string, Cell>, spec: RouteSpec)
    ensures var all, n := ResolveAll(cells, Candidates(spec)), if PrimaryResolves(cells, spec) then 1 else 0;
      && n <= |all| && all[n..] == ResolveAll(cells, spec.additionalBackends)
      && (n == 1 ==> Serves(cells, BackendRef(spec.cellRef, spec.weight), all[0]))
  {
    var primary := BackendRef(spec.cellRef, spec.weight);
    var first := if spec.cellRef != "" then [primary] else [];
    ResolveConcat(cells, first, spec.additionalBackends);
    ResolveOne(cells, primary);
    ResolvesIff(cells, primary);
  }

  lemma EmptyIffNone(cells: map<string, Cell>, refs: seq<BackendRef>)
    ensures ResolveAll(cells, refs) == [] <==> NoneResolves(cells, refs)
  {
    var idx := ResolveIsSubsequence(cells, refs);
    if ResolveAll(cells, refs) == [] {
      forall i | 0 <= i < |refs| ensures !Resolves(cells, refs[i].cellRef) {
        assert i !in idx;
      }
    } else {
      assert PicksOne(cells, refs[idx[0]], ResolveAll(cells, refs)[0]);
    }
  }

  /** The resolved backends are those the route is to have; there are none exactly when nothing resolves. */
  lemma ResolvedChosen(cells: map<string, Cell>, spec: RouteSpec)
    ensures Resolved(cells, spec) != [] ==> Chosen(cells, spec, Resolved(cells, spec))
    ensures Resolved(cells, spec) == [] <==> NothingResolves(cells, spec)
  {
    var all := ResolveAll(cells, Candidates(spec));
    CandidatesSplit(cells, spec);
    EmptyIffNone(cells, spec.additionalBackends);
    if all != [] {
      var idx := ResolveIsSubsequence(cells, spec.additionalBackends);
    } else if spec.fallbackBackend.Some? {
      ResolveOne(cells, spec.fallbackBackend.value);
      ResolvesIff(cells, spec.fallbackBackend.value);
    }
  }

  /** A chosen backend is the address of a cell that resolves, hence is neither draining nor disabled. */
  lemma ChosenReady(cells: map<string, Cell>, spec: RouteSpec, bs: seq<BackendTarget>, i: nat)
    returns (ref: BackendRef)
    requires Chosen(cells, spec, bs) && i < |bs|
    ensures PicksOne(cells, ref, bs[i])
    ensures bs[i].cellRef in cells && IsTrafficReady(cells[bs[i].cellRef])
  {
    if FromFallback(cells, spec, bs) {
      ref := spec.fallbackBackend.value;
    } else {
      ref := CandidateReady(cells, spec, bs, i);
    }
  }

  lemma CandidateReady(cells: map<string, Cell>, spec: RouteSpec, bs: seq<BackendTarget>, i: nat)
    returns (ref: BackendRef)
    requires FromCandidates(cells, spec, bs) && i < |bs|
    ensures PicksOne(cells, ref, bs[i])
  {
    var n := if PrimaryResolves(cells, spec) then 1 else 0;
    if i < n {
      ref := BackendRef(spec.cellRef, spec.weight);
    } else {
      var rest := bs[n..];
      var idx :| PicksReady(cells, spec.additionalBackends, rest, idx);
      assert PicksOne(cells, spec.additionalBackends[idx[i - n]], rest[i - n]);
      ref := spec.additionalBackends[idx[i - n]];
    }
  }

  /** The route carries out one of the plans on chosen backends. */
  ghost predicate Implements(r: Route, env: Env, cells: map<string, Cell>, plans: seq<RoutePlan>, name: string) {
    exists i, bs :: 0 <= i < |plans| && plans[i].name == name && Chosen(cells, plans[i].spec, bs) &&
      SpecSays(r.spec, env.router, plans[i].spec, bs)
  }

  /** Right after a successful run, every managed route implements a plan. */
  ghost predicate Sound(w: World, env: Env, cells: map<string, Cell>, plans: seq<RoutePlan>) {
    forall k :: k in w.routes && Managed(w.routes[k], env.router) ==> Implements(w.routes[k], env, cells, plans, k.name)
  }

  lemma DesiredImplements(r: Route, env: Env, cells: map<string, Cell>, plans: seq<RoutePlan>, name: string)
    requires Desired(r, env, Mats(cells, plans), name)
    ensures Implements(r, env, cells, plans, name)
  {
    var ms := Mats(cells, plans);
    var m :| m in ms && m.plan.name == name && IsRouteOf(r, env, m);
    var j :| 0 <= j < |ms| && ms[j] == m;
    var i := MatSource(cells, plans, j);
    ResolvedChosen(cells, plans[i].spec);
    assert plans[i].name == name && Chosen(cells, plans[i].spec, m.backends);
  }

  lemma SettledSound(w: World, env: Env, triples: set<Triple>, cells: map<string, Cell>, plans: seq<RoutePlan>)
    requires DistinctPlanNames(plans) && Covered(Settled(w, env, Mats(cells, plans)), env, triples)
    ensures Sound(Settled(w, env, Mats(cells, plans)), env, cells, plans)
  {
    var ms := Mats(cells, plans);
    var w' := Settled(w, env, ms);
    MatsDistinct(cells, plans);
    forall k | k in w'.routes && Managed(w'.routes[k], env.router)
      ensures Implements(w'.routes[k], env, cells, plans, k.name)
    {
      assert RouteCovered(w', env, triples, k, w'.routes[k]);
      ExactRoutes(w, env, ms, k);
      DesiredImplements(w'.routes[k], env, cells, plans, k.name);
    }
  }

  // ----- finalization

  /** Nothing is created or changed. */
  predicate Fewer<T(==)>(was: map<Key, T>, now: map<Key, T>) {
    forall k :: k in now ==> Get(was, k) == Some(now[k])
  }

  /** Only objects that are both labelled for the router and controlled by it, and its gateway if it controls
      that, may be gone; all else is there, unchanged. */
  predicate Untouched(was: World, w: World, router: RouterId) {
    && Fewer(was.routes, w.routes) && Fewer(was.grants, w.grants) && Fewer(was.gateways, w.gateways)
    && (forall k :: k in was.routes && !Managed(was.routes[k], router) ==> k in w.routes)
    && (forall k :: k in was.grants && !ManagedGrant(was.grants[k], router) ==> k in w.grants)
    && (forall k :: k in was.gateways && !(k == GatewayKey(router) && was.gateways[k] == Some(router.uid)) ==>
          k in w.gateways)
  }

  lemma UntouchedSelf(w: World, router: RouterId)
    ensures Untouched(w, w, router)
  {
  }

  // ----- objects of other controllers

  predicate Foreign(owner: Option<string>, router: RouterId) {
    owner.Some? && owner != Some(router.uid)
  }

  predicate RouteForeign(w: World, router: RouterId, k: Key) {
    k in w.routes && Foreign(w.routes[k].owner, router)
  }

  predicate GrantForeign(w: World, router: RouterId, k: Key) {
    k in w.grants && Foreign(w.grants[k].owner, router)
  }

  predicate GatewayForeign(w: World, router: RouterId, k: Key) {
    k in w.gateways && Foreign(w.gateways[k], router)
  }

  /** The same objects are under other controllers as before, and they are unchanged. */
  ghost predicate ForeignKept(was: World, w: World, router: RouterId) {
    && (forall k :: RouteForeign(was, router, k) || RouteForeign(w, router, k) ==>
        Get(w.routes, k) == Get(was.routes, k))
    && (forall k :: GrantForeign(was, router, k) || GrantForeign(w, router, k) ==>
        Get(w.grants, k) == Get(was.grants, k))
    && (forall k :: GatewayForeign(was, router, k) || GatewayForeign(w, router, k) ==>
        Get(w.gateways, k) == Get(was.gateways, k))
  }

  /** No other controller holds an object the materialized plan is written to. */
  predicate MatFree(w: World, env: Env, m: Materialized) {
    && GrantsFree(w, env, m.plan.name, m.backends)
    && !RouteForeign(w, env.router, RouteWrite(env, m).key)
  }

  predicate GrantsFree(w: World, env: Env, route: string, bs: seq<BackendTarget>) {
    forall i :: 0 <= i < |bs| ==> !GrantForeign(w, env.router, GrantWrite(env, route, bs[i]).key)
  }

  predicate PlanFree(w: World, env: Env, cells: map<string, Cell>, plan: RoutePlan) {
    var bs := Resolved(cells, plan.spec);
    bs == [] || MatFree(w, env, Materialized(plan, bs))
  }

  predicate PlansFree(w: World, env: Env, cells: map<string, Cell>, plans: seq<RoutePlan>) {
    forall i :: 0 <= i < |plans| ==> PlanFree(w, env, cells, plans[i])
  }

  lemma GrantsFreeNext(w: World, env: Env, route: string, bs: seq<BackendTarget>, i: nat)
    requires i < |bs|
    ensures GrantsFree(w, env, route, bs[..i + 1]) <==>
            GrantsFree(w, env, route, bs[..i]) && !GrantForeign(w, env.router, GrantWrite(env, route, bs[i]).key)
    ensures GrantsFree(w, env, route, bs) ==> !GrantForeign(w, env.router, GrantWrite(env, route, bs[i]).key)
  {
    assert bs[..i + 1][i] == bs[i];
  }

  lemma PlansFreeNext(w: World, env: Env, cells: map<string, Cell>, plans: seq<RoutePlan>, i: nat)
    requires i < |plans|
    ensures PlansFree(w, env, cells, plans[..i + 1]) <==>
            PlansFree(w, env, cells, plans[..i]) && PlanFree(w, env, cells, plans[i])
    ensures PlansFree(w, env, cells, plans) ==> PlanFree(w, env, cells, plans[i])
  {
    var more, less := plans[..i + 1], plans[..i];
    assert more[i] == plans[i];
    if PlansFree(w, env, cells, more) {
      forall j | 0 <= j < i ensures PlanFree(w, env, cells, less[j]) {
        assert less[j] == more[j];
      }
    }
    if PlansFree(w, env, cells, less) && PlanFree(w, env, cells, plans[i]) {
      forall j | 0 <= j <= i ensures PlanFree(w, env, cells, more[j]) {
        assert j < i ==> more[j] == less[j];
      }
    }
  }

  /** They are unchanged or, if they carry the router's labels, deleted. */
  predicate ForeignSpared(was: World, w: World, router: RouterId) {
    && (forall k :: k in was.routes && Foreign(was.routes[k].owner, router) ==>
          Get(w.routes, k) == Some(was.routes[k]) || (k !in w.routes && Labelled(was.routes[k].labels, router)))
    && (forall k :: k in was.grants && Foreign(was.grants[k].owner, router) ==>
          Get(w.grants, k) == Some(was.grants[k]) || (k !in w.grants && Labelled(was.grants[k].labels, router)))
    && (forall k :: k in was.gateways && Foreign(was.gateways[k], router) ==>
        Get(w.gateways, k) == Some(was.gateways[k]))
  }

  lemma GrantKeepsForeign(was: World, w: World, env: Env, route: string, b: BackendTarget)
    requires ForeignKept(was, w, env.router) && !GrantForeign(w, env.router, GrantWrite(env, route, b).key)
    ensures ForeignKept(was, WithGrant(w, env, route, b), env.router)
  {
    var key, w' := GrantWrite(env, route, b).key, WithGrant(w, env, route, b);
    forall k | GrantForeign(was, env.router, k) || GrantForeign(w', env.router, k)
      ensures Get(w'.grants, k) == Get(was.grants, k)
    {
      assert k != key ==> GrantForeign(w', env.router, k) == GrantForeign(w, env.router, k);
    }
    assert forall k :: RouteForeign(w', env.router, k) == RouteForeign(w, env.router, k);
    assert forall k :: GatewayForeign(w', env.router, k) == GatewayForeign(w, env.router, k);
  }

  lemma RouteKeepsForeign(was: World, w: World, env: Env, m: Materialized)
    requires ForeignKept(was, w, env.router) && !RouteForeign(w, env.router, RouteWrite(env, m).key)
    ensures ForeignKept(was, WithRoute(w, env, m), env.router)
  {
    var key, w' := RouteWrite(env, m).key, WithRoute(w, env, m);
    forall k | RouteForeign(was, env.router, k) || RouteForeign(w', env.router, k)
      ensures Get(w'.routes, k) == Get(was.routes, k)
    {
      assert k != key ==> RouteForeign(w', env.router, k) == RouteForeign(w, env.router, k);
    }
    assert forall k :: GrantForeign(w', env.router, k) == GrantForeign(w, env.router, k);
    assert forall k :: GatewayForeign(w', env.router, k) == GatewayForeign(w, env.router, k);
  }

  lemma GatewayKeepsForeign(was: World, w: World, w': World, router: RouterId)
    requires ForeignKept(was, w, router) && w'.routes == w.routes && w'.grants == w.grants
    requires var key := GatewayKey(router);
      w'.gateways == w.gateways ||
      (!GatewayForeign(w, router, key) && w'.gateways == w.gateways[key := Some(router.uid)])
    ensures ForeignKept(was, w', router)
  {
    forall k | GatewayForeign(was, router, k) || GatewayForeign(w', router, k)
      ensures Get(w'.gateways, k) == Get(was.gateways, k)
    {
      assert k != GatewayKey(router) ==> GatewayForeign(w', router, k) == GatewayForeign(w, router, k);
    }
    assert forall k :: RouteForeign(w', router, k) == RouteForeign(w, router, k);
    assert forall k :: GrantForeign(w', router, k) == GrantForeign(w, router, k);
  }

  lemma KeptIsSpared(was: World, w: World, router: RouterId)
    requires ForeignKept(was, w, router)
    ensures ForeignSpared(was, w, router)
  {
    assert forall k :: k in was.routes && Foreign(was.routes[k].owner, router) ==> RouteForeign(was, router, k);
    assert forall k :: k in was.grants && Foreign(was.grants[k].owner, router) ==> GrantForeign(was, router, k);
    assert forall k :: k in was.gateways && Foreign(was.gateways[k], router) ==> GatewayForeign(was, router, k);
  }

  lemma SameForeign(was: World, w: World, router: RouterId, k: Key)
    requires ForeignKept(was, w, router)
    ensures RouteForeign(was, router, k) <==> RouteForeign(w, router, k)
    ensures GrantForeign(was, router, k) <==> GrantForeign(w, router, k)
    ensures GatewayForeign(was, router, k) <==> GatewayForeign(w, router, k)
  {
  }

  lemma DropLabelledRoutes(was: World, w: World, router: RouterId, ks: set<Key>)
    requires ForeignSpared(was, w, router)
    requires forall k :: k in ks && k in w.routes ==> Labelled(w.routes[k].labels, router)
    ensures ForeignSpared(was, DropRoutes(w, ks), router)
  {
    forall k | k in was.routes && Foreign(was.routes[k].owner, router)
      ensures var r := DropRoutes(w, ks).routes;
        Get(r, k) == Some(was.routes[k]) || (k !in r && Labelled(was.routes[k].labels, router))
    {
      assert Get(w.routes, k) == Some(was.routes[k]) || k !in w.routes;
    }
  }

  lemma DropLabelledGrants(was: World, w: World, router: RouterId, ks: set<Key>)
    requires ForeignSpared(was, w, router)
    requires forall k :: k in ks && k in w.grants ==> Labelled(w.grants[k].labels, router)
    ensures ForeignSpared(was, DropGrants(w, ks), router)
  {
    forall k | k in was.grants && Foreign(was.grants[k].owner, router)
      ensures var g := DropGrants(w, ks).grants;
        Get(g, k) == Some(was.grants[k]) || (k !in g && Labelled(was.grants[k].labels, router))
    {
      assert Get(w.grants, k) == Some(was.grants[k]) || k !in w.grants;
    }
  }

  // ----- deletions of own objects

  predicate OwnRoutes(w: World, router: RouterId, ks: set<Key>) {
    forall k :: k in ks && k in w.routes ==> Managed(w.routes[k], router)
  }

  predicate OwnGrants(w: World, router: RouterId, ks: set<Key>) {
    forall k :: k in ks && k in w.grants ==> ManagedGrant(w.grants[k], router)
  }

  lemma DropOwnRoutes(was: World, w: World, router: RouterId, ks: set<Key>)
    requires Untouched(was, w, router) && OwnRoutes(w, router, ks)
    ensures Untouched(was, DropRoutes(w, ks), router)
  {
    forall k | k in was.routes && !Managed(was.routes[k], router) ensures k in DropRoutes(w, ks).routes {
      assert Get(was.routes, k) == Some(w.routes[k]);
    }
  }

  lemma DropOwnGrants(was: World, w: World, router: RouterId, ks: set<Key>)
    requires Untouched(was, w, router) && OwnGrants(w, router, ks)
    ensures Untouched(was, DropGrants(w, ks), router)
  {
    forall k | k in was.grants && !ManagedGrant(was.grants[k], router) ensures k in DropGrants(w, ks).grants {
      assert Get(was.grants, k) == Some(w.grants[k]);
    }
  }

  /** A route of another owner survives a successful reconcile, unless it carries the router's labels in
      the gateway namespace under a name that is not expected. */
  lemma ForeignRouteKept(w: World, env: Env, ms: seq<Materialized>, k: Key)
    requires DistinctPlans(ms) && k in w.routes && w.routes[k].owner != Some(env.router.uid)
    requires k.ns == env.router.gatewayNs ==> k.name !in ExpectedRoutes(ms)
    ensures k in Settled(w, env, ms).routes <==>
            !(k.ns == env.router.gatewayNs && Labelled(w.routes[k].labels, env.router))
    ensures k in Settled(w, env, ms).routes ==> Settled(w, env, ms).routes[k] == w.routes[k]
  {
    SettledRoute(w, env, ms, k);
    if Last(RouteWrites(env, ms), k).Some? {
      RouteWriteExpected(env, ms, k);
    }
    var r := Settled(w, env, ms).routes;
    assert k in r <==> Get(r, k).Some?;
  }

  /** A grant under a key that is not written survives a successful reconcile, unless it carries the router's
      labels under a name that is not expected; whoever controls it. */
  lemma ForeignGrantKept(w: World, env: Env, ms: seq<Materialized>, k: Key)
    requires k in w.grants && Last(GrantWrites(env, ms), k).None?
    ensures k in Settled(w, env, ms).grants <==>
            !(Labelled(w.grants[k].labels, env.router) && k.name !in ExpectedGrants(env, ms))
    ensures k in Settled(w, env, ms).grants ==> Settled(w, env, ms).grants[k] == w.grants[k]
  {
    SettledGrant(w, env, ms, k);
    var g := Settled(w, env, ms).grants;
    assert k in g <==> Get(g, k).Some?;
  }
}
