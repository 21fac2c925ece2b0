/**
 The objects a CellRouter manages, the builders that give them their desired state, the choice of
 backends, and the properties of a cluster state the router has to keep.
 */
module RouterModel {
  import opened Basics
  import opened Overlay
  import opened Metadata
  import opened Placements
  import opened PlacementCompiler
  import opened RoutePlans
  import opened CellController
  import Sorting

  datatype RouterId = RouterId(name: string, uid: string, gatewayName: string, gatewayNs: string)

  datatype BackendTarget = BackendTarget(ns: string, name: string, port: int, weight: Option<int>, cellRef: string)

  datatype ParentRef = ParentRef(name: string, ns: string, section: Option<string>)

  datatype BackendObject = BackendObject(ns: string, name: string, port: int, weight: Option<int>)

  datatype HttpSpec = HttpSpec(parents: seq<ParentRef>, hostnames: seq<string>, matches: seq<RouteMatch>,
                               backends: seq<BackendObject>)

  datatype RouteCondition = RouteCondition(kind: string, isTrue: bool)

  /** What a gateway implementation reports about one parent of a route. */
  datatype ParentStatus = ParentStatus(name: string, ns: Option<string>, conditions: seq<RouteCondition>)

  datatype Route = Route(labels: Labels, owner: Option<string>, spec: HttpSpec, status: seq<ParentStatus>)

  /** `from` lists namespaces whose HTTPRoutes may refer, `to` the Services they may refer to. */
  datatype Grant = Grant(labels: Labels, annotations: Labels, owner: Option<string>, from: seq<string>, to: seq<string>)

  /** The objects a router may touch, and its own deletion mark and finalizer. A gateway is kept as its
      controlling owner. */
  datatype World = World(
    routes: map<Key, Route>,
    grants: map<Key, Grant>,
    gateways: map<Key, Option<string>>,
    deleting: bool,
    finalizer: bool)

  // ----- backends

  /** The namespace the cell reported, or else the one its specification implies. */
  function NamespaceOf(cell: Cell): string {
    if cell.status.namespace != "" then cell.status.namespace else EffectiveNamespace(cell)
  }

  /** `resolveBackend`. */
  function ResolveBackend(cell: Cell): Option<BackendTarget> {
    var ns := NamespaceOf(cell);
    if ns == "" || cell.spec.serviceName == "" || cell.spec.port == 0 then None
    else Some(BackendTarget(ns, cell.spec.serviceName, cell.spec.port, None, ""))
  }

  function ResolveRef(cells: map<string, Cell>, ref: BackendRef): Option<BackendTarget> {
    if ref.cellRef !in cells || !IsTrafficReady(cells[ref.cellRef]) then None
    else
      match ResolveBackend(cells[ref.cellRef])
      case None => None
      case Some(b) => Some(b.(weight := ref.weight, cellRef := ref.cellRef))
  }

  /** `resolveBackendCandidates`. */
  function ResolveAll(cells: map<string, Cell>, refs: seq<BackendRef>): seq<BackendTarget> {
    if refs == [] then []
    else
      var last := ResolveRef(cells, refs[|refs| - 1]);
      ResolveAll(cells, refs[..|refs| - 1]) + (if last.Some? then [last.value] else [])
  }

  function Candidates(spec: RouteSpec): seq<BackendRef> {
    (if spec.cellRef != "" then [BackendRef(spec.cellRef, spec.weight)] else []) + spec.additionalBackends
  }

  /** `resolveRouteBackends`: the candidates that resolve, or else the fallback if that one does. */
  function Resolved(cells: map<string, Cell>, spec: RouteSpec): seq<BackendTarget> {
    var primary := ResolveAll(cells, Candidates(spec));
    if primary != [] || spec.fallbackBackend.None? then primary else ResolveAll(cells, [spec.fallbackBackend.value])
  }

  /** The namespace the cell reported; without a report the specified one, and without that its name. */
  predicate InNamespace(cell: Cell, ns: string) {
    && (cell.status.namespace != "" ==> ns == cell.status.namespace)
    && (cell.status.namespace == "" && cell.spec.namespace != "" ==> ns == cell.spec.namespace)
    && (cell.status.namespace == "" && cell.spec.namespace == "" ==> ns == cell.name)
  }

  /** A cell that may receive traffic, at the address and weight the reference asks for. */
  predicate Serves(cells: map<string, Cell>, ref: BackendRef, b: BackendTarget) {
    && ref.cellRef in cells && IsTrafficReady(cells[ref.cellRef])
    && b.cellRef == ref.cellRef && b.weight == ref.weight
    && InNamespace(cells[ref.cellRef], b.ns)
    && b.name == cells[ref.cellRef].spec.serviceName && b.port == cells[ref.cellRef].spec.port
  }

  predicate Increasing(idx: seq<nat>) {
    forall i, j :: 0 <= i < j < |idx| ==> idx[i] < idx[j]
  }

  /** The cell exists, may have traffic, and has an address. */
  predicate Resolves(cells: map<string, Cell>, name: string) {
    && name in cells && IsTrafficReady(cells[name])
    && NamespaceOf(cells[name]) != "" && cells[name].spec.serviceName != "" && cells[name].spec.port != 0
  }

  /** A reference resolves exactly when its cell does, and then to the cell's address with its own weight. */
  lemma ResolvesIff(cells: map<string, Cell>, ref: BackendRef)
    ensures ResolveRef(cells, ref).Some? <==> Resolves(cells, ref.cellRef)
    ensures ResolveRef(cells, ref).Some? ==> Serves(cells, ref, ResolveRef(cells, ref).value)
  {
  }

  /** `idx` picks out of `refs`, in order, exactly the references that resolve, as `bs`. */
  predicate PicksReady(cells: map<string, Cell>, refs: seq<BackendRef>, bs: seq<BackendTarget>, idx: seq<nat>) {
    && |idx| == |bs| && Increasing(idx)
    && (forall i :: 0 <= i < |idx| ==> idx[i] < |refs| && PicksOne(cells, refs[idx[i]], bs[i]))
    && (forall k {:trigger k in idx} :: 0 <= k < |refs| && Resolves(cells, refs[k].cellRef) ==> k in idx)
  }

  predicate PicksOne(cells: map<string, Cell>, ref: BackendRef, b: BackendTarget) {
    Resolves(cells, ref.cellRef) && Serves(cells, ref, b)
  }

  /** Resolution keeps the order of the references and drops exactly those that do not resolve. */
  lemma {:induction false} ResolveIsSubsequence(cells: map<string, Cell>, refs: seq<BackendRef>)
    returns (idx: seq<nat>)
    ensures PicksReady(cells, refs, ResolveAll(cells, refs), idx)
  {
    if refs == [] {
      idx := [];
    } else {
      var n := |refs| - 1;
      var front := ResolveIsSubsequence(cells, refs[..n]);
      ResolvesIff(cells, refs[n]);
      var last := ResolveRef(cells, refs[n]);
      idx := front + (if last.Some? then [n] else []);
      PickNext(cells, refs, ResolveAll(cells, refs[..n]), front, last);
    }
  }

  lemma PickNext(cells: map<string, Cell>, refs: seq<BackendRef>, bs: seq<BackendTarget>, idx: seq<nat>,
                 last: Option<BackendTarget>)
    requires refs != [] && PicksReady(cells, refs[..|refs| - 1], bs, idx)
    requires last.Some? <==> Resolves(cells, refs[|refs| - 1].cellRef)
    requires last.Some? ==> Serves(cells, refs[|refs| - 1], last.value)
    ensures PicksReady(cells, refs, bs + (if last.Some? then [last.value] else []),
                       idx + (if last.Some? then [|refs| - 1] else []))
  {
    var n := |refs| - 1;
    var more := idx + (if last.Some? then [n] else []);
    forall k | 0 <= k < |refs| && Resolves(cells, refs[k].cellRef) ensures k in more {
      if k < n {
        assert refs[..n][k] == refs[k];
        assert k in idx;
      } else {
        assert more[|idx|] == n;
      }
    }
  }

  lemma {:induction false} ResolveConcat(cells: map<string, Cell>, a: seq<BackendRef>, b: seq<BackendRef>)
    ensures ResolveAll(cells, a + b) == ResolveAll(cells, a) + ResolveAll(cells, b)
  {
    if b == [] {
      assert a + b == a;
    } else {
      var n := |b| - 1;
      assert (a + b)[..|a + b| - 1] == a + b[..n] && (a + b)[|a + b| - 1] == b[n];
      ResolveConcat(cells, a, b[..n]);
    }
  }

  lemma ResolveOne(cells: map<string, Cell>, ref: BackendRef)
    ensures ResolveAll(cells, [ref]) == if ResolveRef(cells, ref).Some? then [ResolveRef(cells, ref).value] else []
  {
    assert [ref][..0] == [];
    assert ResolveAll(cells, [ref][..0]) == [];
  }

  // ----- builders

  function ObjectOf(b: BackendTarget): BackendObject {
    BackendObject(b.ns, b.name, b.port, b.weight)
  }

  function ParentsOf(router: RouterId, listeners: seq<string>): seq<ParentRef> {
    if listeners == [] then [ParentRef(router.gatewayName, router.gatewayNs, None)]
    else Sorting.Map((l: string) => ParentRef(router.gatewayName, router.gatewayNs, Some(l)), listeners)
  }

  function HttpSpecOf(router: RouterId, spec: RouteSpec, backends: seq<BackendTarget>): HttpSpec {
    HttpSpec(ParentsOf(router, spec.listenerNames), spec.hostnames, BuildMatches(spec), Sorting.Map(ObjectOf, backends))
  }

  // ----- what a written route says, field by field

  /** Every parent is the gateway; the sections are the listeners in order, or one parent has none. */
  predicate ParentsSay(ps: seq<ParentRef>, router: RouterId, listeners: seq<string>) {
    && (forall i :: 0 <= i < |ps| ==> ps[i].name == router.gatewayName && ps[i].ns == router.gatewayNs)
    && (listeners == [] ==> |ps| == 1 && ps[0].section.None?)
    && (listeners != [] ==> |ps| == |listeners| && forall i :: 0 <= i < |ps| ==> ps[i].section == Some(listeners[i]))
  }

  /** A catch-all exactly for a specification without any match; otherwise one match with all of them. */
  predicate MatchesSay(ms: seq<RouteMatch>, spec: RouteSpec) {
    && (ms == [] <==> spec.pathMatch.None? && spec.headerMatches == [] && spec.queryMatches == [])
    && (ms != [] ==> && |ms| == 1 && ms[0].path == spec.pathMatch && ms[0].headers == spec.headerMatches
                     && ms[0].queryParams == spec.queryMatches)
  }

  predicate BackendsSay(os: seq<BackendObject>, bs: seq<BackendTarget>) {
    && |os| == |bs|
    && forall i :: 0 <= i < |os| ==>
      os[i].ns == bs[i].ns && os[i].name == bs[i].name && os[i].port == bs[i].port && os[i].weight == bs[i].weight
  }

  predicate SpecSays(r: HttpSpec, router: RouterId, spec: RouteSpec, bs: seq<BackendTarget>) {
    && r.hostnames == spec.hostnames
    && ParentsSay(r.parents, router, spec.listenerNames)
    && MatchesSay(r.matches, spec)
    && BackendsSay(r.backends, bs)
  }

  /** The labels name the operator, the router, the primary cell and the placement, if there is one. */
  predicate LabelsSay(labels: Labels, router: RouterId, plan: RoutePlan) {
    && Labelled(labels, router)
    && CELL_NAME in labels && labels[CELL_NAME] == plan.spec.cellRef
    && (plan.placement.Some? && plan.placement.value.name != "" ==>
          PLACEMENT_NAME in labels && labels[PLACEMENT_NAME] == plan.placement.value.name)
  }

  lemma HttpSpecSays(router: RouterId, spec: RouteSpec, bs: seq<BackendTarget>)
    ensures SpecSays(HttpSpecOf(router, spec, bs), router, spec, bs)
  {
  }

  lemma BackendOf(r: HttpSpec, router: RouterId, spec: RouteSpec, bs: seq<BackendTarget>, b: BackendObject)
    returns (j: nat)
    requires SpecSays(r, router, spec, bs) && b in r.backends
    ensures j < |bs| && b == ObjectOf(bs[j])
  {
    j :| 0 <= j < |bs| && r.backends[j] == b;
  }

  /** The state `MutateHTTPRoute` and the controller reference impose. */
  datatype RouteValue = RouteValue(labels: Labels, uid: string, spec: HttpSpec)

  datatype GrantValue = GrantValue(labels: Labels, annotations: Labels, uid: string, from: seq<string>, to: seq<string>)

  function RouterLabels(router: RouterId, cellRef: string): Labels {
    map[MANAGED_BY := OPERATOR, ROUTER_NAME := router.name, CELL_NAME := cellRef]
  }

  function PutRoute(was: Option<Route>, v: RouteValue): Route {
    match was
    case None => Route(Merged(map[], v.labels, {}), Some(v.uid), v.spec, [])
    case Some(r) => Route(Merged(r.labels, v.labels, {}), Some(v.uid), v.spec, r.status)
  }

  function PutGrant(was: Option<Grant>, v: GrantValue): Grant {
    match was
    case None => Grant(Merged(map[], v.labels, {}), Merged(map[], v.annotations, {}), Some(v.uid), v.from, v.to)
    case Some(g) =>
      Grant(Merged(g.labels, v.labels, {}), Merged(g.annotations, v.annotations, {}), Some(v.uid), v.from, v.to)
  }

  // ----- grant names

  /** The route and Service a grant is for; its hash input. */
  datatype Triple = Triple(route: string, ns: string, name: string)

  /** The router, and the rendering `%08x` of its hash. */
  datatype Env = Env(router: RouterId, digest: string -> string)

  function TripleText(t: Triple): string {
    t.route + "/" + t.ns + "/" + t.name
  }

  /** Object names have no slash, so different triples are hashed from different texts. */
  lemma TripleTextInjective(t: Triple, u: Triple)
    requires '/' !in t.route && '/' !in t.ns && '/' !in u.route && '/' !in u.ns && TripleText(t) == TripleText(u)
    ensures t == u
  {
    assert TripleText(t) == t.route + "/" + (t.ns + "/" + t.name);
    assert TripleText(u) == u.route + "/" + (u.ns + "/" + u.name);
    AtFirst('/', t.route, t.ns + "/" + t.name, u.route, u.ns + "/" + u.name);
    AtFirst('/', t.ns, t.name, u.ns, u.name);
  }

  function GrantName(env: Env, t: Triple): string {
    t.route + "-" + env.digest(TripleText(t)) + "-backend"
  }

  function GrantKey(env: Env, t: Triple): Key {
    Key(t.ns, GrantName(env, t))
  }

  /** The hash is eight characters wide and does not collide on the triples in play. */
  predicate NoCollision(env: Env, triples: set<Triple>) {
    && (forall t :: t in triples ==> |env.digest(TripleText(t))| == 8)
    && (forall t, u :: t in triples && u in triples && env.digest(TripleText(t)) == env.digest(TripleText(u)) ==>
        t == u)
  }

  /** The hash has a fixed width, so equal names mean equal routes and equal hashes. */
  lemma GrantNameInjective(env: Env, triples: set<Triple>, t: Triple, u: Triple)
    requires NoCollision(env, triples) && t in triples && u in triples && GrantName(env, t) == GrantName(env, u)
    ensures t == u
  {
    SameSuffix(t.route, env.digest(TripleText(t)), u.route, env.digest(TripleText(u)));
  }

  lemma SameSuffix(a: string, d: string, b: string, e: string)
    requires |d| == |e| == 8 && a + "-" + d + "-backend" == b + "-" + e + "-backend"
    ensures d == e
  {
    var s := a + "-" + d + "-backend";
    assert |a| == |b|;
    assert d == s[|a| + 1..|a| + 9] && e == s[|b| + 1..|b| + 9];
  }

  function GrantTriple(route: string, b: BackendObject): Triple {
    Triple(route, b.ns, b.name)
  }

  function GrantWrite(env: Env, route: string, b: BackendTarget): Write<GrantValue> {
    Write(GrantKey(env, GrantTriple(route, ObjectOf(b))),
          GrantValue(RouterLabels(env.router, b.cellRef), map[ROUTE_NAME := route], env.router.uid,
                     [env.router.gatewayNs], [b.name]))
  }

  /** A plan with the backends it resolved to. */
  datatype Materialized = Materialized(plan: RoutePlan, backends: seq<BackendTarget>)

  function RouteWrite(env: Env, m: Materialized): Write<RouteValue> {
    var base := RouterLabels(env.router, m.plan.spec.cellRef);
    var labels := if m.plan.placement.Some? && m.plan.placement.value.name != ""
                  then base[PLACEMENT_NAME := m.plan.placement.value.name] else base;
    Write(Key(env.router.gatewayNs, m.plan.name),
          RouteValue(labels, env.router.uid, HttpSpecOf(env.router, m.plan.spec, m.backends)))
  }

  // ----- cluster states

  predicate Labelled(labels: Labels, router: RouterId) {
    && MANAGED_BY in labels && labels[MANAGED_BY] == OPERATOR
    && ROUTER_NAME in labels && labels[ROUTER_NAME] == router.name
  }

  predicate Managed(r: Route, router: RouterId) {
    Labelled(r.labels, router) && r.owner == Some(router.uid)
  }

  predicate Permits(g: Grant, ns: string, service: string) {
    ns in g.from && service in g.to
  }

  /** A backend of a route may be referred to: the grant named for it permits it. */
  predicate Granted(w: World, env: Env, route: string, b: BackendObject) {
    var k := GrantKey(env, GrantTriple(route, b));
    k in w.grants && Permits(w.grants[k], env.router.gatewayNs, b.name)
  }

  /** Every route labelled for and controlled by the router lives in the gateway namespace, and each of
      its backends has a permitting grant in the backend's namespace. */
  predicate Covered(w: World, env: Env, triples: set<Triple>) {
    forall k :: k in w.routes && Managed(w.routes[k], env.router) ==> RouteCovered(w, env, triples, k, w.routes[k])
  }

  predicate RouteCovered(w: World, env: Env, triples: set<Triple>, k: Key, r: Route) {
    && k.ns == env.router.gatewayNs
    && forall b :: b in r.spec.backends ==> GrantTriple(k.name, b) in triples && Granted(w, env, k.name, b)
  }

  /** The backend is named by a grant that permits it, in the backend's own namespace. */
  lemma CoveredPermits(w: World, env: Env, triples: set<Triple>, k: Key, b: BackendObject)
    requires Covered(w, env, triples) && k in w.routes && Managed(w.routes[k], env.router)
    requires b in w.routes[k].spec.backends
    ensures exists g :: g in w.grants && g.ns == b.ns && Permits(w.grants[g], k.ns, b.name)
  {
    assert RouteCovered(w, env, triples, k, w.routes[k]);
    assert GrantKey(env, GrantTriple(k.name, b)) in w.grants;
  }

  function WithGrant(w: World, env: Env, route: string, b: BackendTarget): World {
    w.(grants := Apply(w.grants, GrantWrite(env, route, b), PutGrant))
  }

  function WithRoute(w: World, env: Env, m: Materialized): World {
    w.(routes := Apply(w.routes, RouteWrite(env, m), PutRoute))
  }

  function DropRoutes(w: World, ks: set<Key>): World {
    w.(routes := w.routes - ks)
  }

  function DropGrants(w: World, ks: set<Key>): World {
    w.(grants := w.grants - ks)
  }

  lemma GrantStep(w: World, env: Env, triples: set<Triple>, route: string, b: BackendTarget)
    requires NoCollision(env, triples) && GrantTriple(route, ObjectOf(b)) in triples
    ensures Granted(WithGrant(w, env, route, b), env, route, ObjectOf(b))
    ensures forall r, c :: GrantTriple(r, c) in triples && Granted(w, env, r, c) ==>
      Granted(WithGrant(w, env, route, b), env, r, c)
  {
    var w', t := WithGrant(w, env, route, b), GrantTriple(route, ObjectOf(b));
    forall r, c | GrantTriple(r, c) in triples && Granted(w, env, r, c) ensures Granted(w', env, r, c) {
      if GrantKey(env, GrantTriple(r, c)) == GrantKey(env, t) {
        GrantNameInjective(env, triples, GrantTriple(r, c), t);
      }
    }
  }

  /** Writing a grant takes nothing away from a covered route. */
  lemma GrantStepCovered(w: World, env: Env, triples: set<Triple>, route: string, b: BackendTarget)
    requires NoCollision(env, triples) && GrantTriple(route, ObjectOf(b)) in triples && Covered(w, env, triples)
    ensures Covered(WithGrant(w, env, route, b), env, triples)
  {
    GrantStep(w, env, triples, route, b);
    var w' := WithGrant(w, env, route, b);
    forall k | k in w'.routes && Managed(w'.routes[k], env.router)
      ensures RouteCovered(w', env, triples, k, w'.routes[k])
    {
      assert RouteCovered(w, env, triples, k, w.routes[k]);
    }
  }

  predicate AllGranted(w: World, env: Env, triples: set<Triple>, route: string, bs: seq<BackendTarget>) {
    forall i :: 0 <= i < |bs| ==>
      GrantTriple(route, ObjectOf(bs[i])) in triples && Granted(w, env, route, ObjectOf(bs[i]))
  }

  /** Writing a route whose backends are all granted. */
  lemma RouteStepCovered(w: World, env: Env, triples: set<Triple>, m: Materialized)
    requires Covered(w, env, triples) && AllGranted(w, env, triples, m.plan.name, m.backends)
    ensures Covered(WithRoute(w, env, m), env, triples)
  {
    var w', key := WithRoute(w, env, m), RouteWrite(env, m).key;
    forall k | k in w'.routes && Managed(w'.routes[k], env.router)
      ensures RouteCovered(w', env, triples, k, w'.routes[k])
    {
      if k == key {
        forall b | b in w'.routes[k].spec.backends
          ensures GrantTriple(k.name, b) in triples && Granted(w', env, k.name, b)
        {
          HttpSpecSays(env.router, m.plan.spec, m.backends);
          var i := BackendOf(w'.routes[k].spec, env.router, m.plan.spec, m.backends, b);
          assert Granted(w, env, k.name, b);
        }
      } else {
        assert RouteCovered(w, env, triples, k, w.routes[k]);
      }
    }
  }

  lemma DropRoutesCovered(w: World, env: Env, triples: set<Triple>, ks: set<Key>)
    requires Covered(w, env, triples)
    ensures Covered(DropRoutes(w, ks), env, triples)
  {
    var w' := DropRoutes(w, ks);
    forall k | k in w'.routes && Managed(w'.routes[k], env.router)
      ensures RouteCovered(w', env, triples, k, w'.routes[k])
    {
      assert RouteCovered(w, env, triples, k, w.routes[k]);
    }
  }

  /** No managed route needs a grant outside `names`. */
  predicate NeedsOnly(w: World, env: Env, names: set<string>) {
    forall k, b :: k in w.routes && Managed(w.routes[k], env.router) && b in w.routes[k].spec.backends ==>
      GrantName(env, GrantTriple(k.name, b)) in names
  }

  /** Grants that no managed route needs can go. */
  lemma DropGrantsCovered(w: World, env: Env, triples: set<Triple>, ks: set<Key>, names: set<string>)
    requires Covered(w, env, triples) && NeedsOnly(w, env, names) && forall k :: k in ks ==> k.name !in names
    ensures Covered(DropGrants(w, ks), env, triples)
  {
    var w' := DropGrants(w, ks);
    forall k | k in w'.routes && Managed(w'.routes[k], env.router)
      ensures RouteCovered(w', env, triples, k, w'.routes[k])
    {
      assert RouteCovered(w, env, triples, k, w.routes[k]);
      forall b | b in w'.routes[k].spec.backends ensures Granted(w', env, k.name, b) {
        assert GrantName(env, GrantTriple(k.name, b)) in names;
      }
    }
  }
}
