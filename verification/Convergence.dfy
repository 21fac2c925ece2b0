/**
 The cluster state a successful reconcile of the routes ends in, and that reconciling again from
 there changes nothing.
 */
module Convergence {
  import opened Basics
  import opened Overlay
  import opened Metadata
  import opened RoutePlans
  import opened RouterModel
  import Sorting

  function RouteWrites(env: Env, ms: seq<Materialized>): seq<Write<RouteValue>> {
    Sorting.Map((m: Materialized) => RouteWrite(env, m), ms)
  }

  function GrantWritesOf(env: Env, route: string, bs: seq<BackendTarget>): seq<Write<GrantValue>> {
    Sorting.Map((b: BackendTarget) => GrantWrite(env, route, b), bs)
  }

  function GrantWrites(env: Env, ms: seq<Materialized>): seq<Write<GrantValue>> {
    if ms == [] then []
    else
      var last := ms[|ms| - 1];
      GrantWrites(env, ms[..|ms| - 1]) + GrantWritesOf(env, last.plan.name, last.backends)
  }

  function ExpectedRoutes(ms: seq<Materialized>): set<string> {
    set m | m in ms :: m.plan.name
  }

  function ExpectedGrants(env: Env, ms: seq<Materialized>): set<string> {
    set w | w in GrantWrites(env, ms) :: w.key.name
  }

  predicate StaleRoute(k: Key, r: Route, router: RouterId, names: set<string>) {
    k.ns == router.gatewayNs && Labelled(r.labels, router) && k.name !in names
  }

  predicate StaleGrant(k: Key, g: Grant, router: RouterId, names: set<string>) {
    Labelled(g.labels, router) && k.name !in names
  }

  function DropStaleRoutes(w: World, env: Env, names: set<string>): World {
    w.(routes := map k | k in w.routes && !StaleRoute(k, w.routes[k], env.router, names) :: w.routes[k])
  }

  function DropStaleGrants(w: World, env: Env, names: set<string>): World {
    w.(grants := map k | k in w.grants && !StaleGrant(k, w.grants[k], env.router, names) :: w.grants[k])
  }

  /** All grants and routes written, nothing deleted yet. */
  function Written(w: World, env: Env, ms: seq<Materialized>): World {
    w.(routes := Fold(w.routes, RouteWrites(env, ms), PutRoute),
       grants := Fold(w.grants, GrantWrites(env, ms), PutGrant))
  }

  /** Where a successful reconcile ends. */
  function Settled(w: World, env: Env, ms: seq<Materialized>): World {
    DropStaleGrants(DropStaleRoutes(Written(w, env, ms), env, ExpectedRoutes(ms)), env, ExpectedGrants(env, ms))
  }

  predicate DistinctPlans(ms: seq<Materialized>) {
    forall i, j :: 0 <= i < j < |ms| ==> ms[i].plan.name != ms[j].plan.name
  }

  // ----- later writes absorb earlier ones

  lemma MergeAbsorbs(dst: Labels, a: Labels, b: Labels)
    requires a.Keys <= b.Keys
    ensures Merged(Merged(dst, a, {}), b, {}) == Merged(dst, b, {})
  {
    assert a - {} == a && b - {} == b;
    assert (dst + a + b).Keys == (dst + b).Keys;
  }

  lemma RouteWritesAbsorb(env: Env, ms: seq<Materialized>)
    requires DistinctPlans(ms)
    ensures Absorbs(RouteWrites(env, ms), PutRoute)
  {
    var ws := RouteWrites(env, ms);
    forall i, j, o: Option<Route> | 0 <= i <= j < |ws| && ws[i].key == ws[j].key
      ensures PutRoute(Some(PutRoute(o, ws[i].value)), ws[j].value) == PutRoute(o, ws[j].value)
    {
      assert ws[i].key.name == ms[i].plan.name && ws[j].key.name == ms[j].plan.name;
      assert i == j;
      MergeAbsorbs(if o.Some? then o.value.labels else map[], ws[i].value.labels, ws[j].value.labels);
    }
  }

  predicate Uniform(v: GrantValue) {
    v.labels.Keys == {MANAGED_BY, ROUTER_NAME, CELL_NAME} && v.annotations.Keys == {ROUTE_NAME}
  }

  lemma {:induction false} GrantWritesUniform(env: Env, ms: seq<Materialized>)
    ensures forall w :: w in GrantWrites(env, ms) ==> Uniform(w.value)
  {
    if ms != [] {
      GrantWritesUniform(env, ms[..|ms| - 1]);
    }
  }

  lemma GrantWritesAbsorb(env: Env, ms: seq<Materialized>)
    ensures Absorbs(GrantWrites(env, ms), PutGrant)
  {
    var ws := GrantWrites(env, ms);
    GrantWritesUniform(env, ms);
    forall i, j, o: Option<Grant> | 0 <= i <= j < |ws| && ws[i].key == ws[j].key
      ensures PutGrant(Some(PutGrant(o, ws[i].value)), ws[j].value) == PutGrant(o, ws[j].value)
    {
      assert ws[i] in ws && ws[j] in ws;
      MergeAbsorbs(if o.Some? then o.value.labels else map[], ws[i].value.labels, ws[j].value.labels);
      MergeAbsorbs(if o.Some? then o.value.annotations else map[], ws[i].value.annotations, ws[j].value.annotations);
    }
  }

  // ----- running again changes nothing

  lemma RouteWriteExpected(env: Env, ms: seq<Materialized>, k: Key)
    requires Last(RouteWrites(env, ms), k).Some?
    ensures k.ns == env.router.gatewayNs && k.name in ExpectedRoutes(ms)
    ensures exists m :: m in ms && RouteWrite(env, m) == Write(k, Last(RouteWrites(env, ms), k).value)
  {
    var ws := RouteWrites(env, ms);
    var i :| 0 <= i < |ws| && ws[i].key == k && ws[i].value == Last(ws, k).value;
    assert ms[i] in ms && ws[i] == RouteWrite(env, ms[i]);
  }

  lemma GrantWriteExpected(env: Env, ms: seq<Materialized>, k: Key)
    requires Last(GrantWrites(env, ms), k).Some?
    ensures k.name in ExpectedGrants(env, ms)
  {
    var ws := GrantWrites(env, ms);
    var i :| 0 <= i < |ws| && ws[i].key == k;
    assert ws[i] in ws;
  }

  /** The routes a reconcile leaves, key by key. */
  lemma SettledRoute(w: World, env: Env, ms: seq<Materialized>, k: Key)
    requires DistinctPlans(ms)
    ensures Get(Settled(w, env, ms).routes, k) ==
            match Last(RouteWrites(env, ms), k)
            case Some(v) => Some(PutRoute(Get(w.routes, k), v))
            case None => KeptRoute(w, env, ms, k)
  {
    RouteWritesAbsorb(env, ms);
    FoldAt(w.routes, RouteWrites(env, ms), PutRoute, k);
    DroppedRoute(Written(w, env, ms), env, ExpectedRoutes(ms), k);
    if Last(RouteWrites(env, ms), k).Some? {
      RouteWriteExpected(env, ms, k);
    }
  }

  /** What is left of a route that is not written. */
  function KeptRoute(w: World, env: Env, ms: seq<Materialized>, k: Key): Option<Route> {
    if k in w.routes && !StaleRoute(k, w.routes[k], env.router, ExpectedRoutes(ms)) then Some(w.routes[k]) else None
  }

  lemma DroppedRoute(w: World, env: Env, names: set<string>, k: Key)
    ensures Get(DropStaleRoutes(w, env, names).routes, k) ==
            if k in w.routes && !StaleRoute(k, w.routes[k], env.router, names) then Some(w.routes[k]) else None
  {
  }

  /** The grants a reconcile leaves, key by key. */
  lemma SettledGrant(w: World, env: Env, ms: seq<Materialized>, k: Key)
    ensures Get(Settled(w, env, ms).grants, k) ==
            match Last(GrantWrites(env, ms), k)
            case Some(v) => Some(PutGrant(Get(w.grants, k), v))
            case None =>
              if k in w.grants && !StaleGrant(k, w.grants[k], env.router, ExpectedGrants(env, ms))
              then Some(w.grants[k]) else None
  {
    GrantWritesAbsorb(env, ms);
    FoldAt(w.grants, GrantWrites(env, ms), PutGrant, k);
    if Last(GrantWrites(env, ms), k).Some? {
      GrantWriteExpected(env, ms, k);
    }
  }

  lemma PutRouteTwice(o: Option<Route>, v: RouteValue)
    ensures PutRoute(Some(PutRoute(o, v)), v) == PutRoute(o, v)
  {
    MergeAbsorbs(if o.Some? then o.value.labels else map[], v.labels, v.labels);
  }

  lemma PutGrantTwice(o: Option<Grant>, v: GrantValue)
    ensures PutGrant(Some(PutGrant(o, v)), v) == PutGrant(o, v)
  {
    MergeAbsorbs(if o.Some? then o.value.labels else map[], v.labels, v.labels);
    MergeAbsorbs(if o.Some? then o.value.annotations else map[], v.annotations, v.annotations);
  }

  /** A run that stops before its cleanups and is repeated writes nothing new. */
  lemma WrittenIdempotent(w: World, env: Env, ms: seq<Materialized>)
    requires DistinctPlans(ms)
    ensures Written(Written(w, env, ms), env, ms) == Written(w, env, ms)
  {
    RouteWritesAbsorb(env, ms);
    GrantWritesAbsorb(env, ms);
    FoldIdempotent(w.routes, RouteWrites(env, ms), PutRoute);
    FoldIdempotent(w.grants, GrantWrites(env, ms), PutGrant);
  }

  /** A second successful reconcile on the same specifications and cells changes no route and no grant. */
  lemma SettledIdempotent(w: World, env: Env, ms: seq<Materialized>)
    requires DistinctPlans(ms)
    ensures Settled(Settled(w, env, ms), env, ms) == Settled(w, env, ms)
  {
    var once := Settled(w, env, ms);
    var twice := Settled(once, env, ms);
    forall k ensures Get(twice.routes, k) == Get(once.routes, k) {
      SettledRoute(w, env, ms, k);
      SettledRoute(once, env, ms, k);
      if Last(RouteWrites(env, ms), k).Some? {
        PutRouteTwice(Get(w.routes, k), Last(RouteWrites(env, ms), k).value);
      }
    }
    SameStore(twice.routes, once.routes);
    forall k ensures Get(twice.grants, k) == Get(once.grants, k) {
      SettledGrant(w, env, ms, k);
      SettledGrant(once, env, ms, k);
      if Last(GrantWrites(env, ms), k).Some? {
        PutGrantTwice(Get(w.grants, k), Last(GrantWrites(env, ms), k).value);
      }
    }
    SameStore(twice.grants, once.grants);
  }

  // ----- exactly the desired objects remain

  lemma {:induction false} LastOfDistinct(env: Env, ms: seq<Materialized>, m: Materialized)
    requires DistinctPlans(ms) && m in ms
    ensures Last(RouteWrites(env, ms), RouteWrite(env, m).key) == Some(RouteWrite(env, m).value)
  {
    var ws, k := RouteWrites(env, ms), RouteWrite(env, m).key;
    var i :| 0 <= i < |ms| && ms[i] == m;
    assert ws[i] == RouteWrite(env, m);
    var j :| 0 <= j < |ws| && ws[j].key == k && ws[j].value == Last(ws, k).value;
    assert ws[j] == RouteWrite(env, ms[j]) && ms[j].plan.name == m.plan.name;
    assert i == j;
  }

  /** The route is the router's and says what the plan and its backends ask for. */
  predicate IsRouteOf(r: Route, env: Env, m: Materialized) {
    && r.owner == Some(env.router.uid)
    && SpecSays(r.spec, env.router, m.plan.spec, m.backends)
    && LabelsSay(r.labels, env.router, m.plan)
  }

  /** The route is what some plan asks for. */
  predicate Desired(r: Route, env: Env, ms: seq<Materialized>, name: string) {
    exists m :: m in ms && m.plan.name == name && IsRouteOf(r, env, m)
  }

  /** After a successful reconcile the labelled routes of the gateway namespace are exactly the plans
      with a backend, owned by the router and with the desired specification. */
  lemma ExactRoutes(w: World, env: Env, ms: seq<Materialized>, k: Key)
    requires DistinctPlans(ms) && k.ns == env.router.gatewayNs
    ensures var r := Settled(w, env, ms).routes;
      && (k in r && Labelled(r[k].labels, env.router) <==> k.name in ExpectedRoutes(ms))
      && (k.name in ExpectedRoutes(ms) ==> Desired(r[k], env, ms, k.name))
  {
    if k.name in ExpectedRoutes(ms) {
      ExpectedIsThere(w, env, ms, k);
    } else {
      UnexpectedIsGone(w, env, ms, k);
    }
  }

  lemma MergedLabelsSay(dst: Labels, env: Env, m: Materialized)
    ensures LabelsSay(Merged(dst, RouteWrite(env, m).value.labels, {}), env.router, m.plan)
  {
    var v := RouteWrite(env, m).value.labels;
    assert v - {} == v;
  }

  lemma PutIsDesired(o: Option<Route>, env: Env, ms: seq<Materialized>, m: Materialized)
    requires m in ms
    ensures var r := PutRoute(o, RouteWrite(env, m).value);
      Labelled(r.labels, env.router) && Desired(r, env, ms, m.plan.name)
  {
    MergedLabelsSay(if o.Some? then o.value.labels else map[], env, m);
    HttpSpecSays(env.router, m.plan.spec, m.backends);
    assert IsRouteOf(PutRoute(o, RouteWrite(env, m).value), env, m);
  }

  lemma ExpectedIsThere(w: World, env: Env, ms: seq<Materialized>, k: Key)
    requires DistinctPlans(ms) && k.ns == env.router.gatewayNs && k.name in ExpectedRoutes(ms)
    ensures var r := Settled(w, env, ms).routes;
      k in r && Labelled(r[k].labels, env.router) && Desired(r[k], env, ms, k.name)
  {
    SettledRoute(w, env, ms, k);
    var m :| m in ms && m.plan.name == k.name;
    LastOfDistinct(env, ms, m);
    assert k == RouteWrite(env, m).key;
    PutIsDesired(Get(w.routes, k), env, ms, m);
    assert Get(Settled(w, env, ms).routes, k).Some?;
  }

  lemma UnexpectedIsGone(w: World, env: Env, ms: seq<Materialized>, k: Key)
    requires DistinctPlans(ms) && k.ns == env.router.gatewayNs && k.name !in ExpectedRoutes(ms)
    ensures var r := Settled(w, env, ms).routes; !(k in r && Labelled(r[k].labels, env.router))
  {
    SettledRoute(w, env, ms, k);
    if Last(RouteWrites(env, ms), k).Some? {
      RouteWriteExpected(env, ms, k);
    }
    var r := Settled(w, env, ms).routes;
    assert k in r ==> Get(r, k) == Some(r[k]);
  }

  /** Every labelled grant is named for a route and Service in its own namespace. */
  ghost predicate WellNamed(w: World, env: Env, triples: set<Triple>) {
    forall k :: k in w.grants && Labelled(w.grants[k].labels, env.router) ==>
      exists t :: t in triples && GrantKey(env, t) == k
  }

  predicate DesiredGrant(env: Env, ms: seq<Materialized>, t: Triple) {
    exists i, j :: 0 <= i < |ms| && 0 <= j < |ms[i].backends| &&
      t == GrantTriple(ms[i].plan.name, ObjectOf(ms[i].backends[j]))
  }

  lemma {:induction false} GrantWriteSource(env: Env, ms: seq<Materialized>, w: Write<GrantValue>)
    returns (i: nat, j: nat)
    requires w in GrantWrites(env, ms)
    ensures i < |ms| && j < |ms[i].backends| && w == GrantWrite(env, ms[i].plan.name, ms[i].backends[j])
    ensures DesiredGrant(env, ms, GrantTriple(ms[i].plan.name, ObjectOf(ms[i].backends[j])))
  {
    var n := |ms| - 1;
    var last := ms[n];
    if w in GrantWritesOf(env, last.plan.name, last.backends) {
      i := n;
      j :| 0 <= j < |last.backends| && GrantWritesOf(env, last.plan.name, last.backends)[j] == w;
    } else {
      i, j := GrantWriteSource(env, ms[..n], w);
      assert ms[..n][i] == ms[i];
    }
  }

  lemma {:induction false} GrantWriteExists(env: Env, ms: seq<Materialized>, i: nat, j: nat)
    requires i < |ms| && j < |ms[i].backends|
    ensures GrantWrite(env, ms[i].plan.name, ms[i].backends[j]) in GrantWrites(env, ms)
  {
    var n := |ms| - 1;
    if i == n {
      var m := ms[n];
      assert GrantWritesOf(env, m.plan.name, m.backends)[j] == GrantWrite(env, m.plan.name, m.backends[j]);
    } else {
      GrantWriteExists(env, ms[..n], i, j);
    }
  }

  lemma DesiredGrantStays(env: Env, ms: seq<Materialized>, t: Triple)
    requires DesiredGrant(env, ms, t)
    ensures Last(GrantWrites(env, ms), GrantKey(env, t)).Some?
  {
    var i, j :| 0 <= i < |ms| && 0 <= j < |ms[i].backends| &&
      t == GrantTriple(ms[i].plan.name, ObjectOf(ms[i].backends[j]));
    GrantWriteExists(env, ms, i, j);
    var x := GrantWrite(env, ms[i].plan.name, ms[i].backends[j]);
    assert x in GrantWrites(env, ms) && x.key == GrantKey(env, t);
  }

  /** The grant is the router's, names its route and cell, and permits exactly HTTPRoutes of the gateway
      namespace to refer to exactly the backend's Service. */
  predicate GrantSays(g: Grant, env: Env, route: string, b: BackendTarget) {
    && g.owner == Some(env.router.uid) && Labelled(g.labels, env.router)
    && CELL_NAME in g.labels && g.labels[CELL_NAME] == b.cellRef
    && ROUTE_NAME in g.annotations && g.annotations[ROUTE_NAME] == route
    && g.from == [env.router.gatewayNs] && g.to == [b.name]
  }

  /** The grant under this key is that of a desired backend. */
  predicate GrantFor(g: Grant, env: Env, ms: seq<Materialized>, k: Key) {
    exists i, j :: 0 <= i < |ms| && 0 <= j < |ms[i].backends| &&
      GrantKey(env, GrantTriple(ms[i].plan.name, ObjectOf(ms[i].backends[j]))) == k &&
      GrantSays(g, env, ms[i].plan.name, ms[i].backends[j])
  }

  lemma PutGrantSays(o: Option<Grant>, env: Env, route: string, b: BackendTarget)
    ensures GrantSays(PutGrant(o, GrantWrite(env, route, b).value), env, route, b)
  {
    var v := GrantWrite(env, route, b).value;
    assert v.labels - {} == v.labels && v.annotations - {} == v.annotations;
  }

  lemma WrittenGrantSays(w: World, env: Env, ms: seq<Materialized>, k: Key)
    requires Last(GrantWrites(env, ms), k).Some?
    ensures exists t :: DesiredGrant(env, ms, t) && GrantKey(env, t) == k
    ensures k in Settled(w, env, ms).grants && GrantFor(Settled(w, env, ms).grants[k], env, ms, k)
  {
    SettledGrant(w, env, ms, k);
    var g, ws := Settled(w, env, ms).grants, GrantWrites(env, ms);
    var x :| 0 <= x < |ws| && ws[x].key == k && ws[x].value == Last(ws, k).value;
    assert ws[x] in ws;
    var i, j := GrantWriteSource(env, ms, ws[x]);
    PutGrantSays(Get(w.grants, k), env, ms[i].plan.name, ms[i].backends[j]);
    assert Get(g, k).Some?;
  }

  lemma WrittenIfNamed(env: Env, ms: seq<Materialized>, triples: set<Triple>, t: Triple, k: Key)
    requires NoCollision(env, triples) && (forall t :: DesiredGrant(env, ms, t) ==> t in triples)
    requires t in triples && GrantKey(env, t) == k && k.name in ExpectedGrants(env, ms)
    ensures Last(GrantWrites(env, ms), k).Some?
  {
    var x :| x in GrantWrites(env, ms) && x.key.name == k.name;
    var i, j := GrantWriteSource(env, ms, x);
    var u := GrantTriple(ms[i].plan.name, ObjectOf(ms[i].backends[j]));
    GrantNameInjective(env, triples, t, u);
    DesiredGrantStays(env, ms, u);
  }

  /** After a successful reconcile the labelled grants are exactly those of the desired backends, and each says
      what its backend needs. */
  lemma ExactGrants(w: World, env: Env, ms: seq<Materialized>, triples: set<Triple>, k: Key)
    requires WellNamed(w, env, triples) && NoCollision(env, triples)
    requires forall t :: DesiredGrant(env, ms, t) ==> t in triples
    ensures var g := Settled(w, env, ms).grants;
      && (k in g && Labelled(g[k].labels, env.router) <==>
          exists t :: DesiredGrant(env, ms, t) && GrantKey(env, t) == k)
      && (k in g && Labelled(g[k].labels, env.router) ==> GrantFor(g[k], env, ms, k))
  {
    var g, ws := Settled(w, env, ms).grants, GrantWrites(env, ms);
    if t :| DesiredGrant(env, ms, t) && GrantKey(env, t) == k {
      DesiredGrantStays(env, ms, t);
    }
    if Last(ws, k).Some? {
      WrittenGrantSays(w, env, ms, k);
    } else if k in g && Labelled(g[k].labels, env.router) {
      SettledGrant(w, env, ms, k);
      assert Get(g, k) == Some(g[k]) && k in w.grants && g[k] == w.grants[k];
      var t :| t in triples && GrantKey(env, t) == k;
      WrittenIfNamed(env, ms, triples, t, k);
    }
  }
}
