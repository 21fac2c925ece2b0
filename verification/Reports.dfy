/**
 What a reconcile reports: whether a route is ready, one status entry per static route and per
 placement, and when the router asks to be run again.
 */
module Reports {
  import opened Basics
  import opened Overlay
  import opened Placements
  import opened PlacementCompiler
  import opened RoutePlans
  import opened CellController
  import opened RouterModel
  import opened Convergence
  import opened Safety
  import Sorting

  const ACCEPTED := "Accepted"
  const RESOLVED_REFS := "ResolvedRefs"

  datatype RouteStatus = RouteStatus(
    name: string,
    listenerNames: seq<string>,
    cellRef: string,
    backendRefs: seq<string>,
    placementRef: string)

  datatype Report = Report(allReady: bool, needsRequeue: bool, statuses: seq<RouteStatus>)

  // ----- readiness of a route

  /** The parent is the router's gateway, accepts the route, and does not report its references unresolved. */
  predicate ParentReady(p: ParentStatus, gatewayName: string, gatewayNs: string) {
    && p.name == gatewayName && (p.ns.Some? ==> p.ns.value == gatewayNs)
    && RouteCondition(ACCEPTED, true) in p.conditions
    && (RouteCondition(RESOLVED_REFS, false) in p.conditions ==> RouteCondition(RESOLVED_REFS, true) in p.conditions)
  }

  predicate RouteReady(parents: seq<ParentStatus>, gatewayName: string, gatewayNs: string) {
    exists i :: 0 <= i < |parents| && ParentReady(parents[i], gatewayName, gatewayNs)
  }

  /** `isRouteReady`. */
  method IsRouteReady(parents: seq<ParentStatus>, gatewayName: string, gatewayNs: string) returns (ready: bool)
    ensures ready <==> RouteReady(parents, gatewayName, gatewayNs)
  {
    for i := 0 to |parents|
      invariant forall k :: 0 <= k < i ==> !ParentReady(parents[k], gatewayName, gatewayNs)
    {
      var p := parents[i];
      if p.name != gatewayName || (p.ns.Some? && p.ns.value != gatewayNs) {
        continue;
      }
      var accepted, resolved, resolvedSeen := false, false, false;
      for j := 0 to |p.conditions|
        invariant accepted <==> RouteCondition(ACCEPTED, true) in p.conditions[..j]
        invariant resolved <==> RouteCondition(RESOLVED_REFS, true) in p.conditions[..j]
        invariant resolvedSeen <==> resolved || RouteCondition(RESOLVED_REFS, false) in p.conditions[..j]
      {
        var c := p.conditions[j];
        assert p.conditions[..j + 1] == p.conditions[..j] + [c];
        if c.kind == ACCEPTED {
          accepted := accepted || c.isTrue;
        } else if c.kind == RESOLVED_REFS {
          resolvedSeen := true;
          resolved := resolved || c.isTrue;
        }
      }
      assert p.conditions[..|p.conditions|] == p.conditions;
      if accepted && (!resolvedSeen || resolved) {
        return true;
      }
    }
    return false;
  }

  // ----- statuses

  function PlacementRef(plan: RoutePlan): string {
    if plan.placement.Some? then plan.placement.value.name else ""
  }

  function RefOf(b: BackendTarget): string {
    b.cellRef
  }

  function PlanStatus(cells: map<string, Cell>, plan: RoutePlan): RouteStatus {
    RouteStatus(plan.name, plan.spec.listenerNames, plan.spec.cellRef,
                Sorting.Map(RefOf, Resolved(cells, plan.spec)), PlacementRef(plan))
  }

  function PlanStatuses(cells: map<string, Cell>, plans: seq<RoutePlan>): seq<RouteStatus> {
    Sorting.Map((p: RoutePlan) => PlanStatus(cells, p), plans)
  }

  function InvalidStatus(name: string): RouteStatus {
    RouteStatus(name, [], "", [], name)
  }

  function InvalidStatuses(order: seq<string>): seq<RouteStatus> {
    Sorting.Map(InvalidStatus, order)
  }

  function StatusNames(statuses: seq<RouteStatus>): seq<string> {
    Sorting.Map((s: RouteStatus) => s.name, statuses)
  }

  function PlanNames(plans: seq<RoutePlan>): seq<string> {
    Sorting.Map((p: RoutePlan) => p.name, plans)
  }

  /** `order` visits the keys of `invalid`, each once. */
  ghost predicate Enumerates(order: seq<string>, invalid: set<string>) {
    Distinct(order) && forall x :: x in order <==> x in invalid
  }

  lemma MissingFront(names: seq<string>, outs: seq<Option<RoutePlan>>)
    requires |outs| == |names| > 0 && Distinct(names)
    ensures var n := |names| - 1;
      MissingNames(names, outs) - {names[n]} == MissingNames(names[..n], outs[..n]) &&
      (names[n] in MissingNames(names, outs) <==> outs[n].None?)
  {
  }

  lemma PresentLast(outs: seq<Option<RoutePlan>>, names: seq<string>)
    requires |outs| == |names| > 0 && NamedAfter(outs, names)
    ensures var n := |outs| - 1;
      PlanNames(Present(outs)) == PlanNames(Present(outs[..n])) + (if outs[n].Some? then [names[n]] else [])
  {
    var n := |outs| - 1;
    SplitNames(Present(outs[..n]), if outs[n].Some? then [outs[n].value] else []);
  }

  lemma NothingMissing(missing: seq<string>)
    requires Enumerates(missing, {})
    ensures missing == []
  {
    if missing != [] {
      HasFirst(missing);
    }
  }

  lemma HasFirst(s: seq<string>)
    requires s != []
    ensures s[0] in s
  {
  }

  lemma {:induction false} PresentNames(outs: seq<Option<RoutePlan>>, names: seq<string>, missing: seq<string>)
    requires |outs| == |names| && Distinct(names) && NamedAfter(outs, names)
    requires Enumerates(missing, MissingNames(names, outs))
    ensures multiset(PlanNames(Present(outs))) + multiset(missing) == multiset(names)
  {
    if outs == [] {
      NothingMissing(missing);
    } else {
      var n := |outs| - 1;
      MissingFront(names, outs);
      PresentLast(outs, names);
      assert names == names[..n] + [names[n]];
      if outs[n].Some? {
        PresentNames(outs[..n], names[..n], missing);
      } else {
        var i :| 0 <= i < |missing| && missing[i] == names[n];
        RemoveOne(missing, i, MissingNames(names, outs));
        PresentNames(outs[..n], names[..n], missing[..i] + missing[i + 1..]);
      }
    }
  }

  lemma RemoveOne(s: seq<string>, i: nat, all: set<string>)
    requires i < |s| && Enumerates(s, all)
    ensures Enumerates(s[..i] + s[i + 1..], all - {s[i]})
    ensures multiset(s) == multiset(s[..i] + s[i + 1..]) + multiset{s[i]}
  {
    var rest := s[..i] + s[i + 1..];
    assert s == s[..i] + [s[i]] + s[i + 1..];
    forall x ensures x in rest <==> x in all - {s[i]} {
      assert x in s <==> x in all;
      if x in rest {
        var j :| 0 <= j < |rest| && rest[j] == x;
        assert x == s[if j < i then j else j + 1];
      }
    }
  }

  /** Exactly one status entry per static route and per placement, in whatever order the invalid
      placements are visited. */
  lemma OneStatusEach(routes: seq<RouteSpec>, ps: seq<Placement>, cells: map<string, Cell>,
                      invalid: map<string, Reason>, order: seq<string>)
    requires Distinct(AllNames(routes, ps)) && InvalidFor(invalid, Names(ps), Outcomes(ps))
    requires Enumerates(order, invalid.Keys)
    ensures multiset(StatusNames(InvalidStatuses(order) + PlanStatuses(cells, AllPlans(routes, ps)))) ==
            multiset(AllNames(routes, ps))
  {
    var plans := AllPlans(routes, ps);
    DistinctTail(routes, ps);
    OutcomesNamed(ps);
    MissingAreInvalid(invalid, Names(ps), Outcomes(ps));
    PresentNames(Outcomes(ps), Names(ps), order);
    SplitNames(StaticPlans(routes), Present(Outcomes(ps)));
    assert PlanNames(StaticPlans(routes)) == RouteNames(routes);
    NamesOfStatuses(order, cells, plans);
  }

  lemma MissingAreInvalid(invalid: map<string, Reason>, names: seq<string>, outs: seq<Option<RoutePlan>>)
    requires |outs| == |names| && InvalidFor(invalid, names, outs)
    ensures invalid.Keys == MissingNames(names, outs)
  {
  }

  lemma SplitNames(a: seq<RoutePlan>, b: seq<RoutePlan>)
    ensures PlanNames(a + b) == PlanNames(a) + PlanNames(b)
  {
  }

  lemma NamesOfStatuses(order: seq<string>, cells: map<string, Cell>, plans: seq<RoutePlan>)
    ensures StatusNames(InvalidStatuses(order) + PlanStatuses(cells, plans)) == order + PlanNames(plans)
  {
    var a: seq<RouteStatus>, b: seq<RouteStatus> := InvalidStatuses(order), PlanStatuses(cells, plans);
    var all := order + PlanNames(plans);
    var names := StatusNames(a + b);
    assert |names| == |all|;
    forall i | 0 <= i < |all| ensures names[i] == all[i] {
      assert names[i] == (a + b)[i].name;
      if i < |order| {
        assert a[i] == InvalidStatus(order[i]);
      } else {
        assert b[i - |order|] == PlanStatus(cells, plans[i - |order|]);
        assert all[i] == plans[i - |order|].name;
      }
    }
  }

  // ----- requeue

  function StatusAt(w: World, k: Key): seq<ParentStatus> {
    if k in w.routes then w.routes[k].status else []
  }

  predicate ReadyAt(w: World, env: Env, route: string) {
    RouteReady(StatusAt(w, Key(env.router.gatewayNs, route)), env.router.gatewayName, env.router.gatewayNs)
  }

  /** The plan has no backend, or its route is not ready yet. */
  predicate Pending(w: World, env: Env, cells: map<string, Cell>, plan: RoutePlan) {
    || Resolved(cells, plan.spec) == []
    || !ReadyAt(w, env, plan.name)
  }

  predicate SomePending(w: World, env: Env, cells: map<string, Cell>, plans: seq<RoutePlan>) {
    exists i :: 0 <= i < |plans| && Pending(w, env, cells, plans[i])
  }

  lemma PendingNext(w: World, env: Env, cells: map<string, Cell>, plans: seq<RoutePlan>, i: nat)
    requires i < |plans|
    ensures SomePending(w, env, cells, plans[..i + 1]) <==>
            SomePending(w, env, cells, plans[..i]) || Pending(w, env, cells, plans[i])
  {
    var more, less := plans[..i + 1], plans[..i];
    assert more[i] == plans[i];
    if SomePending(w, env, cells, more) {
      var k :| 0 <= k < |more| && Pending(w, env, cells, more[k]);
      assert k < i ==> less[k] == more[k];
    }
    if SomePending(w, env, cells, less) {
      var k :| 0 <= k < |less| && Pending(w, env, cells, less[k]);
      assert less[k] == more[k];
    }
  }

  lemma StatusesNext(cells: map<string, Cell>, plans: seq<RoutePlan>, i: nat)
    requires i < |plans|
    ensures PlanStatuses(cells, plans[..i + 1]) == PlanStatuses(cells, plans[..i]) + [PlanStatus(cells, plans[i])]
  {
    assert plans[..i + 1] == plans[..i] + [plans[i]];
  }

  lemma PlanKeepsStatus(w: World, env: Env, m: Materialized, k: Key)
    ensures StatusAt(WithPlan(w, env, m), k) == StatusAt(w, k)
  {
  }

  /** Writes keep the status that the gateway implementation reported. */
  lemma {:induction false} StatusKept(w: World, env: Env, ms: seq<Materialized>, k: Key)
    ensures StatusAt(Written(w, env, ms), k) == StatusAt(w, k)
  {
    if ms == [] {
      assert RouteWrites(env, ms) == [];
    } else {
      var n := |ms| - 1;
      StatusKept(w, env, ms[..n], k);
      var rs := RouteWrites(env, ms);
      assert rs[..n] == RouteWrites(env, ms[..n]);
    }
  }

  // ----- what the plan loop accumulates

  datatype Tally = Tally(routes: set<string>, grants: set<string>, allReady: bool, needsRequeue: bool,
                         statuses: seq<RouteStatus>)

  /** The tally after the given plans, starting from `ready`. */
  predicate Tallies(t: Tally, w: World, env: Env, cells: map<string, Cell>, plans: seq<RoutePlan>, ready: bool) {
    && ExpectedBy(t, env, Mats(cells, plans))
    && t.statuses == PlanStatuses(cells, plans)
    && (t.needsRequeue <==> SomePending(w, env, cells, plans))
    && (t.allReady <==> ready && !t.needsRequeue)
  }

  predicate ExpectedBy(t: Tally, env: Env, ms: seq<Materialized>) {
    t.routes == ExpectedRoutes(ms) && t.grants == ExpectedGrants(env, ms)
  }

  /** One plan without backends, or with backends and a route that is ready or not. */
  function Count(t: Tally, env: Env, plan: RoutePlan, backends: seq<BackendTarget>, routeReady: bool): Tally {
    Tally(t.routes + (if backends == [] then {} else {plan.name}),
          t.grants + GrantNames(env, plan.name, backends),
          t.allReady && backends != [] && routeReady,
          t.needsRequeue || backends == [] || !routeReady,
          t.statuses + [RouteStatus(plan.name, plan.spec.listenerNames, plan.spec.cellRef,
                                    Sorting.Map(RefOf, backends), PlacementRef(plan))])
  }

  lemma NothingTallied(t: Tally, w: World, env: Env, cells: map<string, Cell>, ready: bool)
    requires t == Tally({}, {}, ready, false, [])
    ensures Tallies(t, w, env, cells, [], ready)
  {
    assert GrantWrites(env, []) == [];
  }

  lemma CountExpects(t: Tally, env: Env, ms: seq<Materialized>, plan: RoutePlan, bs: seq<BackendTarget>,
                     routeReady: bool)
    requires ExpectedBy(t, env, ms)
    ensures ExpectedBy(Count(t, env, plan, bs, routeReady), env, AppendMat(ms, plan, bs))
  {
    ExpectedNext(env, ms, plan, bs);
  }

  lemma CountKeeps(t: Tally, w: World, env: Env, cells: map<string, Cell>, plans: seq<RoutePlan>, i: nat, ready: bool,
                   bs: seq<BackendTarget>, routeReady: bool)
    requires i < |plans| && Tallies(t, w, env, cells, plans[..i], ready) && bs == Resolved(cells, plans[i].spec)
    requires bs != [] ==> routeReady == ReadyAt(w, env, plans[i].name)
    ensures Tallies(Count(t, env, plans[i], bs, routeReady), w, env, cells, plans[..i + 1], ready)
  {
    MatsNext(cells, plans, i);
    CountExpects(t, env, Mats(cells, plans[..i]), plans[i], bs, routeReady);
    StatusesNext(cells, plans, i);
    PendingNext(w, env, cells, plans, i);
  }

  // ----- the report of a successful run

  /** The entry names the plan, its listeners, its primary cell and its placement, if any, and the cells of the
      backends it is to have. */
  ghost predicate TellsPlan(s: RouteStatus, cells: map<string, Cell>, plan: RoutePlan) {
    && s.name == plan.name && s.listenerNames == plan.spec.listenerNames && s.cellRef == plan.spec.cellRef
    && (plan.placement.None? ==> s.placementRef == "")
    && (plan.placement.Some? ==> s.placementRef == plan.placement.value.name)
    && (NothingResolves(cells, plan.spec) ==> s.backendRefs == [])
    && (!NothingResolves(cells, plan.spec) ==> exists bs :: Chosen(cells, plan.spec, bs) && RefersTo(s.backendRefs, bs))
  }

  predicate RefersTo(refs: seq<string>, bs: seq<BackendTarget>) {
    |refs| == |bs| && forall i :: 0 <= i < |bs| ==> refs[i] == bs[i].cellRef
  }

  /** The entry names a placement without a plan, and nothing else. */
  predicate TellsInvalid(s: RouteStatus, name: string) {
    s.name == name && s.placementRef == name && s.listenerNames == [] && s.cellRef == "" && s.backendRefs == []
  }

  ghost predicate Told(s: RouteStatus, cells: map<string, Cell>, plans: seq<RoutePlan>, names: seq<string>,
                       outs: seq<Option<RoutePlan>>)
    requires |names| == |outs|
  {
    || (exists i :: 0 <= i < |plans| && TellsPlan(s, cells, plans[i]))
    || (exists k :: 0 <= k < |names| && outs[k].None? && TellsInvalid(s, names[k]))
  }

  lemma PlanStatusTells(cells: map<string, Cell>, plan: RoutePlan)
    ensures TellsPlan(PlanStatus(cells, plan), cells, plan)
  {
    var bs := Resolved(cells, plan.spec);
    ResolvedChosen(cells, plan.spec);
    assert RefersTo(PlanStatus(cells, plan).backendRefs, bs);
  }

  lemma AllTold(cells: map<string, Cell>, plans: seq<RoutePlan>, names: seq<string>, outs: seq<Option<RoutePlan>>,
                invalid: map<string, Reason>, order: seq<string>, i: nat)
    requires |names| == |outs| && InvalidFor(invalid, names, outs) && Enumerates(order, invalid.Keys)
    requires i < |order| + |plans|
    ensures Told((InvalidStatuses(order) + PlanStatuses(cells, plans))[i], cells, plans, names, outs)
  {
    if i < |order| {
      assert order[i] in order;
      var k :| 0 <= k < |names| && names[k] == order[i];
      assert TellsInvalid(InvalidStatuses(order)[i], names[k]);
    } else {
      PlanStatusTells(cells, plans[i - |order|]);
    }
  }

  /** One entry per static route and placement, with what is known of it; a requeue exactly when a plan is
      pending; ready exactly when none is and every placement is planned. */
  ghost predicate Accurate(report: Report, w: World, env: Env, cells: map<string, Cell>, routes: seq<RouteSpec>,
                     ps: seq<Placement>) {
    && multiset(StatusNames(report.statuses)) == multiset(AllNames(routes, ps))
    && (forall i :: 0 <= i < |report.statuses| ==>
        Told(report.statuses[i], cells, AllPlans(routes, ps), Names(ps), Outcomes(ps)))
    && (report.needsRequeue <==> SomePending(w, env, cells, AllPlans(routes, ps)))
    && (report.allReady <==> !report.needsRequeue && AllSome(Outcomes(ps)))
  }

  predicate AllSome(outs: seq<Option<RoutePlan>>) {
    forall k :: 0 <= k < |outs| ==> outs[k].Some?
  }

  lemma NoneInvalid(invalid: map<string, Reason>, names: seq<string>, outs: seq<Option<RoutePlan>>)
    requires |outs| == |names| && InvalidFor(invalid, names, outs)
    ensures invalid == map[] <==> AllSome(outs)
  {
    if invalid != map[] {
      var x :| x in invalid;
      var k :| 0 <= k < |names| && names[k] == x;
      assert outs[k].None?;
    }
    if k :| 0 <= k < |outs| && outs[k].None? {
      assert names[k] in invalid;
    }
  }

  lemma AccurateAll(report: Report, w: World, env: Env, cells: map<string, Cell>, routes: seq<RouteSpec>,
                    ps: seq<Placement>,
                   invalid: map<string, Reason>, order: seq<string>)
    requires Distinct(AllNames(routes, ps)) && InvalidFor(invalid, Names(ps), Outcomes(ps))
    requires Enumerates(order, invalid.Keys)
    requires report.statuses == InvalidStatuses(order) + PlanStatuses(cells, AllPlans(routes, ps))
    requires report.needsRequeue <==> SomePending(w, env, cells, AllPlans(routes, ps))
    requires report.allReady <==> !report.needsRequeue && invalid == map[]
    ensures Accurate(report, w, env, cells, routes, ps)
  {
    OneStatusEach(routes, ps, cells, invalid, order);
    forall i | 0 <= i < |report.statuses|
      ensures Told(report.statuses[i], cells, AllPlans(routes, ps), Names(ps), Outcomes(ps))
    {
      AllTold(cells, AllPlans(routes, ps), Names(ps), Outcomes(ps), invalid, order, i);
    }
    NoneInvalid(invalid, Names(ps), Outcomes(ps));
  }
}
