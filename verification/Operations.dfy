/**
 Whole histories: any interleaving of cell edits, cell reconciles, router reconciles with failing
 calls, status reports of the gateway implementation, and the deletion of the router.
 */
module Operations {
  import opened Basics
  import opened Overlay
  import opened Placements
  import opened PlacementCompiler
  import opened RoutePlans
  import CellController
  import opened RouterModel
  import opened Safety
  import opened RouterController

  type Cell = CellController.Cell

  datatype Op =
    | EditCell(name: string, spec: CellController.CellSpec)
    | RemoveCell(name: string)
    | RunCell(name: string, steps: CellController.Steps)
    | ReportRoute(key: Key, parents: seq<ParentStatus>)
    | RunRouter(routes: seq<RouteSpec>, ps: seq<Placement>, replies: seq<Reply>)
    | DeleteRouter

  /** The names in play over a history. */
  datatype Scope = Scope(routes: set<string>, namespaces: set<string>, services: set<string>)

  function Triples(s: Scope): set<Triple> {
    set r, n, v | r in s.routes && n in s.namespaces && v in s.services :: Triple(r, n, v)
  }

  predicate CellInScope(cell: Cell, s: Scope) {
    && CellController.EffectiveNamespace(cell) in s.namespaces
    && (cell.status.namespace == "" || cell.status.namespace in s.namespaces)
    && cell.spec.serviceName in s.services
  }

  predicate OpInScope(op: Op, s: Scope) {
    match op
    case EditCell(name, spec) => CellInScope(NewCell(name, spec), s)
    case RunRouter(routes, ps, _) => Schema(ps) && forall x :: x in AllNames(routes, ps) ==> x in s.routes
    case _ => true
  }

  function NewCell(name: string, spec: CellController.CellSpec): Cell {
    CellController.Cell(name, spec, CellController.CellStatus("", CellController.Unset, 0, []))
  }

  /** Cells are filed under their names, in scope, and those whose conditions read ready are among the
      admitted: the cells whose last stored reconcile found every step, the state and the endpoints in order. */
  ghost predicate CellsOk(cells: map<string, Cell>, s: Scope, admitted: set<string>) {
    forall n :: n in cells ==>
      cells[n].name == n && CellInScope(cells[n], s) && (CellController.Reported(cells[n]) ==> n in admitted)
  }

  ghost predicate AllGood(trace: seq<World>, env: Env, triples: set<Triple>) {
    forall i :: 0 <= i < |trace| ==> Good(trace[i], env, triples)
  }

  // ----- plans stay in scope

  lemma PlanNamed(routes: seq<RouteSpec>, ps: seq<Placement>, i: nat)
    requires i < |AllPlans(routes, ps)|
    ensures AllPlans(routes, ps)[i].name in AllNames(routes, ps)
  {
    var n := |routes|;
    if i < n {
      assert AllNames(routes, ps)[i] == AllPlans(routes, ps)[i].name;
    } else {
      var k := PresentIndex(Outcomes(ps), i - n);
      OutcomeName(ps, k);
      assert AllNames(routes, ps)[n + k] == AllPlans(routes, ps)[i].name;
    }
  }

  lemma ResolvedInScope(cells: map<string, Cell>, spec: RouteSpec, s: Scope, admitted: set<string>, i: nat)
    requires CellsOk(cells, s, admitted) && i < |Resolved(cells, spec)|
    ensures Resolved(cells, spec)[i].ns in s.namespaces && Resolved(cells, spec)[i].name in s.services
  {
    var bs := Resolved(cells, spec);
    ResolvedChosen(cells, spec);
    var ref := ChosenReady(cells, spec, bs, i);
    RefInScope(cells, ref, s, admitted, bs[i]);
  }

  lemma RefInScope(cells: map<string, Cell>, ref: BackendRef, s: Scope, admitted: set<string>, b: BackendTarget)
    requires CellsOk(cells, s, admitted) && PicksOne(cells, ref, b)
    ensures b.ns in s.namespaces && b.name in s.services
  {
    assert CellInScope(cells[ref.cellRef], s);
  }

  lemma PlansInPlay(cells: map<string, Cell>, plans: seq<RoutePlan>, s: Scope, admitted: set<string>)
    requires CellsOk(cells, s, admitted) && forall i :: 0 <= i < |plans| ==> plans[i].name in s.routes
    ensures InPlay(cells, plans, Triples(s))
  {
    forall i | 0 <= i < |plans| ensures PlanInPlay(cells, plans[i], Triples(s)) {
      var bs := Resolved(cells, plans[i].spec);
      forall b | b in bs ensures GrantTriple(plans[i].name, ObjectOf(b)) in Triples(s) {
        var j :| 0 <= j < |bs| && bs[j] == b;
        ResolvedInScope(cells, plans[i].spec, s, admitted, j);
      }
    }
  }

  lemma RunInPlay(cells: map<string, Cell>, routes: seq<RouteSpec>, ps: seq<Placement>, s: Scope, admitted: set<string>)
    requires CellsOk(cells, s, admitted) && forall x :: x in AllNames(routes, ps) ==> x in s.routes
    ensures InPlay(cells, AllPlans(routes, ps), Triples(s))
  {
    var plans := AllPlans(routes, ps);
    forall i | 0 <= i < |plans| ensures plans[i].name in s.routes {
      PlanNamed(routes, ps, i);
    }
    PlansInPlay(cells, plans, s, admitted);
  }

  // ----- histories

  /** A run that reconciled the routes, and the cells admitted when it ran. */
  datatype Moment = Moment(run: Run, admitted: set<string>)

  ghost predicate MomentOk(m: Moment, env: Env) {
    Reconciled(m.run, env) && ReadyAdmitted(m.run.cells, m.admitted)
  }

  ghost predicate ReadyAdmitted(cells: map<string, Cell>, admitted: set<string>) {
    forall n :: n in cells && CellController.IsTrafficReady(cells[n]) ==> n in admitted
  }

  predicate Serving(cell: Cell, b: BackendObject) {
    && !CellController.EffectiveState(cell.spec).Draining? && !CellController.EffectiveState(cell.spec).Disabled?
    && InNamespace(cell, b.ns) && b.name == cell.spec.serviceName && b.port == cell.spec.port
  }

  /** The backend belongs to a cell that is neither draining nor disabled and was last found in order. */
  predicate FromAdmitted(cells: map<string, Cell>, admitted: set<string>, b: BackendObject) {
    exists n :: n in cells && n in admitted && Serving(cells[n], b)
  }

  lemma ImplementsAdmitted(r: Route, env: Env, cells: map<string, Cell>, plans: seq<RoutePlan>, name: string,
                           admitted: set<string>, b: BackendObject)
    requires Implements(r, env, cells, plans, name) && ReadyAdmitted(cells, admitted) && b in r.spec.backends
    ensures FromAdmitted(cells, admitted, b)
  {
    var i: int, bs: seq<BackendTarget> :|
      0 <= i < |plans| && Chosen(cells, plans[i].spec, bs) && SpecSays(r.spec, env.router, plans[i].spec, bs);
    var j := BackendOf(r.spec, env.router, plans[i].spec, bs, b);
    var ref := ChosenReady(cells, plans[i].spec, bs, j);
    assert bs[j].cellRef in admitted && Serving(cells[bs[j].cellRef], b);
  }

  /** No managed route sends traffic anywhere but to cells that may have it. */
  lemma BackendsAdmitted(m: Moment, env: Env, k: Key, b: BackendObject)
    requires MomentOk(m, env) && k in m.run.now.routes && Managed(m.run.now.routes[k], env.router)
    requires b in m.run.now.routes[k].spec.backends
    ensures FromAdmitted(m.run.cells, m.admitted, b)
  {
    SoundAdmitted(m.run.now, env, m.run.cells, AllPlans(m.run.routes, m.run.ps), m.admitted, k, b);
  }

  lemma SoundAdmitted(w: World, env: Env, cells: map<string, Cell>, plans: seq<RoutePlan>, admitted: set<string>,
                      k: Key, b: BackendObject)
    requires Sound(w, env, cells, plans) && ReadyAdmitted(cells, admitted)
    requires k in w.routes && Managed(w.routes[k], env.router) && b in w.routes[k].spec.backends
    ensures FromAdmitted(cells, admitted, b)
  {
    ImplementsAdmitted(w.routes[k], env, cells, plans, k.name, admitted, b);
  }

  // ----- operations on cells

  function EditedCell(cells: map<string, Cell>, name: string, spec: CellController.CellSpec): Cell {
    if name in cells then cells[name].(spec := spec) else NewCell(name, spec)
  }

  /** What a cell reconcile stores. */
  predicate CellRun(was: Cell, now: Cell, steps: CellController.Steps) {
    && now.name == was.name && now.spec == was.spec
    && (now.status.namespace == was.status.namespace || now.status.namespace == CellController.EffectiveNamespace(was))
    && if steps.patchOk then CellController.Reported(now) <==> CellController.Admits(was.spec, steps) else now == was
  }

  /** How an operation changes the cells. */
  predicate CellsStep(op: Op, was: map<string, Cell>, now: map<string, Cell>) {
    match op
    case EditCell(name, spec) => now == was[name := EditedCell(was, name, spec)]
    case RemoveCell(name) => now == was - {name}
    case RunCell(name, steps) =>
      if name in was then name in now && now == was[name := now[name]] && CellRun(was[name], now[name], steps)
      else now == was
    case _ => now == was
  }

  /** The operation stores a verdict on the cell, or removes the cell. */
  predicate Decides(op: Op, cells: map<string, Cell>, n: string) {
    (op == RemoveCell(n)) || (op.RunCell? && op.name == n && n in cells && op.steps.patchOk)
  }

  /** The operation stores the verdict that the cell may have traffic. */
  predicate Admitting(op: Op, cells: map<string, Cell>, n: string) {
    op.RunCell? && op.name == n && n in cells && op.steps.patchOk && CellController.Admits(cells[n].spec, op.steps)
  }

  /** How an operation changes which cells are admitted. */
  ghost predicate AdmittedStep(op: Op, cells: map<string, Cell>, was: set<string>, now: set<string>) {
    forall n :: n in now <==> if Decides(op, cells, n) then Admitting(op, cells, n) else n in was
  }

  method EditCellOp(c: Cluster, name: string, spec: CellController.CellSpec, ghost s: Scope,
                    ghost admitted: set<string>)
    requires CellsOk(c.cells, s, admitted) && CellInScope(NewCell(name, spec), s)
    modifies c`cells
    ensures CellsOk(c.cells, s, admitted)
    ensures c.cells == old(c.cells)[name := EditedCell(old(c.cells), name, spec)]
  {
    var cell := if name in c.cells then c.cells[name].(spec := spec) else NewCell(name, spec);
    c.cells := c.cells[name := cell];
  }

  method RunCellOp(c: Cluster, name: string, steps: CellController.Steps, ghost s: Scope, ghost admitted: set<string>)
    returns (ghost now: set<string>)
    requires CellsOk(c.cells, s, admitted)
    modifies c`cells
    ensures CellsOk(c.cells, s, now) && CellsStep(RunCell(name, steps), old(c.cells), c.cells)
    ensures AdmittedStep(RunCell(name, steps), old(c.cells), admitted, now)
  {
    now := admitted;
    if name in c.cells {
      var stored, ok, requeue := CellController.ReconcileNormal(c.cells[name], steps);
      if steps.patchOk {
        now := if CellController.Admits(c.cells[name].spec, steps) then admitted + {name} else admitted - {name};
      }
      c.cells := c.cells[name := stored];
    }
  }

  method RemoveCellOp(c: Cluster, name: string, ghost s: Scope, ghost admitted: set<string>)
    requires CellsOk(c.cells, s, admitted)
    modifies c`cells
    ensures CellsOk(c.cells, s, admitted - {name}) && c.cells == old(c.cells) - {name}
  {
    c.cells := c.cells - {name};
  }

  predicate OnCells(op: Op) {
    op.EditCell? || op.RemoveCell? || op.RunCell?
  }

  method CellOp(c: Cluster, op: Op, ghost s: Scope, ghost admitted: set<string>) returns (ghost now: set<string>)
    requires OnCells(op) && CellsOk(c.cells, s, admitted) && OpInScope(op, s)
    modifies c`cells
    ensures CellsOk(c.cells, s, now) && CellsStep(op, old(c.cells), c.cells)
    ensures AdmittedStep(op, old(c.cells), admitted, now)
  {
    now := admitted;
    match op {
      case EditCell(name, spec) => EditCellOp(c, name, spec, s, admitted);
      case RemoveCell(name) =>
        RemoveCellOp(c, name, s, admitted);
        now := admitted - {name};
      case RunCell(name, steps) => now := RunCellOp(c, name, steps, s, admitted);
    }
  }

  // ----- changes by others

  function WithStatus(w: World, key: Key, parents: seq<ParentStatus>): World {
    if key in w.routes then w.(routes := w.routes[key := w.routes[key].(status := parents)]) else w
  }

  lemma StatusKeepsGood(w: World, env: Env, triples: set<Triple>, key: Key, parents: seq<ParentStatus>)
    requires Good(w, env, triples)
    ensures Good(WithStatus(w, key, parents), env, triples)
  {
    var w' := WithStatus(w, key, parents);
    forall k | k in w'.routes && Managed(w'.routes[k], env.router)
      ensures RouteCovered(w', env, triples, k, w'.routes[k])
    {
      assert RouteCovered(w, env, triples, k, w.routes[k]);
      forall b | b in w'.routes[k].spec.backends ensures Granted(w', env, k.name, b) {
        assert Granted(w, env, k.name, b);
      }
    }
  }

  lemma Grow(a: seq<World>, b: seq<World>, env: Env, triples: set<Triple>, inv: World -> bool)
    requires AllGood(a, env, triples) && Extends(a, b, inv) && forall w :: inv(w) ==> Good(w, env, triples)
    ensures AllGood(b, env, triples)
  {
    forall i | 0 <= i < |b| ensures Good(b[i], env, triples) {
      if i < |a| {
        assert b[i] == b[..|a|][i];
      }
    }
  }

  /** A change made by someone else. */
  method Observe(c: Cluster, next: World, ghost env: Env, ghost triples: set<Triple>)
    requires c.Valid() && AllGood(c.trace, env, triples) && Good(next, env, triples)
    modifies c`world, c`trace
    ensures c.Valid() && AllGood(c.trace, env, triples)
    ensures c.world == next && c.trace == old(c.trace) + [next]
  {
    c.world := next;
    c.trace := c.trace + [next];
  }

  // ----- one run of the router

  predicate Gone(w: World) {
    w.deleting && !w.finalizer
  }

  method FinalizeOp(c: Cluster, env: Env, ghost triples: set<Triple>)
    requires c.Valid() && AllGood(c.trace, env, triples) && c.world.deleting
    modifies c`world, c`replies, c`trace
    ensures c.Valid() && AllGood(c.trace, env, triples)
    ensures Extends(old(c.trace), c.trace, SafeFinal(env, triples, old(c.world)))
    ensures Untouched(old(c.world), c.world, env.router)
    ensures old(c.replies) == [] ==> Gone(c.world)
  {
    assert Good(c.trace[|c.trace| - 1], env, triples);
    var ok := c.ReconcileDeletion(env, triples);
    Grow(old(c.trace), c.trace, env, triples, SafeFinal(env, triples, old(c.world)));
  }

  /** At most one moment, from the state before to the state after. */
  predicate Records(moments: seq<Moment>, was: World, now: World, cells: map<string, Cell>, env: Env,
                    routes: seq<RouteSpec>, ps: seq<Placement>, admitted: set<string>) {
    && |moments| <= 1
    && forall m :: m in moments ==>
      m == Moment(Run(Prepared(was, env.router), now, cells, routes, ps, m.run.report), admitted)
  }

  method NormalOp(c: Cluster, env: Env, routes: seq<RouteSpec>, ps: seq<Placement>, ghost s: Scope,
                  ghost admitted: set<string>)
    returns (ghost moments: seq<Moment>)
    requires c.Valid() && AllGood(c.trace, env, Triples(s)) && CellsOk(c.cells, s, admitted)
    requires NoCollision(env, Triples(s)) && Schema(ps) && forall x :: x in AllNames(routes, ps) ==> x in s.routes
    modifies c`world, c`replies, c`trace
    ensures c.Valid() && AllGood(c.trace, env, Triples(s))
    ensures MomentsOk(moments, env) && Records(moments, old(c.world), c.world, c.cells, env, routes, ps, admitted)
    ensures old(c.replies) == [] ==>
      (moments != [] <==> GatewayFree(old(c.world), env.router) && Feasible(old(c.world), env, c.cells, routes, ps))
  {
    assert Good(c.trace[|c.trace| - 1], env, Triples(s));
    RunInPlay(c.cells, routes, ps, s, admitted);
    var ok, settled, report := c.ReconcileNormal(env, routes, ps, Triples(s));
    Grow(old(c.trace), c.trace, env, Triples(s), Tidy(env, Triples(s), old(c.world)));
    ghost var run := Run(Prepared(old(c.world), env.router), c.world, c.cells, routes, ps, report);
    moments := if settled then [Moment(run, admitted)] else [];
  }

  /** `Reconcile`: nothing for a router that is gone, finalization for one being deleted, the normal
      path otherwise. A successful normal run comes back as a moment. */
  method RunRouterOp(c: Cluster, env: Env, routes: seq<RouteSpec>, ps: seq<Placement>, replies: seq<Reply>,
                     ghost s: Scope, ghost admitted: set<string>) returns (ghost moments: seq<Moment>)
    requires c.Valid() && AllGood(c.trace, env, Triples(s)) && CellsOk(c.cells, s, admitted)
    requires NoCollision(env, Triples(s)) && Schema(ps) && forall x :: x in AllNames(routes, ps) ==> x in s.routes
    modifies c`world, c`replies, c`trace
    ensures c.Valid() && AllGood(c.trace, env, Triples(s))
    ensures MomentsOk(moments, env) && Records(moments, old(c.world), c.world, c.cells, env, routes, ps, admitted)
    ensures old(c.world).deleting ==>
      moments == [] && Extends(old(c.trace), c.trace, SafeFinal(env, Triples(s), old(c.world)))
    ensures old(c.world).deleting ==> Untouched(old(c.world), c.world, env.router)
    ensures replies == [] && old(c.world).deleting ==> Gone(c.world)
    ensures replies == [] && !old(c.world).deleting ==>
      (moments != [] <==> GatewayFree(old(c.world), env.router) && Feasible(old(c.world), env, c.cells, routes, ps))
  {
    moments := [];
    UntouchedSelf(c.world, env.router);
    c.replies := replies;
    var found := c.Call();
    if !found || Gone(c.world) {
      return;
    }
    if c.world.deleting {
      FinalizeOp(c, env, Triples(s));
    } else {
      moments := NormalOp(c, env, routes, ps, s, admitted);
    }
  }

  ghost predicate MomentsOk(ms: seq<Moment>, env: Env) {
    forall i :: 0 <= i < |ms| ==> MomentOk(ms[i], env)
  }

  /** The cluster, the cells and which of them are admitted, between two operations. */
  datatype Snapshot = Snapshot(world: World, cells: map<string, Cell>, admitted: set<string>)

  /** One operation, what it met, what it left, and its moment if it has one. */
  datatype LogEntry = LogEntry(op: Op, was: Snapshot, now: Snapshot, moments: seq<Moment>)

  /** What an unhindered run of the router comes to: finalized if the router is being deleted, and
      otherwise successful exactly when names are distinct and no other controller is in the way. */
  predicate Determined(e: LogEntry, env: Env)
    requires e.op.RunRouter?
  {
    var w := e.was.world;
    if w.deleting then Gone(e.now.world)
    else e.moments != [] <==> GatewayFree(w, env.router) && Feasible(w, env, e.was.cells, e.op.routes, e.op.ps)
  }

  ghost predicate RunEntryOk(e: LogEntry, env: Env)
    requires e.op.RunRouter?
  {
    && Records(e.moments, e.was.world, e.now.world, e.was.cells, env, e.op.routes, e.op.ps, e.was.admitted)
    && (e.was.world.deleting ==> e.moments == [] && Untouched(e.was.world, e.now.world, env.router))
    && (e.op.replies == [] ==> Determined(e, env))
  }

  /** How an operation other than a run of the router changes the cluster. */
  predicate WorldStep(op: Op, was: World, now: World) {
    match op
    case ReportRoute(key, parents) => now == WithStatus(was, key, parents)
    case DeleteRouter => now == was.(deleting := true)
    case RunRouter(_, _, _) => true
    case _ => now == was
  }

  ghost predicate EntryOk(e: LogEntry, env: Env) {
    && MomentsOk(e.moments, env)
    && CellsStep(e.op, e.was.cells, e.now.cells)
    && AdmittedStep(e.op, e.was.cells, e.was.admitted, e.now.admitted)
    && WorldStep(e.op, e.was.world, e.now.world)
    && (if e.op.RunRouter? then RunEntryOk(e, env) else e.moments == [])
  }

  method ClusterOp(c: Cluster, env: Env, op: Op, ghost s: Scope, ghost admitted: set<string>)
    returns (ghost moments: seq<Moment>)
    requires c.Valid() && AllGood(c.trace, env, Triples(s)) && CellsOk(c.cells, s, admitted)
    requires NoCollision(env, Triples(s)) && OpInScope(op, s) && !OnCells(op)
    modifies c`world, c`replies, c`trace
    ensures c.Valid() && AllGood(c.trace, env, Triples(s))
    ensures var was, now := Snapshot(old(c.world), c.cells, admitted), Snapshot(c.world, c.cells, admitted);
      EntryOk(LogEntry(op, was, now, moments), env)
  {
    moments := [];
    match op {
      case ReportRoute(key, parents) => ReportOp(c, env, key, parents, Triples(s));
      case RunRouter(routes, ps, replies) => moments := RunRouterOp(c, env, routes, ps, replies, s, admitted);
      case DeleteRouter => DeleteOp(c, env, Triples(s));
    }
  }

  /** One operation. */
  method Perform(c: Cluster, env: Env, op: Op, ghost s: Scope, ghost admitted: set<string>)
    returns (ghost now: set<string>, ghost moments: seq<Moment>)
    requires c.Valid() && AllGood(c.trace, env, Triples(s)) && CellsOk(c.cells, s, admitted)
    requires NoCollision(env, Triples(s)) && OpInScope(op, s)
    modifies c
    ensures c.Valid() && AllGood(c.trace, env, Triples(s)) && CellsOk(c.cells, s, now)
    ensures var before, after := Snapshot(old(c.world), old(c.cells), admitted), Snapshot(c.world, c.cells, now);
      EntryOk(LogEntry(op, before, after, moments), env)
  {
    now, moments := admitted, [];
    if OnCells(op) {
      now := CellOp(c, op, s, admitted);
    } else {
      moments := ClusterOp(c, env, op, s, admitted);
    }
  }

  /** The gateway implementation reports the status of a route. */
  method ReportOp(c: Cluster, ghost env: Env, key: Key, parents: seq<ParentStatus>, ghost triples: set<Triple>)
    requires c.Valid() && AllGood(c.trace, env, triples)
    modifies c`world, c`trace
    ensures c.Valid() && AllGood(c.trace, env, triples)
    ensures c.world == WithStatus(old(c.world), key, parents)
  {
    assert Good(c.trace[|c.trace| - 1], env, triples);
    StatusKeepsGood(c.world, env, triples, key, parents);
    Observe(c, WithStatus(c.world, key, parents), env, triples);
  }

  /** Someone deletes the router: it is marked, and stays as long as it has its finalizer. */
  method DeleteOp(c: Cluster, ghost env: Env, ghost triples: set<Triple>)
    requires c.Valid() && AllGood(c.trace, env, triples)
    modifies c`world, c`trace
    ensures c.Valid() && AllGood(c.trace, env, triples)
    ensures c.world == old(c.world).(deleting := true)
  {
    assert Good(c.trace[|c.trace| - 1], env, triples);
    SameObjects(c.world, c.world.(deleting := true), env, triples);
    Observe(c, c.world.(deleting := true), env, triples);
  }

  ghost predicate LogOk(log: seq<LogEntry>, env: Env) {
    forall i :: 0 <= i < |log| ==> EntryOk(log[i], env)
  }

  /** What holds before the operation at `i`, or at the end. */
  function SnapshotAt(log: seq<LogEntry>, start: Snapshot, i: nat): Snapshot
    requires i <= |log|
  {
    if i == 0 then start else log[i - 1].now
  }

  /** The log lists these operations, each from what the one before it left. */
  predicate Chained(log: seq<LogEntry>, ops: seq<Op>, start: Snapshot, end: Snapshot) {
    && |log| == |ops| && (forall i :: 0 <= i < |log| ==> log[i].op == ops[i])
    && (forall i :: 0 <= i < |log| ==> log[i].was == SnapshotAt(log, start, i))
    && SnapshotAt(log, start, |log|) == end
  }

  lemma LogNext(log: seq<LogEntry>, e: LogEntry, env: Env)
    requires LogOk(log, env) && EntryOk(e, env)
    ensures LogOk(log + [e], env)
  {
    var more := log + [e];
    forall i | 0 <= i < |more| ensures EntryOk(more[i], env) {
      if i < |log| {
        assert more[i] == log[i];
      } else {
        assert more[i] == e;
      }
    }
  }

  lemma ChainNext(log: seq<LogEntry>, ops: seq<Op>, i: nat, start: Snapshot, e: LogEntry)
    requires i < |ops| && Chained(log, ops[..i], start, e.was) && e.op == ops[i]
    ensures Chained(log + [e], ops[..i + 1], start, e.now)
  {
    var more := log + [e];
    assert ops[..i + 1] == ops[..i] + [ops[i]];
    forall k | 0 <= k < |more| ensures more[k].was == SnapshotAt(more, start, k) {
      if k < |log| {
        assert log[k].was == SnapshotAt(log, start, k);
      }
    }
  }

  /** Any history, from any cells of which those that read ready are in `admitted0`. Every state it passes
      through is good: managed routes are covered by grants, and a router without its finalizer has left
      nothing behind. The log ties each state, the cells and the admitted cells to the operations. */
  method History(c: Cluster, env: Env, ops: seq<Op>, ghost s: Scope, ghost admitted0: set<string>)
    returns (ghost admitted: set<string>, ghost log: seq<LogEntry>)
    requires c.Valid() && AllGood(c.trace, env, Triples(s)) && CellsOk(c.cells, s, admitted0)
    requires NoCollision(env, Triples(s)) && forall i :: 0 <= i < |ops| ==> OpInScope(ops[i], s)
    modifies c
    ensures c.Valid() && AllGood(c.trace, env, Triples(s)) && CellsOk(c.cells, s, admitted)
    ensures LogOk(log, env)
    ensures Chained(log, ops, Snapshot(old(c.world), old(c.cells), admitted0), Snapshot(c.world, c.cells, admitted))
  {
    admitted, log := admitted0, [];
    ghost var start := Snapshot(c.world, c.cells, admitted0);
    for i := 0 to |ops|
      invariant c.Valid() && AllGood(c.trace, env, Triples(s)) && CellsOk(c.cells, s, admitted)
      invariant LogOk(log, env) && Chained(log, ops[..i], start, Snapshot(c.world, c.cells, admitted))
    {
      ghost var was := Snapshot(c.world, c.cells, admitted);
      ghost var moments;
      admitted, moments := Perform(c, env, ops[i], s, admitted);
      ghost var e := LogEntry(ops[i], was, Snapshot(c.world, c.cells, admitted), moments);
      LogNext(log, e, env);
      ChainNext(log, ops, i, start, e);
      log := log + [e];
    }
    assert ops[..|ops|] == ops;
  }

  // ----- what the log says about cells

  predicate Undecided(log: seq<LogEntry>, n: string, from: nat, to: nat)
    requires to <= |log|
  {
    forall k :: from <= k < to ==> !Decides(log[k].op, log[k].was.cells, n)
  }

  /** The last operation before `i` that stored a verdict on the cell or removed it stored that the cell may
      have traffic, on the specification the cell had then; or there is none and the cell was admitted. */
  predicate LastAdmitting(log: seq<LogEntry>, start: Snapshot, i: nat, n: string)
    requires i <= |log|
  {
    || (n in start.admitted && Undecided(log, n, 0, i))
    || exists j :: 0 <= j < i && Admitting(log[j].op, log[j].was.cells, n) && Undecided(log, n, j + 1, i)
  }

  /** What a log says about cells alone. */
  ghost predicate TracedAt(log: seq<LogEntry>, start: Snapshot, i: nat)
    requires i < |log|
  {
    && log[i].was == SnapshotAt(log, start, i)
    && CellsStep(log[i].op, log[i].was.cells, log[i].now.cells)
    && AdmittedStep(log[i].op, log[i].was.cells, log[i].was.admitted, log[i].now.admitted)
  }

  ghost predicate Traced(log: seq<LogEntry>, start: Snapshot) {
    forall i :: 0 <= i < |log| ==> TracedAt(log, start, i)
  }

  lemma LogTraced(log: seq<LogEntry>, ops: seq<Op>, start: Snapshot, end: Snapshot, env: Env)
    requires LogOk(log, env) && Chained(log, ops, start, end)
    ensures Traced(log, start)
  {
    forall i | 0 <= i < |log| ensures TracedAt(log, start, i) {
      assert EntryOk(log[i], env);
    }
  }

  /** The admitted cells are those the operations so far admit. */
  lemma {:induction false} AdmittedIffLastAdmitting(log: seq<LogEntry>, start: Snapshot, i: nat, n: string)
    requires Traced(log, start) && i <= |log|
    ensures n in SnapshotAt(log, start, i).admitted <==> LastAdmitting(log, start, i, n)
  {
    if i > 0 {
      AdmittedIffLastAdmitting(log, start, i - 1, n);
      assert TracedAt(log, start, i - 1);
      OneStepLater(log, start, i - 1, n);
    }
  }

  lemma OneStepLater(log: seq<LogEntry>, start: Snapshot, i: nat, n: string)
    requires i < |log|
    ensures var e := log[i];
      LastAdmitting(log, start, i + 1, n) <==>
      if Decides(e.op, e.was.cells, n) then Admitting(e.op, e.was.cells, n) else LastAdmitting(log, start, i, n)
  {
    var e := log[i];
    if Decides(e.op, e.was.cells, n) {
      if Admitting(e.op, e.was.cells, n) {
        assert Undecided(log, n, i + 1, i + 1);
      }
    } else {
      if LastAdmitting(log, start, i, n) && !(n in start.admitted && Undecided(log, n, 0, i)) {
        var j :| 0 <= j < i && Admitting(log[j].op, log[j].was.cells, n) && Undecided(log, n, j + 1, i);
        assert Undecided(log, n, j + 1, i + 1);
      }
      if LastAdmitting(log, start, i + 1, n) && !(n in start.admitted && Undecided(log, n, 0, i + 1)) {
        var j :| 0 <= j < i + 1 && Admitting(log[j].op, log[j].was.cells, n) && Undecided(log, n, j + 1, i + 1);
        assert j != i && Undecided(log, n, j + 1, i);
      }
    }
  }

  predicate Respecifies(op: Op, n: string) {
    (op.EditCell? || op.RemoveCell?) && op.name == n
  }

  predicate Unedited(log: seq<LogEntry>, n: string, from: nat, to: nat)
    requires to <= |log|
  {
    forall k :: from <= k < to ==> !Respecifies(log[k].op, n)
  }

  /** The cell exists with this specification because the last edit or removal of it before `i` was an edit to
      it, or there was none and the cell was there with it. */
  predicate LastSpec(log: seq<LogEntry>, start: Snapshot, i: nat, n: string, spec: CellController.CellSpec)
    requires i <= |log|
  {
    || (n in start.cells && start.cells[n].spec == spec && Unedited(log, n, 0, i))
    || exists j :: 0 <= j < i && log[j].op == EditCell(n, spec) && Unedited(log, n, j + 1, i)
  }

  lemma SpecStep(op: Op, was: map<string, Cell>, now: map<string, Cell>, n: string, spec: CellController.CellSpec)
    requires CellsStep(op, was, now)
    ensures n in now && now[n].spec == spec <==>
            if Respecifies(op, n) then op == EditCell(n, spec) else n in was && was[n].spec == spec
  {
  }

  /** A cell has the specification the operations so far give it. */
  lemma {:induction false} SpecIffLastSpec(log: seq<LogEntry>, start: Snapshot, i: nat, n: string,
                                           spec: CellController.CellSpec)
    requires Traced(log, start) && i <= |log|
    ensures var cells := SnapshotAt(log, start, i).cells;
      n in cells && cells[n].spec == spec <==> LastSpec(log, start, i, n, spec)
  {
    if i > 0 {
      var e := log[i - 1];
      SpecIffLastSpec(log, start, i - 1, n, spec);
      assert TracedAt(log, start, i - 1);
      SpecStep(e.op, e.was.cells, e.now.cells, n, spec);
      SpecOneLater(log, start, i - 1, n, spec);
    }
  }

  lemma SpecOneLater(log: seq<LogEntry>, start: Snapshot, i: nat, n: string, spec: CellController.CellSpec)
    requires i < |log|
    ensures LastSpec(log, start, i + 1, n, spec) <==>
      if Respecifies(log[i].op, n) then log[i].op == EditCell(n, spec) else LastSpec(log, start, i, n, spec)
  {
    if Respecifies(log[i].op, n) {
      if log[i].op == EditCell(n, spec) {
        assert Unedited(log, n, i + 1, i + 1);
      }
    } else {
      if LastSpec(log, start, i, n, spec) &&
         !(n in start.cells && start.cells[n].spec == spec && Unedited(log, n, 0, i)) {
        var j :| 0 <= j < i && log[j].op == EditCell(n, spec) && Unedited(log, n, j + 1, i);
        assert Unedited(log, n, j + 1, i + 1);
      }
      if LastSpec(log, start, i + 1, n, spec) &&
         !(n in start.cells && start.cells[n].spec == spec && Unedited(log, n, 0, i + 1)) {
        var j :| 0 <= j < i + 1 && log[j].op == EditCell(n, spec) && Unedited(log, n, j + 1, i + 1);
        assert j != i && Unedited(log, n, j + 1, i);
      }
    }
  }

  /** The backend is that of a cell whose current specification, the last one given, is neither draining nor
      disabled, and whose last stored reconcile admitted it. */
  predicate Rightful(log: seq<LogEntry>, start: Snapshot, i: nat, b: BackendObject)
    requires i < |log|
  {
    exists n :: n in log[i].was.cells && Serving(log[i].was.cells[n], b) && LastAdmitting(log, start, i, n) &&
      LastSpec(log, start, i, n, log[i].was.cells[n].spec)
  }

  /** Over every history: right after a successful router reconcile, every backend of a managed route is
      rightful. */
  lemma HistoryServesRightful(log: seq<LogEntry>, ops: seq<Op>, start: Snapshot, end: Snapshot, env: Env,
                              i: nat, k: Key, b: BackendObject)
    requires LogOk(log, env) && Chained(log, ops, start, end) && i < |log| && log[i].moments != []
    requires var routes := log[i].now.world.routes;
      k in routes && Managed(routes[k], env.router) && b in routes[k].spec.backends
    ensures Rightful(log, start, i, b)
  {
    var e := log[i];
    assert EntryOk(e, env) && e.was == SnapshotAt(log, start, i);
    var m := e.moments[0];
    assert m in e.moments && MomentOk(m, env);
    BackendsAdmitted(m, env, k, b);
    var n :| n in e.was.cells && n in e.was.admitted && Serving(e.was.cells[n], b);
    LogTraced(log, ops, start, end, env);
    AdmittedIffLastAdmitting(log, start, i, n);
    SpecIffLastSpec(log, start, i, n, e.was.cells[n].spec);
  }

  /** A router that is gone has left no managed route, grant or gateway. */
  lemma NothingOrphaned(trace: seq<World>, env: Env, triples: set<Triple>, i: nat)
    requires AllGood(trace, env, triples) && i < |trace| && Gone(trace[i])
    ensures Clean(trace[i], env.router)
  {
  }
}
