/**
 The builders of the gateway and of a cell's entrypoint Service: they overwrite the object they are
 given, keep what the operator does not own, and reach the same object however often they run.
 */
module Builders {
  import opened Basics
  import opened Metadata
  import opened Decimal
  import opened Sorting

  // ----- listeners

  datatype Listener = Listener(name: string, port: int, protocol: string, hostname: Option<string>, tls: Option<string>)

  function NameOf(l: Listener): string {
    l.name
  }

  function NamesOf(ls: seq<Listener>): seq<string> {
    Map(NameOf, ls)
  }

  function InsertListener(x: Listener, s: seq<Listener>): seq<Listener> {
    if s == [] then [x]
    else if Less(x.name, s[|s| - 1].name) then InsertListener(x, s[..|s| - 1]) + [s[|s| - 1]]
    else s + [x]
  }

  /** A stable sort by name. */
  function SortListeners(s: seq<Listener>): seq<Listener> {
    if s == [] then [] else InsertListener(s[|s| - 1], SortListeners(s[..|s| - 1]))
  }

  lemma {:induction false} InsertNames(x: Listener, s: seq<Listener>)
    ensures NamesOf(InsertListener(x, s)) == Insert(x.name, NamesOf(s))
    ensures multiset(InsertListener(x, s)) == multiset(s) + multiset{x}
  {
    if s != [] {
      var n := |s| - 1;
      assert s == s[..n] + [s[n]] && NamesOf(s)[..n] == NamesOf(s[..n]);
      if Less(x.name, s[n].name) {
        InsertNames(x, s[..n]);
      }
    }
  }

  lemma {:induction false} SortNames(s: seq<Listener>)
    ensures NamesOf(SortListeners(s)) == Sort(NamesOf(s))
    ensures multiset(SortListeners(s)) == multiset(s)
  {
    if s != [] {
      var n := |s| - 1;
      assert s == s[..n] + [s[n]] && NamesOf(s)[..n] == NamesOf(s[..n]);
      SortNames(s[..n]);
      InsertNames(s[n], SortListeners(s[..n]));
    }
  }

  predicate NamesDiffer(ls: seq<Listener>) {
    forall i, j :: 0 <= i < j < |ls| ==> ls[i].name != ls[j].name
  }

  lemma SameName(ls: seq<Listener>, x: Listener, y: Listener)
    requires NamesDiffer(ls) && x in multiset(ls) && y in multiset(ls) && x.name == y.name
    ensures x == y
  {
    var i :| 0 <= i < |ls| && ls[i] == x;
    var j :| 0 <= j < |ls| && ls[j] == y;
    assert i == j;
  }

  /** Listeners with distinct names come out the same from every order of the specification. */
  lemma ListenersAnyOrder(ls: seq<Listener>, ms: seq<Listener>)
    requires NamesDiffer(ls) && multiset(ls) == multiset(ms)
    ensures SortListeners(ls) == SortListeners(ms)
  {
    var s, t := SortListeners(ls), SortListeners(ms);
    SortNames(ls);
    SortNames(ms);
    MapPermutes(NameOf, ls, ms);
    SortEqual(NamesOf(ls), NamesOf(ms));
    assert |s| == |NamesOf(s)| == |NamesOf(t)| == |t|;
    forall i | 0 <= i < |s| ensures s[i] == t[i] {
      assert s[i].name == NamesOf(s)[i] == NamesOf(t)[i] == t[i].name;
      assert s[i] in multiset(s) && t[i] in multiset(t);
      SameName(ls, s[i], t[i]);
    }
  }

  // ----- the gateway

  datatype GatewaySpec = GatewaySpec(className: string, listeners: seq<Listener>, labels: Labels, annotations: Labels)

  datatype GatewayState = GatewayState(labels: Labels, annotations: Labels, className: string, listeners: seq<Listener>)

  function GatewayLabels(router: string): Labels {
    map[MANAGED_BY := OPERATOR, ROUTER_NAME := router]
  }

  function BuiltGateway(was: GatewayState, router: string, spec: GatewaySpec): GatewayState {
    GatewayState(Owned(was.labels, GatewayLabels(router), spec.labels),
                 Merged(was.annotations, spec.annotations, {}), spec.className, SortListeners(spec.listeners))
  }

  /** The operator's and the user's labels are on, the user's annotations are, the class is the specified one and
      the listeners are the specified ones in the order of their names. */
  ghost predicate GatewaySays(now: GatewayState, was: GatewayState, router: string, spec: GatewaySpec) {
    && Layered(now.labels, was.labels, map[MANAGED_BY := OPERATOR, ROUTER_NAME := router], spec.labels)
    && Layered(now.annotations, was.annotations, map[], spec.annotations)
    && now.className == spec.className
    && multiset(now.listeners) == multiset(spec.listeners) && Sorted(NamesOf(now.listeners))
  }

  lemma AnnotationsLayered(was: Labels, user: Labels)
    ensures Layered(Merged(was, user, {}), was, map[], user)
  {
    assert user - {} == user;
  }

  lemma BuiltGatewaySays(was: GatewayState, router: string, spec: GatewaySpec)
    ensures GatewaySays(BuiltGateway(was, router, spec), was, router, spec)
  {
    OperatorKeysWin(was.labels, GatewayLabels(router), spec.labels);
    AnnotationsLayered(was.annotations, spec.annotations);
    SortNames(spec.listeners);
    SortSorts(NamesOf(spec.listeners));
  }

  class Gateway {
    var labels: Labels
    var annotations: Labels
    var className: string
    var listeners: seq<Listener>

    function State(): GatewayState
      reads this
    {
      GatewayState(labels, annotations, className, listeners)
    }

    /** `MutateGateway`. */
    method Mutate(router: string, spec: GatewaySpec)
      modifies this
      ensures State() == BuiltGateway(old(State()), router, spec)
      ensures GatewaySays(State(), old(State()), router, spec)
    {
      BuiltGatewaySays(State(), router, spec);
      labels := MergeOwned(labels, GatewayLabels(router), spec.labels, [MANAGED_BY, ROUTER_NAME]);
      annotations := MergeAll(annotations, spec.annotations);
      className := spec.className;
      listeners := SortedListeners(spec.listeners);
    }
  }

  method SortedListeners(ls: seq<Listener>) returns (sorted: seq<Listener>)
    ensures sorted == SortListeners(ls)
  {
    sorted := [];
    for i := 0 to |ls|
      invariant sorted == SortListeners(ls[..i])
    {
      assert ls[..i + 1][..i] == ls[..i];
      sorted := InsertListener(ls[i], sorted);
    }
    assert ls[..|ls|] == ls;
  }

  /** Building again changes nothing, and neither does reordering the listeners of the specification. */
  lemma GatewaySettles(was: GatewayState, router: string, spec: GatewaySpec, again: GatewaySpec)
    requires again == spec.(listeners := again.listeners)
    requires multiset(again.listeners) == multiset(spec.listeners) && NamesDiffer(spec.listeners)
    ensures BuiltGateway(BuiltGateway(was, router, spec), router, again) == BuiltGateway(was, router, spec)
  {
    OwnedIdempotent(was.labels, GatewayLabels(router), spec.labels);
    ListenersAnyOrder(spec.listeners, again.listeners);
  }

  // ----- the entrypoint Service

  datatype Entrypoint = Entrypoint(serviceName: string, kind: string, protocol: string, port: nat,
                                   targetPort: Option<int>)

  datatype ServiceSpec = ServiceSpec(cell: string, entrypoint: Entrypoint, workload: Labels, labels: Labels,
                                     annotations: Labels)

  datatype Port = Port(name: string, port: int, targetPort: int, protocol: string)

  datatype ServiceState = ServiceState(labels: Labels, annotations: Labels, selector: Labels, kind: string,
                                       ports: seq<Port>)

  /** `WorkloadSelector`. */
  function WorkloadSelector(spec: ServiceSpec): Labels {
    if spec.workload != map[] then spec.workload else map[CELL_NAME := spec.cell]
  }

  function ServiceLabels(spec: ServiceSpec): Labels {
    map[MANAGED_BY := OPERATOR, CELL_NAME := spec.cell, ENTRYPOINT := spec.entrypoint.serviceName]
  }

  function PortOf(e: Entrypoint): Port {
    Port("port-" + Numeral(e.port), e.port, if e.targetPort.Some? then e.targetPort.value else e.port,
         if e.protocol == "" then "TCP" else e.protocol)
  }

  function BuiltService(was: ServiceState, spec: ServiceSpec): ServiceState {
    ServiceState(Owned(was.labels, ServiceLabels(spec), spec.labels), Merged(was.annotations, spec.annotations, {}),
                 WorkloadSelector(spec), if spec.entrypoint.kind == "" then "ClusterIP" else spec.entrypoint.kind,
                 [PortOf(spec.entrypoint)])
  }

  /** The labels and annotations are layered, the selector is the workload's or else the cell's name, and there is
      one port: the entrypoint's, with the defaults of the Service API. */
  ghost predicate ServiceSays(now: ServiceState, was: ServiceState, spec: ServiceSpec) {
    var e := spec.entrypoint;
    && Layered(now.labels, was.labels,
               map[MANAGED_BY := OPERATOR, CELL_NAME := spec.cell, ENTRYPOINT := e.serviceName], spec.labels)
    && Layered(now.annotations, was.annotations, map[], spec.annotations)
    && now.selector == (if spec.workload == map[] then map[CELL_NAME := spec.cell] else spec.workload)
    && now.kind == (if e.kind == "" then "ClusterIP" else e.kind)
    && |now.ports| == 1 && now.ports[0].port == e.port
    && (e.targetPort.Some? ==> now.ports[0].targetPort == e.targetPort.value)
    && (e.targetPort.None? ==> now.ports[0].targetPort == e.port)
    && (e.protocol != "" ==> now.ports[0].protocol == e.protocol)
    && (e.protocol == "" ==> now.ports[0].protocol == "TCP")
    && now.ports[0].name == "port-" + Numeral(e.port)
  }

  lemma BuiltServiceSays(was: ServiceState, spec: ServiceSpec)
    ensures ServiceSays(BuiltService(was, spec), was, spec)
  {
    OperatorKeysWin(was.labels, ServiceLabels(spec), spec.labels);
    AnnotationsLayered(was.annotations, spec.annotations);
  }

  class Service {
    var labels: Labels
    var annotations: Labels
    var selector: Labels
    var kind: string
    var ports: seq<Port>

    function State(): ServiceState
      reads this
    {
      ServiceState(labels, annotations, selector, kind, ports)
    }

    /** `MutateService`. The selector is emptied key by key and refilled, in orders left open. */
    method Mutate(spec: ServiceSpec)
      modifies this
      ensures State() == BuiltService(old(State()), spec)
      ensures ServiceSays(State(), old(State()), spec)
    {
      BuiltServiceSays(State(), spec);
      labels := MergeOwned(labels, ServiceLabels(spec), spec.labels, [MANAGED_BY, CELL_NAME, ENTRYPOINT]);
      annotations := MergeAll(annotations, spec.annotations);
      Refill(WorkloadSelector(spec));
      kind := if spec.entrypoint.kind == "" then "ClusterIP" else spec.entrypoint.kind;
      ports := [PortOf(spec.entrypoint)];
    }

    method Refill(wanted: Labels)
      modifies this`selector
      ensures selector == wanted
    {
      while selector != map[]
        decreases |selector|
      {
        var k :| k in selector;
        selector := selector - {k};
      }
      var rest := wanted.Keys;
      while rest != {}
        invariant rest <= wanted.Keys && selector == wanted - rest
      {
        var k :| k in rest;
        selector := selector[k := wanted[k]];
        rest := rest - {k};
      }
    }
  }

  /** Building again changes nothing, and no key of an earlier selector survives. */
  lemma ServiceSettles(was: ServiceState, spec: ServiceSpec)
    ensures BuiltService(BuiltService(was, spec), spec) == BuiltService(was, spec)
    ensures BuiltService(was, spec).selector.Keys == WorkloadSelector(spec).Keys
  {
    OwnedIdempotent(was.labels, ServiceLabels(spec), spec.labels);
  }
}
