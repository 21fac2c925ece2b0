/**
 The Cell controller: the condition state machine of `reconcileNormal`, and the traffic-readiness
 test the router applies to what that machine stored.
 */
module CellController {
  import opened Basics
  import Sorting

  datatype ConditionStatus = IsTrue | IsFalse | IsUnknown

  datatype Condition = Condition(kind: string, status: ConditionStatus)

  datatype CellState = Unset | Active | Draining | Disabled | OtherState(text: string)

  datatype CellSpec = CellSpec(namespace: string, state: CellState, serviceName: string, port: int)

  datatype CellStatus = CellStatus(namespace: string, state: CellState, endpoints: int, conditions: seq<Condition>)

  datatype Cell = Cell(name: string, spec: CellSpec, status: CellStatus)

  /** An endpoint with its readiness, which may be unreported, and its number of addresses. */
  datatype Endpoint = Endpoint(ready: Option<bool>, addresses: nat)

  /** How the API calls of one reconcile turn out. */
  datatype Steps = Steps(
    namespaceOk: bool,
    serviceOk: bool,
    policiesOk: bool,
    endpointSlices: Option<seq<seq<Endpoint>>>,
    patchOk: bool)

  const READY := "Ready"
  const NAMESPACE_READY := "NamespaceReady"
  const SERVICE_READY := "ServiceReady"
  const BACKEND_READY := "BackendReady"
  const POLICIES_READY := "PoliciesReady"

  function EffectiveNamespace(cell: Cell): string {
    if cell.spec.namespace != "" then cell.spec.namespace else cell.name
  }

  function EffectiveState(spec: CellSpec): CellState {
    if spec.state.Unset? then Active else spec.state
  }

  // ----- conditions

  /** `FindStatusCondition`: the first condition of that type. */
  function Find(cs: seq<Condition>, kind: string): Option<Condition> {
    if cs == [] then None else if cs[0].kind == kind then Some(cs[0]) else Find(cs[1..], kind)
  }

  /** `SetStatusCondition`: overwrites the condition of that type, or adds it. */
  function Upsert(cs: seq<Condition>, c: Condition): seq<Condition> {
    if cs == [] then [c] else if cs[0].kind == c.kind then [c] + cs[1..] else [cs[0]] + Upsert(cs[1..], c)
  }

  lemma {:induction false} FindUpsert(cs: seq<Condition>, c: Condition, kind: string)
    ensures Find(Upsert(cs, c), kind) == if kind == c.kind then Some(c) else Find(cs, kind)
  {
    if cs == [] {
      assert [c][1..] == [];
    } else if cs[0].kind == c.kind {
      assert ([c] + cs[1..])[1..] == cs[1..];
    } else {
      FindUpsert(cs[1..], c, kind);
      assert ([cs[0]] + Upsert(cs[1..], c))[1..] == Upsert(cs[1..], c);
    }
  }

  predicate ConditionTrue(cs: seq<Condition>, kind: string) {
    Find(cs, kind).Some? && Find(cs, kind).value.status.IsTrue?
  }

  /** An upsert decides its own condition and leaves the others. */
  lemma ConditionAfter(cs: seq<Condition>, kind: string, status: ConditionStatus)
    ensures forall other :: ConditionTrue(Upsert(cs, Condition(kind, status)), other) <==>
                            if other == kind then status.IsTrue? else ConditionTrue(cs, other)
  {
    forall other ensures ConditionTrue(Upsert(cs, Condition(kind, status)), other) <==>
                         if other == kind then status.IsTrue? else ConditionTrue(cs, other)
    {
      FindUpsert(cs, Condition(kind, status), other);
    }
  }

  /** Both conditions the router looks at are true. */
  predicate Reported(cell: Cell) {
    ConditionTrue(cell.status.conditions, BACKEND_READY) && ConditionTrue(cell.status.conditions, READY)
  }

  /** `isCellTrafficReady`. */
  predicate IsTrafficReady(cell: Cell) {
    !EffectiveState(cell.spec).Disabled? && !EffectiveState(cell.spec).Draining? && Reported(cell)
  }

  // ----- endpoints

  /** Two's complement wrap-around to 32 bits. */
  function Wrap32(n: int): int {
    (n + 0x8000_0000) % 0x1_0000_0000 - 0x8000_0000
  }

  /** The representative of `n` modulo 2^32 that fits into 32 bits with a sign. */
  lemma WrapFits(n: int)
    ensures -0x8000_0000 <= Wrap32(n) < 0x8000_0000 && (Wrap32(n) - n) % 0x1_0000_0000 == 0
    ensures Wrap32(n) == 0 <==> n % 0x1_0000_0000 == 0
  {
  }

  lemma WrapSum(a: int, b: int)
    ensures Wrap32(Wrap32(a) + Wrap32(b)) == Wrap32(a + b)
  {
  }

  function ReadyIn(slice: seq<Endpoint>): nat {
    if slice == [] then 0
    else
      var last := slice[|slice| - 1];
      ReadyIn(slice[..|slice| - 1]) + (if last.ready == Some(false) then 0 else last.addresses)
  }

  /** Addresses of all endpoints not reported unready. */
  function ReadyAddresses(slices: seq<seq<Endpoint>>): nat {
    if slices == [] then 0 else ReadyAddresses(slices[..|slices| - 1]) + ReadyIn(slices[|slices| - 1])
  }

  /** `countReadyEndpoints` adds in a 32-bit counter. */
  method CountReadyEndpoints(slices: seq<seq<Endpoint>>) returns (count: int)
    ensures count == Wrap32(ReadyAddresses(slices))
  {
    count := 0;
    for i := 0 to |slices|
      invariant count == Wrap32(ReadyAddresses(slices[..i]))
    {
      var slice := slices[i];
      ghost var before := ReadyAddresses(slices[..i]);
      for j := 0 to |slice|
        invariant count == Wrap32(before + ReadyIn(slice[..j]))
      {
        assert slice[..j + 1][..j] == slice[..j];
        if slice[j].ready != Some(false) {
          WrapSum(before + ReadyIn(slice[..j]), slice[j].addresses);
          count := Wrap32(count + Wrap32(slice[j].addresses));
        }
      }
      assert slice[..|slice|] == slice;
      assert slices[..i + 1][..i] == slices[..i];
    }
    assert slices[..|slices|] == slices;
  }

  // ----- which addresses are counted

  /** The endpoint is reported not ready, or has no address. */
  predicate Idle(e: Endpoint) {
    (e.ready.Some? && !e.ready.value) || e.addresses == 0
  }

  lemma {:induction false} IdleSlice(slice: seq<Endpoint>)
    ensures ReadyIn(slice) == 0 <==> forall j :: 0 <= j < |slice| ==> Idle(slice[j])
  {
    if slice != [] {
      var n := |slice| - 1;
      IdleSlice(slice[..n]);
      assert forall j :: 0 <= j < n ==> slice[..n][j] == slice[j];
    }
  }

  /** Nothing is counted exactly when every endpoint is idle; an endpoint that reports nothing is not. */
  lemma {:induction false} NoneReadyIff(slices: seq<seq<Endpoint>>)
    ensures ReadyAddresses(slices) == 0 <==>
            forall i, j :: 0 <= i < |slices| && 0 <= j < |slices[i]| ==> Idle(slices[i][j])
  {
    if slices != [] {
      var n := |slices| - 1;
      NoneReadyIff(slices[..n]);
      IdleSlice(slices[n]);
      assert forall i :: 0 <= i < n ==> slices[..n][i] == slices[i];
    }
  }

  lemma {:induction false} OneSliceGrows(slices: seq<seq<Endpoint>>, i: nat, slice: seq<Endpoint>)
    requires i < |slices|
    ensures ReadyAddresses(slices[i := slice]) + ReadyIn(slices[i]) == ReadyAddresses(slices) + ReadyIn(slice)
  {
    var n, more := |slices| - 1, slices[i := slice];
    if i < n {
      OneSliceGrows(slices[..n], i, slice);
      assert more[..n] == slices[..n][i := slice];
    } else {
      assert more[..n] == slices[..n];
    }
  }

  /** One endpoint more in any slice adds its addresses, unless it is reported not ready. */
  lemma EndpointAdded(slices: seq<seq<Endpoint>>, i: nat, e: Endpoint)
    requires i < |slices|
    ensures ReadyAddresses(slices[i := slices[i] + [e]]) ==
            ReadyAddresses(slices) + if e.ready.Some? && !e.ready.value then 0 else e.addresses
  {
    var slice := slices[i];
    OneSliceGrows(slices, i, slice + [e]);
    assert (slice + [e])[..|slice|] == slice;
  }

  function Endpoints(slices: seq<seq<Endpoint>>): seq<Endpoint> {
    if slices == [] then [] else Endpoints(slices[..|slices| - 1]) + slices[|slices| - 1]
  }

  lemma {:induction false} ReadyConcat(a: seq<Endpoint>, b: seq<Endpoint>)
    ensures ReadyIn(a + b) == ReadyIn(a) + ReadyIn(b)
  {
    if b == [] {
      assert a + b == a;
    } else {
      var n := |b| - 1;
      assert (a + b)[..|a + b| - 1] == a + b[..n];
      ReadyConcat(a, b[..n]);
    }
  }

  lemma {:induction false} ReadyTogether(slices: seq<seq<Endpoint>>)
    ensures ReadyAddresses(slices) == ReadyIn(Endpoints(slices))
  {
    if slices != [] {
      var n := |slices| - 1;
      ReadyTogether(slices[..n]);
      ReadyConcat(Endpoints(slices[..n]), slices[n]);
    }
  }

  lemma ReadyWithout(s: seq<Endpoint>, k: nat)
    requires k < |s|
    ensures ReadyIn(s) == ReadyIn([s[k]]) + ReadyIn(s[..k] + s[k + 1..])
  {
    var front, one, back := s[..k], [s[k]], s[k + 1..];
    assert s == front + (one + back);
    ReadyConcat(front, one + back);
    ReadyConcat(one, back);
    ReadyConcat(front, back);
  }

  lemma {:induction false} ReadyPermutes(s: seq<Endpoint>, t: seq<Endpoint>)
    requires multiset(s) == multiset(t)
    ensures ReadyIn(s) == ReadyIn(t)
    decreases |s|
  {
    if s == [] {
      assert |t| == |multiset(t)| == 0;
    } else {
      var k := Sorting.FindFirst(s, t);
      ReadyPermutes(s[1..], t[..k] + t[k + 1..]);
      ReadyWithout(t, k);
      assert s == [s[0]] + s[1..];
      ReadyConcat([s[0]], s[1..]);
    }
  }

  /** The sum is that of the endpoints, in whatever order and slices the API lists them. */
  lemma CountAnyOrder(a: seq<seq<Endpoint>>, b: seq<seq<Endpoint>>)
    requires multiset(Endpoints(a)) == multiset(Endpoints(b))
    ensures ReadyAddresses(a) == ReadyAddresses(b)
  {
    ReadyTogether(a);
    ReadyTogether(b);
    ReadyPermutes(Endpoints(a), Endpoints(b));
  }

  lemma {:induction false} EndpointsPermute(a: seq<seq<Endpoint>>, b: seq<seq<Endpoint>>)
    requires |a| == |b| && forall i :: 0 <= i < |a| ==> multiset(a[i]) == multiset(b[i])
    ensures multiset(Endpoints(a)) == multiset(Endpoints(b))
  {
    if a != [] {
      var n := |a| - 1;
      EndpointsPermute(a[..n], b[..n]);
    }
  }

  lemma {:induction false} SlicesConcat(a: seq<seq<Endpoint>>, b: seq<seq<Endpoint>>)
    ensures Endpoints(a + b) == Endpoints(a) + Endpoints(b)
  {
    if b == [] {
      assert a + b == a;
    } else {
      var n := |b| - 1;
      assert (a + b)[..|a + b| - 1] == a + b[..n];
      SlicesConcat(a, b[..n]);
    }
  }

  lemma {:induction false} SlicesPermute(a: seq<seq<Endpoint>>, b: seq<seq<Endpoint>>)
    requires multiset(a) == multiset(b)
    ensures multiset(Endpoints(a)) == multiset(Endpoints(b))
    decreases |a|
  {
    if a == [] {
      assert |b| == |multiset(b)| == 0;
    } else {
      var k := Sorting.FindFirst(a, b);
      var front, one, back := b[..k], [b[k]], b[k + 1..];
      SlicesPermute(a[1..], front + back);
      assert a == one + a[1..] && b == front + (one + back);
      SlicesConcat(one, a[1..]);
      SlicesConcat(front, one + back);
      SlicesConcat(one, back);
      SlicesConcat(front, back);
    }
  }

  // ----- reconcile

  predicate StepsOk(steps: Steps) {
    steps.namespaceOk && steps.serviceOk && steps.policiesOk && steps.endpointSlices.Some?
  }

  /** When a reconcile leaves a cell ready for traffic: every step worked, the state admits traffic, and
      the 32-bit address count is not zero. */
  predicate Admits(spec: CellSpec, steps: Steps) {
    && StepsOk(steps)
    && !EffectiveState(spec).Disabled? && !EffectiveState(spec).Draining?
    && Wrap32(ReadyAddresses(steps.endpointSlices.value)) != 0
  }

  /** When a completed reconcile asks to be run again: an enabled cell without backend addresses. */
  predicate WaitsForBackend(spec: CellSpec, steps: Steps)
    requires steps.endpointSlices.Some?
  {
    var count := Wrap32(ReadyAddresses(steps.endpointSlices.value));
    !EffectiveState(spec).Disabled? && (if EffectiveState(spec).Draining? then count <= 0 else count == 0)
  }

  /** The conditions the last switch of `reconcileNormal` sets. */
  function Settle(cs: seq<Condition>, state: CellState, count: int): seq<Condition> {
    var backend :=
      if state.Disabled? then IsFalse
      else if state.Draining? then (if count > 0 then IsTrue else IsFalse)
      else if count == 0 then IsFalse else IsTrue;
    var ready := if state.Disabled? || state.Draining? || count == 0 then IsFalse else IsTrue;
    Upsert(Upsert(cs, Condition(BACKEND_READY, backend)), Condition(READY, ready))
  }

  /** An enabled cell has addresses; while it drains the count also has to be positive. */
  predicate BackendUp(state: CellState, count: int) {
    !state.Disabled? && count != 0 && (state.Draining? ==> count > 0)
  }

  lemma SettleReads(cs: seq<Condition>, state: CellState, count: int)
    ensures ConditionTrue(Settle(cs, state, count), READY) <==> !state.Disabled? && !state.Draining? && count != 0
    ensures ConditionTrue(Settle(cs, state, count), BACKEND_READY) <==> BackendUp(state, count)
    ensures forall kind :: kind != READY && kind != BACKEND_READY ==>
      (ConditionTrue(Settle(cs, state, count), kind) <==> ConditionTrue(cs, kind))
  {
    var backend :=
      if state.Disabled? then IsFalse
      else if state.Draining? then (if count > 0 then IsTrue else IsFalse)
      else if count == 0 then IsFalse else IsTrue;
    var ready := if state.Disabled? || state.Draining? || count == 0 then IsFalse else IsTrue;
    ConditionAfter(cs, BACKEND_READY, backend);
    ConditionAfter(Upsert(cs, Condition(BACKEND_READY, backend)), READY, ready);
  }

  lemma KindsDiffer()
    ensures Distinct([READY, NAMESPACE_READY, SERVICE_READY, BACKEND_READY, POLICIES_READY])
  {
    assert SERVICE_READY[0] != BACKEND_READY[0];
  }

  /** A step that was reached has its outcome as condition, and any other its condition from before. */
  predicate Tells(was: seq<Condition>, now: seq<Condition>, kind: string, reached: bool, done: bool) {
    ConditionTrue(now, kind) <==> if reached then done else ConditionTrue(was, kind)
  }

  /** Each step is reached when those before it worked. */
  predicate StepsTold(was: seq<Condition>, now: seq<Condition>, state: CellState, steps: Steps) {
    && Tells(was, now, NAMESPACE_READY, true, steps.namespaceOk)
    && Tells(was, now, SERVICE_READY, steps.namespaceOk, steps.serviceOk)
    && Tells(was, now, POLICIES_READY, steps.namespaceOk && steps.serviceOk, steps.policiesOk)
    && Tells(was, now, BACKEND_READY, steps.namespaceOk && steps.serviceOk && steps.policiesOk,
             steps.endpointSlices.Some? && BackendUp(state, Wrap32(ReadyAddresses(steps.endpointSlices.value))))
  }

  /** `reconcileNormal`: each step upserts a condition and an early exit still patches what it set. The
      stored cell is ready for traffic exactly when the reconcile admits it, whatever the conditions
      were before; a stale BackendReady condition cannot change that. */
  method ReconcileNormal(cell: Cell, steps: Steps) returns (stored: Cell, ok: bool, requeue: bool)
    ensures stored.name == cell.name && stored.spec == cell.spec
    ensures !steps.patchOk ==> stored == cell
    ensures steps.patchOk ==> (IsTrafficReady(stored) <==> Admits(cell.spec, steps))
    ensures steps.patchOk ==> (Reported(stored) <==> Admits(cell.spec, steps))
    ensures ok <==> StepsOk(steps) && steps.patchOk
    ensures steps.patchOk ==>
      StepsTold(cell.status.conditions, stored.status.conditions, EffectiveState(cell.spec), steps)
    ensures !ok ==> stored.status == cell.status.(conditions := stored.status.conditions)
    ensures ok ==>
      && stored.status.namespace == EffectiveNamespace(cell) && stored.status.state == EffectiveState(cell.spec)
      && stored.status.endpoints == Wrap32(ReadyAddresses(steps.endpointSlices.value))
    ensures requeue <==> ok && WaitsForBackend(cell.spec, steps)
  {
    stored, ok, requeue := cell, false, false;
    var conditions := cell.status.conditions;
    var state := EffectiveState(cell.spec);
    KindsDiffer();

    if !steps.namespaceOk {
      conditions := FailStep(conditions, NAMESPACE_READY);
      stored := Patched(cell, cell.status.(conditions := conditions), steps.patchOk);
      return;
    }
    ConditionAfter(conditions, NAMESPACE_READY, IsTrue);
    conditions := Upsert(conditions, Condition(NAMESPACE_READY, IsTrue));

    if !steps.serviceOk {
      conditions := FailStep(conditions, SERVICE_READY);
      stored := Patched(cell, cell.status.(conditions := conditions), steps.patchOk);
      return;
    }
    ConditionAfter(conditions, SERVICE_READY, IsTrue);
    conditions := Upsert(conditions, Condition(SERVICE_READY, IsTrue));

    if !steps.policiesOk {
      conditions := FailStep(conditions, POLICIES_READY);
      stored := Patched(cell, cell.status.(conditions := conditions), steps.patchOk);
      return;
    }
    ConditionAfter(conditions, POLICIES_READY, IsTrue);
    conditions := Upsert(conditions, Condition(POLICIES_READY, IsTrue));

    if steps.endpointSlices.None? {
      conditions := FailStep(conditions, BACKEND_READY);
      stored := Patched(cell, cell.status.(conditions := conditions), steps.patchOk);
      return;
    }
    var count := CountReadyEndpoints(steps.endpointSlices.value);

    SettleReads(conditions, state, count);
    conditions := Settle(conditions, state, count);
    stored := Patched(cell, CellStatus(EffectiveNamespace(cell), state, count, conditions), steps.patchOk);
    ok := steps.patchOk;
    requeue := ok && !state.Disabled? && (if state.Draining? then count <= 0 else count == 0);
  }

  /** A failing step: its own condition and Ready become false. */
  function FailStep(cs: seq<Condition>, kind: string): (r: seq<Condition>)
    ensures forall other :: ConditionTrue(r, other) <==>
                            other != kind && other != READY && ConditionTrue(cs, other)
  {
    var mid := Upsert(cs, Condition(kind, IsFalse));
    ConditionAfter(cs, kind, IsFalse);
    ConditionAfter(mid, READY, IsFalse);
    Upsert(mid, Condition(READY, IsFalse))
  }

  /** The status patch either takes effect or leaves the stored object as it was. */
  function Patched(cell: Cell, status: CellStatus, patchOk: bool): Cell {
    if patchOk then cell.(status := status) else cell
  }

  /** Below 2^31 addresses, a nonzero count is a positive number of ready addresses. */
  lemma CountIsExact(slices: seq<seq<Endpoint>>)
    requires ReadyAddresses(slices) < 0x8000_0000
    ensures Wrap32(ReadyAddresses(slices)) == ReadyAddresses(slices)
  {
  }

  /** Some address is counted. */
  predicate SomeReady(slices: seq<seq<Endpoint>>) {
    exists i, j :: 0 <= i < |slices| && 0 <= j < |slices[i]| && !Idle(slices[i][j])
  }

  /** Below 2^32 addresses, a cell is admitted exactly when its steps work, it is neither disabled nor draining,
      and some endpoint with an address is not reported unready. */
  lemma AdmitsIff(spec: CellSpec, steps: Steps)
    requires steps.endpointSlices.Some? ==> ReadyAddresses(steps.endpointSlices.value) < 0x1_0000_0000
    ensures Admits(spec, steps) <==>
            && StepsOk(steps) && !spec.state.Disabled? && !spec.state.Draining?
            && SomeReady(steps.endpointSlices.value)
  {
    if steps.endpointSlices.Some? {
      NoneReadyIff(steps.endpointSlices.value);
      WrapFits(ReadyAddresses(steps.endpointSlices.value));
    }
  }
}
