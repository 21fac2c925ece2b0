/** `MutateHTTPRoute`, which overwrites the HTTPRoute it is given. */
module RouteBuilder {
  import opened Basics
  import opened Metadata
  import opened PlacementCompiler
  import opened RoutePlans
  import opened RouterModel
  import opened Convergence
  import Sorting

  class HttpRoute {
    var labels: Labels
    var spec: HttpSpec

    method ParentRefs(router: RouterId, listeners: seq<string>) returns (parents: seq<ParentRef>)
      ensures parents == ParentsOf(router, listeners)
    {
      parents := [];
      if |listeners| == 0 {
        parents := parents + [ParentRef(router.gatewayName, router.gatewayNs, None)];
        return;
      }
      for i := 0 to |listeners|
        invariant parents == ParentsOf(router, listeners)[..i]
      {
        parents := parents + [ParentRef(router.gatewayName, router.gatewayNs, Some(listeners[i]))];
      }
    }

    method BackendRefs(backends: seq<BackendTarget>) returns (refs: seq<BackendObject>)
      ensures refs == Sorting.Map(ObjectOf, backends)
    {
      refs := [];
      for i := 0 to |backends|
        invariant refs == Sorting.Map(ObjectOf, backends)[..i]
      {
        refs := refs + [ObjectOf(backends[i])];
      }
    }

    /** The object ends as the write of the plan: the router's labels over those it had, and a specification
        that says what the plan and its backends ask for, field by field. */
    method Mutate(env: Env, m: Materialized)
      modifies this
      ensures labels == Merged(old(labels), RouteWrite(env, m).value.labels, {})
      ensures spec == RouteWrite(env, m).value.spec
      ensures LabelsSay(labels, env.router, m.plan)
      ensures SpecSays(spec, env.router, m.plan.spec, m.backends)
    {
      var wanted := RouterLabels(env.router, m.plan.spec.cellRef);
      if m.plan.placement.Some? && m.plan.placement.value.name != "" {
        wanted := wanted[PLACEMENT_NAME := m.plan.placement.value.name];
      }
      MergedLabelsSay(labels, env, m);
      labels := MergeAll(labels, wanted);
      var parents := ParentRefs(env.router, m.plan.spec.listenerNames);
      var backends := BackendRefs(m.backends);
      HttpSpecSays(env.router, m.plan.spec, m.backends);
      spec := HttpSpec(parents, m.plan.spec.hostnames, BuildMatches(m.plan.spec), backends);
    }
  }
}
