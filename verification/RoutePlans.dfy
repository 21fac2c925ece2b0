/**
 `validatePlacementOverlaps` and `buildRoutePlans`: which static routes and placements become
 routes, and which placements are refused.
 */
module RoutePlans {
  import opened Basics
  import opened Placements
  import opened PlacementCompiler
  import opened Overlap
  import opened OverlapExact
  import Sorting

  datatype Reason = OverlapsWith(name: string) | InvalidPlacement(error: string)

  datatype RoutePlan = RoutePlan(name: string, spec: RouteSpec, placement: Option<Placement>)

  datatype Plans = Plans(plans: seq<RoutePlan>, invalid: map<string, Reason>)

  /** Every Range selector carries its range, as the resource schema demands. */
  predicate Schema(ps: seq<Placement>) {
    forall i :: 0 <= i < |ps| ==> AllPresent(ps[i].spec.selectors)
  }

  // ----- overlaps

  predicate Flagged(ps: seq<Placement>, i: nat, j: nat) {
    && i < |ps| && j < |ps|
    && AllPresent(ps[i].spec.selectors) && AllPresent(ps[j].spec.selectors)
    && ObviouslyOverlap(ps[i].spec, ps[j].spec)
  }

  lemma SharedSymmetric(l: map<string, NumericRange>, r: map<string, NumericRange>)
    ensures SharedRange(l, r) ==> SharedRange(r, l)
  {
    if SharedRange(l, r) {
      var k :| k in l && k in r && NumericRangesIntersect(l[k], r[k]);
      assert NumericRangesIntersect(r[k], l[k]);
    }
  }

  lemma FlaggedSymmetric(ps: seq<Placement>)
    ensures Symmetric(FlagRelation(ps))
  {
    forall i: nat, j: nat ensures FlagRelation(ps)(i, j) == FlagRelation(ps)(j, i) {
      if i < |ps| && j < |ps| {
        var l, r := RangesBySource(ps[i].spec.selectors), RangesBySource(ps[j].spec.selectors);
        SharedSymmetric(l, r);
        SharedSymmetric(r, l);
      }
    }
  }

  type Relation = (nat, nat) -> bool

  function FlagRelation(ps: seq<Placement>): Relation {
    (i: nat, j: nat) => Flagged(ps, i, j)
  }

  ghost predicate Symmetric(rel: Relation) {
    forall i: nat, j: nat :: rel(i, j) == rel(j, i)
  }

  /** The greatest index below `bound`, other than `k` itself, related to `k`. */
  function Best(rel: Relation, k: nat, bound: nat): (m: Option<nat>)
    ensures m.Some? ==> m.value < bound && m.value != k && rel(k, m.value)
    ensures forall j: nat :: j < bound && j != k && rel(k, j) ==> m.Some? && j <= m.value
  {
    if bound == 0 then None
    else if bound - 1 != k && rel(k, bound - 1) then Some(bound - 1)
    else Best(rel, k, bound - 1)
  }

  /** Which partners of `k` the nested loops have seen when they stand at the pair (i, j). */
  function Seen(k: nat, i: nat, j: nat, n: nat): nat {
    if k < i then n else if k == i then j else if k < j then i + 1 else i
  }

  /** The entry for name `k` names its best partner below `bound`. */
  predicate Entry(conflicts: map<string, Reason>, names: seq<string>, rel: Relation, k: nat, bound: nat)
    requires k < |names| && bound <= |names|
  {
    var m := Best(rel, k, bound);
    && (names[k] in conflicts <==> m.Some?)
    && (m.Some? ==> conflicts[names[k]] == OverlapsWith(names[m.value]))
  }

  predicate Recorded(conflicts: map<string, Reason>, names: seq<string>, rel: Relation, i: nat, j: nat)
    requires i <= |names| && j <= |names|
  {
    && (forall k :: 0 <= k < |names| ==>
          Seen(k, i, j, |names|) <= |names| && Entry(conflicts, names, rel, k, Seen(k, i, j, |names|)))
    && (forall x :: x in conflicts ==> x in names)
  }

  function Record(conflicts: map<string, Reason>, names: seq<string>, rel: Relation, i: nat,
                  j: nat): map<string, Reason>
    requires i < |names| && j < |names|
  {
    if rel(i, j) then conflicts[names[i] := OverlapsWith(names[j])][names[j] := OverlapsWith(names[i])] else conflicts
  }

  lemma NextEntry(conflicts: map<string, Reason>, names: seq<string>, rel: Relation, i: nat, j: nat, k: nat)
    requires i < j < |names| && k < |names| && Distinct(names) && rel(j, i) == rel(i, j)
    requires Entry(conflicts, names, rel, k, Seen(k, i, j, |names|))
    ensures Entry(Record(conflicts, names, rel, i, j), names, rel, k, Seen(k, i, j + 1, |names|))
  {
    assert k != i ==> names[k] != names[i];
    assert k != j ==> names[k] != names[j];
  }

  lemma NextPair(conflicts: map<string, Reason>, names: seq<string>, rel: Relation, i: nat, j: nat)
    requires i < j < |names| && Distinct(names) && Symmetric(rel) && Recorded(conflicts, names, rel, i, j)
    ensures Recorded(Record(conflicts, names, rel, i, j), names, rel, i, j + 1)
  {
    var next, j' := Record(conflicts, names, rel, i, j), j + 1;
    assert rel(j, i) == rel(i, j);
    forall k | 0 <= k < |names| ensures Entry(next, names, rel, k, Seen(k, i, j', |names|)) {
      NextEntry(conflicts, names, rel, i, j, k);
    }
  }

  lemma NextRow(conflicts: map<string, Reason>, names: seq<string>, rel: Relation, i: nat, j: nat)
    requires i < |names| && Recorded(conflicts, names, rel, i, |names|)
    requires j == if i + 2 <= |names| then i + 2 else |names|
    ensures Recorded(conflicts, names, rel, i + 1, j)
  {
    var i' := i + 1;
    forall k | 0 <= k < |names| ensures Entry(conflicts, names, rel, k, Seen(k, i', j, |names|)) {
      assert Entry(conflicts, names, rel, k, Seen(k, i, |names|, |names|));
    }
  }

  function Names(ps: seq<Placement>): (r: seq<string>)
    ensures |r| == |ps| && forall i :: 0 <= i < |ps| ==> r[i] == ps[i].name
  {
    Sorting.Map((p: Placement) => p.name, ps)
  }

  /** The nested loops of `validatePlacementOverlaps` over the names and the overlap test. */
  method RecordOverlaps(names: seq<string>, rel: Relation) returns (conflicts: map<string, Reason>)
    requires Symmetric(rel)
    ensures Distinct(names) ==> forall k :: 0 <= k < |names| ==> Entry(conflicts, names, rel, k, |names|)
    ensures Distinct(names) ==> forall x :: x in conflicts ==> x in names
  {
    conflicts := map[];
    var n := |names|;
    for i := 0 to n
      invariant Distinct(names) ==> Recorded(conflicts, names, rel, i, if i + 1 <= n then i + 1 else n)
    {
      for j := i + 1 to n
        invariant Distinct(names) ==> Recorded(conflicts, names, rel, i, j)
      {
        if Distinct(names) {
          NextPair(conflicts, names, rel, i, j);
        }
        if rel(i, j) {
          conflicts := conflicts[names[i] := OverlapsWith(names[j])];
          conflicts := conflicts[names[j] := OverlapsWith(names[i])];
        }
      }
      if Distinct(names) {
        NextRow(conflicts, names, rel, i, if i + 2 <= n then i + 2 else n);
      }
    }
    if Distinct(names) {
      forall k | 0 <= k < n ensures Entry(conflicts, names, rel, k, n) {
        assert Entry(conflicts, names, rel, k, Seen(k, n, n, n));
      }
    }
  }

  /** For uniquely named placements a name is recorded exactly when another placement overlaps it, and
      the reason names the overlapping partner with the greatest index. */
  method ValidatePlacementOverlaps(ps: seq<Placement>) returns (conflicts: map<string, Reason>)
    requires Schema(ps)
    ensures Distinct(Names(ps)) ==> OverlapMap(conflicts, ps)
  {
    FlaggedSymmetric(ps);
    conflicts := RecordOverlaps(Names(ps), FlagRelation(ps));
  }

  /** Each placement has the entry its overlaps call for, and nothing else has one. */
  predicate OverlapMap(conflicts: map<string, Reason>, ps: seq<Placement>) {
    && (forall k :: 0 <= k < |ps| ==> Entry(conflicts, Names(ps), FlagRelation(ps), k, |ps|))
    && (forall x :: x in conflicts ==> x in Names(ps))
  }

  predicate Conflicted(ps: seq<Placement>, k: nat) {
    exists j: nat :: j < |ps| && j != k && Flagged(ps, k, j)
  }

  /** A recorded name is a conflicted placement. */
  lemma RecordedIffConflicted(conflicts: map<string, Reason>, ps: seq<Placement>, k: nat)
    requires k < |ps| && Entry(conflicts, Names(ps), FlagRelation(ps), k, |ps|)
    ensures ps[k].name in conflicts <==> Conflicted(ps, k)
  {
    var rel := FlagRelation(ps);
    var m := Best(rel, k, |ps|);
    if m.Some? {
      assert rel(k, m.value);
    }
    if j: nat :| j < |ps| && j != k && Flagged(ps, k, j) {
      assert rel(k, j);
    }
  }

  /** Whether a placement is conflicted does not depend on the order of the list. */
  lemma ConflictedAnyOrder(ps: seq<Placement>, qs: seq<Placement>, k: nat, m: nat)
    requires multiset(ps) == multiset(qs) && Distinct(Names(ps)) && k < |ps| && m < |qs| && ps[k] == qs[m]
    ensures Conflicted(ps, k) ==> Conflicted(qs, m)
  {
    if Conflicted(ps, k) {
      var j: nat :| j < |ps| && j != k && Flagged(ps, k, j);
      assert ps[j] in multiset(qs);
      var i :| 0 <= i < |qs| && qs[i] == ps[j];
      assert Names(ps)[j] != Names(ps)[k];
      assert Flagged(qs, m, i);
    }
  }

  lemma KeysInOther(ps: seq<Placement>, qs: seq<Placement>, c: map<string, Reason>, d: map<string, Reason>, x: string)
    requires multiset(ps) == multiset(qs) && Distinct(Names(ps)) && OverlapMap(c, ps) && OverlapMap(d, qs) && x in c
    ensures x in d
  {
    var k :| 0 <= k < |ps| && Names(ps)[k] == x;
    assert ps[k] in multiset(qs);
    var m :| 0 <= m < |qs| && qs[m] == ps[k];
    RecordedIffConflicted(c, ps, k);
    ConflictedAnyOrder(ps, qs, k, m);
    RecordedIffConflicted(d, qs, m);
  }

  lemma NamesPermute(ps: seq<Placement>, qs: seq<Placement>)
    requires multiset(ps) == multiset(qs) && Distinct(Names(ps))
    ensures Distinct(Names(qs))
  {
    var name := (p: Placement) => p.name;
    assert Names(ps) == Sorting.Map(name, ps) && Names(qs) == Sorting.Map(name, qs);
    Sorting.MapPermutes(name, ps, qs);
    Sorting.DistinctMultiset(Names(ps), Names(qs));
  }

  /** The recorded names are the same for every order of the list. */
  lemma OverlapKeysAnyOrder(ps: seq<Placement>, qs: seq<Placement>, c: map<string, Reason>, d: map<string, Reason>)
    requires multiset(ps) == multiset(qs) && Distinct(Names(ps)) && OverlapMap(c, ps) && OverlapMap(d, qs)
    ensures c.Keys == d.Keys
  {
    NamesPermute(ps, qs);
    forall x ensures x in c <==> x in d {
      if x in c {
        KeysInOther(ps, qs, c, d, x);
      }
      if x in d {
        KeysInOther(qs, ps, d, c, x);
      }
    }
  }

  // ----- plans

  predicate Compiles(p: Placement) {
    SpecOk(p.spec) && CompiledSpec(p).Ok?
  }

  /** A placement becomes a route when no other placement overlaps it and it compiles. */
  predicate PlannedAt(ps: seq<Placement>, k: nat)
    requires k < |ps|
  {
    !Conflicted(ps, k) && Compiles(ps[k])
  }

  function PlanOf(p: Placement): RoutePlan
    requires Compiles(p)
  {
    RoutePlan(p.name, CompiledSpec(p).value, Some(p))
  }

  /** The plan of each placement that has one. */
  function Outcomes(ps: seq<Placement>): (r: seq<Option<RoutePlan>>)
    ensures |r| == |ps|
  {
    seq(|ps|, k requires 0 <= k < |ps| => if PlannedAt(ps, k) then Some(PlanOf(ps[k])) else None)
  }

  function Present(outs: seq<Option<RoutePlan>>): seq<RoutePlan> {
    if outs == [] then []
    else
      var last := outs[|outs| - 1];
      Present(outs[..|outs| - 1]) + (if last.Some? then [last.value] else [])
  }

  function StaticPlans(routes: seq<RouteSpec>): seq<RoutePlan> {
    Sorting.Map((r: RouteSpec) => RoutePlan(r.name, r, None), routes)
  }

  function RouteNames(routes: seq<RouteSpec>): seq<string> {
    Sorting.Map((r: RouteSpec) => r.name, routes)
  }

  function AllNames(routes: seq<RouteSpec>, ps: seq<Placement>): seq<string> {
    RouteNames(routes) + Names(ps)
  }

  /** The plans of a router: static routes first, in order, then the planned placements, in order. */
  function AllPlans(routes: seq<RouteSpec>, ps: seq<Placement>): seq<RoutePlan> {
    StaticPlans(routes) + Present(Outcomes(ps))
  }

  /** The names marked invalid are those of the placements without a plan. */
  predicate InvalidFor(invalid: map<string, Reason>, names: seq<string>, outs: seq<Option<RoutePlan>>)
    requires |outs| == |names|
  {
    && (forall k :: 0 <= k < |names| ==> (names[k] in invalid <==> outs[k].None?))
    && (forall x :: x in invalid ==> x in names)
  }

  /** While the loop runs, placements not yet visited are marked exactly when they conflict. */
  predicate InvalidUpTo(invalid: map<string, Reason>, names: seq<string>, outs: seq<Option<RoutePlan>>,
                        conflicted: seq<bool>, n: nat)
    requires |outs| == |names| == |conflicted|
  {
    && (forall k :: 0 <= k < |names| ==> (names[k] in invalid <==> if k < n then outs[k].None? else conflicted[k]))
    && (forall x :: x in invalid ==> x in names)
  }

  function Conflicts(ps: seq<Placement>): (r: seq<bool>)
    ensures |r| == |ps|
  {
    seq(|ps|, k requires 0 <= k < |ps| => Conflicted(ps, k))
  }

  /** Names seen so far are distinct, and the set holds exactly them. */
  ghost predicate SeenUpTo(seen: set<string>, names: seq<string>, n: nat)
    requires n <= |names|
  {
    && (forall i, j :: 0 <= i < j < n ==> names[i] != names[j])
    && (forall i :: 0 <= i < n ==> names[i] in seen)
    && (forall x :: x in seen ==> exists i :: 0 <= i < n && names[i] == x)
  }

  lemma SeeNext(seen: set<string>, names: seq<string>, n: nat)
    requires n < |names| && SeenUpTo(seen, names, n)
    ensures names[n] in seen ==> !Distinct(names)
    ensures names[n] !in seen ==> SeenUpTo(seen + {names[n]}, names, n + 1)
  {
    if names[n] in seen {
      var i :| 0 <= i < n && names[i] == names[n];
    } else {
      forall x | x in seen + {names[n]} ensures exists i :: 0 <= i < n + 1 && names[i] == x {
        if x != names[n] {
          var i :| 0 <= i < n && names[i] == x;
        }
      }
    }
  }

  lemma InvalidStart(conflicts: map<string, Reason>, ps: seq<Placement>)
    requires OverlapMap(conflicts, ps)
    ensures InvalidUpTo(conflicts, Names(ps), Outcomes(ps), Conflicts(ps), 0)
  {
    forall k | 0 <= k < |ps| ensures Names(ps)[k] in conflicts <==> Conflicts(ps)[k] {
      RecordedIffConflicted(conflicts, ps, k);
    }
  }

  /** What the loop does with one placement. */
  function Visit(invalid: map<string, Reason>, name: string, plan: Result<RoutePlan>): map<string, Reason> {
    if name !in invalid && plan.Err? then invalid[name := InvalidPlacement(plan.error)] else invalid
  }

  lemma InvalidNext(invalid: map<string, Reason>, names: seq<string>, outs: seq<Option<RoutePlan>>,
                    conflicted: seq<bool>, n: nat, plan: Result<RoutePlan>)
    requires |outs| == |names| == |conflicted| && n < |names| && Distinct(names)
    requires InvalidUpTo(invalid, names, outs, conflicted, n)
    requires outs[n] == if conflicted[n] || plan.Err? then None else Some(plan.value)
    ensures InvalidUpTo(Visit(invalid, names[n], plan), names, outs, conflicted, n + 1)
    ensures names[n] in invalid <==> conflicted[n]
  {
    forall k | 0 <= k < |names| && k != n ensures names[k] != names[n] {
    }
  }

  lemma PresentNext(fixed: seq<RoutePlan>, outs: seq<Option<RoutePlan>>, n: nat)
    requires n < |outs|
    ensures fixed + Present(outs[..n + 1]) ==
            if outs[n].Some? then fixed + Present(outs[..n]) + [outs[n].value] else fixed + Present(outs[..n])
  {
    assert outs[..n + 1][..n] == outs[..n];
    if outs[n].Some? {
      assert fixed + (Present(outs[..n]) + [outs[n].value]) == fixed + Present(outs[..n]) + [outs[n].value];
    } else {
      assert Present(outs[..n]) + [] == Present(outs[..n]);
    }
  }

  lemma DistinctTail(routes: seq<RouteSpec>, ps: seq<Placement>)
    requires Distinct(AllNames(routes, ps))
    ensures Distinct(Names(ps))
  {
    var all, n := AllNames(routes, ps), |routes|;
    forall i, j | 0 <= i < j < |ps| ensures Names(ps)[i] != Names(ps)[j] {
      assert all[n + i] == Names(ps)[i] && all[n + j] == Names(ps)[j];
    }
  }

  /** Plans are the compiled placements that do not conflict. */
  predicate Explains(outs: seq<Option<RoutePlan>>, conflicted: seq<bool>, compiled: seq<Result<RoutePlan>>)
    requires |outs| == |conflicted| == |compiled|
  {
    forall k :: 0 <= k < |outs| ==>
      outs[k] == if conflicted[k] || compiled[k].Err? then None else Some(compiled[k].value)
  }

  predicate CompiledAs(p: Placement, r: Result<RoutePlan>) {
    && (r.Ok? <==> Compiles(p))
    && (r.Ok? ==> r.value == PlanOf(p))
  }

  lemma ExplainOne(ps: seq<Placement>, k: nat, r: Result<RoutePlan>)
    requires k < |ps| && CompiledAs(ps[k], r)
    ensures Outcomes(ps)[k] == if Conflicts(ps)[k] || r.Err? then None else Some(r.value)
  {
  }

  lemma ExplainAll(ps: seq<Placement>, compiled: seq<Result<RoutePlan>>)
    requires |compiled| == |ps| && CompiledSoFar(ps, compiled)
    ensures Explains(Outcomes(ps), Conflicts(ps), compiled)
  {
    forall k | 0 <= k < |ps|
      ensures Outcomes(ps)[k] == if Conflicts(ps)[k] || compiled[k].Err? then None else Some(compiled[k].value)
    {
      ExplainOne(ps, k, compiled[k]);
    }
  }

  method CompilePlacement(p: Placement) returns (r: Result<RoutePlan>)
    ensures CompiledAs(p, r)
  {
    var spec := RouteSpecFromPlacement(p);
    if spec.Err? {
      return Err(spec.error);
    }
    return Ok(RoutePlan(p.name, spec.value, Some(p)));
  }

  /** `routeSpecFromPlacement` on every placement. It has no side effects, so compiling ahead of the
      loop that consults the results changes nothing. */
  method CompilePlacements(ps: seq<Placement>) returns (compiled: seq<Result<RoutePlan>>)
    ensures |compiled| == |ps| && CompiledSoFar(ps, compiled)
  {
    compiled := [];
    for i := 0 to |ps|
      invariant |compiled| == i && CompiledSoFar(ps, compiled)
    {
      var r := CompilePlacement(ps[i]);
      CompiledNext(ps, compiled, r);
      compiled := compiled + [r];
    }
  }

  predicate CompiledSoFar(ps: seq<Placement>, compiled: seq<Result<RoutePlan>>) {
    |compiled| <= |ps| && forall k :: 0 <= k < |compiled| ==> CompiledAs(ps[k], compiled[k])
  }

  lemma CompiledNext(ps: seq<Placement>, compiled: seq<Result<RoutePlan>>, r: Result<RoutePlan>)
    requires CompiledSoFar(ps, compiled) && |compiled| < |ps| && CompiledAs(ps[|compiled|], r)
    ensures CompiledSoFar(ps, compiled + [r])
  {
    var more := compiled + [r];
    forall k | 0 <= k < |more| ensures CompiledAs(ps[k], more[k]) {
      if k == |compiled| {
        assert more[k] == r;
      } else {
        assert more[k] == compiled[k];
      }
    }
  }

  /** What the second loop holds after `n` placements. */
  predicate Planned(plans: seq<RoutePlan>, invalid: map<string, Reason>, fixed: seq<RoutePlan>, names: seq<string>,
                    outs: seq<Option<RoutePlan>>, conflicted: seq<bool>, n: nat)
    requires |outs| == |names| == |conflicted| && n <= |names|
  {
    plans == fixed + Present(outs[..n]) && InvalidUpTo(invalid, names, outs, conflicted, n)
  }

  lemma PlannedNext(plans: seq<RoutePlan>, invalid: map<string, Reason>, fixed: seq<RoutePlan>, names: seq<string>,
                    outs: seq<Option<RoutePlan>>, conflicted: seq<bool>, n: nat, plan: Result<RoutePlan>)
    requires |outs| == |names| == |conflicted| && n < |names| && Distinct(names)
    requires Planned(plans, invalid, fixed, names, outs, conflicted, n)
    requires outs[n] == if conflicted[n] || plan.Err? then None else Some(plan.value)
    ensures Planned(if names[n] !in invalid && plan.Ok? then plans + [plan.value] else plans,
                    Visit(invalid, names[n], plan), fixed, names, outs, conflicted, n + 1)
  {
    PresentNext(fixed, outs, n);
    InvalidNext(invalid, names, outs, conflicted, n, plan);
  }

  /** With distinct names; with a repeated one the loop fails anyway. */
  predicate PlannedIf(plans: seq<RoutePlan>, invalid: map<string, Reason>, fixed: seq<RoutePlan>, names: seq<string>,
                      outs: seq<Option<RoutePlan>>, conflicted: seq<bool>, n: nat)
    requires |outs| == |names| == |conflicted| && n <= |names|
  {
    Distinct(names) ==> Planned(plans, invalid, fixed, names, outs, conflicted, n)
  }

  lemma PlannedIfNext(plans: seq<RoutePlan>, invalid: map<string, Reason>, fixed: seq<RoutePlan>, names: seq<string>,
                      outs: seq<Option<RoutePlan>>, conflicted: seq<bool>, n: nat, plan: Result<RoutePlan>)
    requires |outs| == |names| == |conflicted| && n < |names|
    requires PlannedIf(plans, invalid, fixed, names, outs, conflicted, n)
    requires outs[n] == if conflicted[n] || plan.Err? then None else Some(plan.value)
    ensures PlannedIf(if names[n] !in invalid && plan.Ok? then plans + [plan.value] else plans,
                      Visit(invalid, names[n], plan), fixed, names, outs, conflicted, n + 1)
  {
    if Distinct(names) {
      PlannedNext(plans, invalid, fixed, names, outs, conflicted, n, plan);
    }
  }

  lemma PlannedStart(invalid: map<string, Reason>, fixed: seq<RoutePlan>, names: seq<string>,
                     outs: seq<Option<RoutePlan>>, conflicted: seq<bool>)
    requires |outs| == |names| == |conflicted|
    requires Distinct(names) ==> InvalidUpTo(invalid, names, outs, conflicted, 0)
    ensures PlannedIf(fixed, invalid, fixed, names, outs, conflicted, 0)
  {
    assert outs[..0] == [] && fixed + Present(outs[..0]) == fixed;
  }

  lemma PlannedDone(plans: seq<RoutePlan>, invalid: map<string, Reason>, fixed: seq<RoutePlan>, names: seq<string>,
                    outs: seq<Option<RoutePlan>>, conflicted: seq<bool>)
    requires |outs| == |names| == |conflicted|
    requires Planned(plans, invalid, fixed, names, outs, conflicted, |names|)
    ensures plans == fixed + Present(outs) && InvalidFor(invalid, names, outs)
  {
    assert outs[..|names|] == outs;
  }

  lemma AllSeen(seen: set<string>, names: seq<string>)
    requires SeenUpTo(seen, names, |names|)
    ensures Distinct(names)
  {
  }

  /** The recorded overlaps are all still there, and any other entry is a compilation error. */
  predicate Supplements(invalid: map<string, Reason>, conflicts: map<string, Reason>) {
    && (forall x :: x in conflicts ==> x in invalid && invalid[x] == conflicts[x])
    && (forall x :: x in invalid && x !in conflicts ==> invalid[x].InvalidPlacement?)
  }

  lemma VisitSupplements(invalid: map<string, Reason>, conflicts: map<string, Reason>, name: string,
                         plan: Result<RoutePlan>)
    requires Supplements(invalid, conflicts)
    ensures Supplements(Visit(invalid, name, plan), conflicts)
  {
  }

  /** An overlap names the last placement that overlaps; without an overlap the reason is another. */
  predicate ReasonFor(reason: Reason, names: seq<string>, rel: Relation, k: nat) {
    match reason
    case OverlapsWith(x) =>
      exists m: nat :: m < |names| && m != k && rel(k, m) && names[m] == x && LastRelated(rel, k, m, |names|)
    case InvalidPlacement(_) =>
      forall j: nat :: j < |names| && j != k ==> !rel(k, j)
  }

  predicate LastRelated(rel: Relation, k: nat, m: nat, n: nat) {
    forall j: nat :: m < j < n && j != k ==> !rel(k, j)
  }

  predicate ReasonsFor(invalid: map<string, Reason>, names: seq<string>, rel: Relation) {
    forall k :: 0 <= k < |names| && names[k] in invalid ==> ReasonFor(invalid[names[k]], names, rel, k)
  }

  lemma ReasonGiven(invalid: map<string, Reason>, conflicts: map<string, Reason>, names: seq<string>, rel: Relation,
                    k: nat)
    requires k < |names| && names[k] in invalid && Supplements(invalid, conflicts)
    requires Entry(conflicts, names, rel, k, |names|)
    ensures ReasonFor(invalid[names[k]], names, rel, k)
  {
    var m := Best(rel, k, |names|);
    if m.Some? {
      assert LastRelated(rel, k, m.value, |names|);
    }
  }

  lemma AllReasonsGiven(invalid: map<string, Reason>, conflicts: map<string, Reason>, ps: seq<Placement>)
    requires Supplements(invalid, conflicts) && OverlapMap(conflicts, ps)
    ensures ReasonsFor(invalid, Names(ps), FlagRelation(ps))
  {
    var names, rel := Names(ps), FlagRelation(ps);
    forall k | 0 <= k < |names| && names[k] in invalid ensures ReasonFor(invalid[names[k]], names, rel, k) {
      ReasonGiven(invalid, conflicts, names, rel, k);
    }
  }

  /** The second loop of `buildRoutePlans`, over the placements' names and compiled plans. */
  method PlanPlacements(names: seq<string>, compiled: seq<Result<RoutePlan>>, seen0: set<string>,
                        fixed: seq<RoutePlan>, conflicts: map<string, Reason>,
                        ghost all: seq<string>, ghost outs: seq<Option<RoutePlan>>, ghost conflicted: seq<bool>)
    returns (r: Result<Plans>)
    requires |names| == |compiled| == |outs| == |conflicted| && Explains(outs, conflicted, compiled)
    requires |names| <= |all| && (forall i :: 0 <= i < |names| ==> all[|all| - |names| + i] == names[i])
    requires SeenUpTo(seen0, all, |all| - |names|)
    requires Distinct(names) ==> InvalidUpTo(conflicts, names, outs, conflicted, 0)
    ensures r.Ok? <==> Distinct(all)
    ensures r.Ok? && Distinct(names) ==> r.value.plans == fixed + Present(outs)
    ensures r.Ok? && Distinct(names) ==> InvalidFor(r.value.invalid, names, outs)
    ensures r.Ok? ==> Supplements(r.value.invalid, conflicts)
  {
    var invalid, seenNames, plans := conflicts, seen0, fixed;
    ghost var n := |all| - |names|;
    PlannedStart(invalid, fixed, names, outs, conflicted);
    for i := 0 to |names|
      invariant SeenUpTo(seenNames, all, n + i)
      invariant PlannedIf(plans, invalid, fixed, names, outs, conflicted, i)
      invariant Supplements(invalid, conflicts)
    {
      var name := names[i];
      assert all[n + i] == name;
      SeeNext(seenNames, all, n + i);
      if name in seenNames {
        return Err("placement conflicts with an existing route name");
      }
      seenNames := seenNames + {name};
      var plan := compiled[i];
      PlannedIfNext(plans, invalid, fixed, names, outs, conflicted, i, plan);
      VisitSupplements(invalid, conflicts, name, plan);
      ghost var next := Visit(invalid, name, plan);
      if name !in invalid {
        if plan.Err? {
          invalid := invalid[name := InvalidPlacement(plan.error)];
        } else {
          plans := plans + [plan.value];
        }
      }
      assert invalid == next;
    }
    AllSeen(seenNames, all);
    if Distinct(names) {
      PlannedDone(plans, invalid, fixed, names, outs, conflicted);
    }
    return Ok(Plans(plans, invalid));
  }

  /** The first loop of `buildRoutePlans`. */
  method PlanStatic(routes: seq<RouteSpec>, ghost all: seq<string>)
    returns (ok: bool, seen: set<string>, plans: seq<RoutePlan>)
    requires |routes| <= |all| && forall i :: 0 <= i < |routes| ==> all[i] == routes[i].name
    ensures ok ==> SeenUpTo(seen, all, |routes|) && plans == StaticPlans(routes)
    ensures !ok ==> !Distinct(all)
  {
    seen, plans := {}, [];
    for i := 0 to |routes|
      invariant SeenUpTo(seen, all, i)
      invariant plans == StaticPlans(routes)[..i]
    {
      SeeNext(seen, all, i);
      if routes[i].name in seen {
        return false, seen, plans;
      }
      seen := seen + {routes[i].name};
      plans := plans + [RoutePlan(routes[i].name, routes[i], None)];
    }
    return true, seen, plans;
  }

  /** Both loops of `buildRoutePlans`. */
  method PlanAll(routes: seq<RouteSpec>, names: seq<string>, compiled: seq<Result<RoutePlan>>,
                 conflicts: map<string, Reason>, ghost outs: seq<Option<RoutePlan>>, ghost conflicted: seq<bool>)
    returns (r: Result<Plans>)
    requires |names| == |compiled| == |outs| == |conflicted| && Explains(outs, conflicted, compiled)
    requires Distinct(names) ==> InvalidUpTo(conflicts, names, outs, conflicted, 0)
    ensures r.Ok? <==> Distinct(RouteNames(routes) + names)
    ensures r.Ok? && Distinct(names) ==> r.value.plans == StaticPlans(routes) + Present(outs)
    ensures r.Ok? && Distinct(names) ==> InvalidFor(r.value.invalid, names, outs)
    ensures r.Ok? ==> Supplements(r.value.invalid, conflicts)
  {
    ghost var all := RouteNames(routes) + names;
    var ok, seenNames, fixed := PlanStatic(routes, all);
    if !ok {
      return Err("duplicate route name");
    }
    r := PlanPlacements(names, compiled, seenNames, fixed, conflicts, all, outs, conflicted);
  }

  /** `buildRoutePlans` fails exactly on a repeated name; otherwise it returns all plans and marks the
      placements without one, an overlapping one with the last placement it overlaps. */
  method BuildRoutePlans(routes: seq<RouteSpec>, ps: seq<Placement>) returns (r: Result<Plans>)
    requires Schema(ps)
    ensures r.Ok? <==> Distinct(AllNames(routes, ps))
    ensures r.Ok? ==> r.value.plans == AllPlans(routes, ps)
    ensures r.Ok? ==> InvalidFor(r.value.invalid, Names(ps), Outcomes(ps))
    ensures r.Ok? ==> ReasonsFor(r.value.invalid, Names(ps), FlagRelation(ps))
  {
    var conflicts := ValidatePlacementOverlaps(ps);
    if Distinct(Names(ps)) {
      InvalidStart(conflicts, ps);
    }
    var compiled := CompilePlacements(ps);
    ExplainAll(ps, compiled);
    r := PlanAll(routes, Names(ps), compiled, conflicts, Outcomes(ps), Conflicts(ps));
    if Distinct(AllNames(routes, ps)) {
      DistinctTail(routes, ps);
      AllReasonsGiven(r.value.invalid, conflicts, ps);
    }
  }

  // ----- what the plans are

  function MissingNames(names: seq<string>, outs: seq<Option<RoutePlan>>): set<string>
    requires |outs| == |names|
  {
    set k | 0 <= k < |outs| && outs[k].None? :: names[k]
  }

  lemma {:induction false} CountPlans(names: seq<string>, outs: seq<Option<RoutePlan>>)
    requires |outs| == |names| && Distinct(names)
    ensures |Present(outs)| + |MissingNames(names, outs)| == |outs|
  {
    if outs != [] {
      var n := |outs| - 1;
      CountPlans(names[..n], outs[..n]);
      var before := MissingNames(names[..n], outs[..n]);
      if outs[n].Some? {
        assert MissingNames(names, outs) == before;
      } else {
        assert MissingNames(names, outs) == before + {names[n]};
        assert names[n] !in before;
      }
    }
  }

  /** Each placement is planned or invalid, never both: the two sizes add up. */
  lemma PlansPartition(routes: seq<RouteSpec>, ps: seq<Placement>, invalid: map<string, Reason>)
    requires Distinct(AllNames(routes, ps)) && InvalidFor(invalid, Names(ps), Outcomes(ps))
    ensures |AllPlans(routes, ps)| + |invalid| == |routes| + |ps|
  {
    DistinctTail(routes, ps);
    CountPlans(Names(ps), Outcomes(ps));
    assert invalid.Keys == MissingNames(Names(ps), Outcomes(ps));
  }

  lemma {:induction false} PresentIndex(outs: seq<Option<RoutePlan>>, i: nat) returns (k: nat)
    requires i < |Present(outs)|
    ensures k < |outs| && outs[k] == Some(Present(outs)[i]) && i == |Present(outs[..k])|
  {
    var n := |outs| - 1;
    if i < |Present(outs[..n])| {
      k := PresentIndex(outs[..n], i);
      assert outs[..n][..k] == outs[..k];
    } else {
      k := n;
    }
  }

  lemma OutcomeName(ps: seq<Placement>, k: nat)
    requires k < |ps| && Outcomes(ps)[k].Some?
    ensures Outcomes(ps)[k].value.name == ps[k].name && Outcomes(ps)[k].value.placement == Some(ps[k])
    ensures PlannedAt(ps, k) && Outcomes(ps)[k].value == PlanOf(ps[k])
  {
  }

  /** A placement that is planned has its compiled specification as plan, and any other has none. */
  lemma OutcomeAt(ps: seq<Placement>, k: nat)
    requires k < |ps|
    ensures Outcomes(ps)[k].Some? <==> PlannedAt(ps, k)
    ensures PlannedAt(ps, k) ==>
      Outcomes(ps)[k] == Some(RoutePlan(ps[k].name, CompiledSpec(ps[k]).value, Some(ps[k])))
  {
  }

  predicate NamedAfter(outs: seq<Option<RoutePlan>>, names: seq<string>)
    requires |outs| == |names|
  {
    forall k :: 0 <= k < |outs| && outs[k].Some? ==> outs[k].value.name == names[k]
  }

  lemma OutcomesNamed(ps: seq<Placement>)
    ensures NamedAfter(Outcomes(ps), Names(ps))
  {
    forall k | 0 <= k < |ps| && Outcomes(ps)[k].Some? ensures Outcomes(ps)[k].value.name == Names(ps)[k] {
      OutcomeName(ps, k);
    }
  }

  /** Nothing is planned under the name of a placement without a plan. */
  lemma NoneNamed(fixed: seq<RoutePlan>, routeNames: seq<string>, outs: seq<Option<RoutePlan>>, names: seq<string>,
                  i: nat, k: nat)
    requires |fixed| == |routeNames| && (forall k :: 0 <= k < |fixed| ==> fixed[k].name == routeNames[k])
    requires |outs| == |names| && NamedAfter(outs, names) && Distinct(routeNames + names)
    requires i < |fixed + Present(outs)| && k < |outs| && outs[k].None?
    ensures (fixed + Present(outs))[i].name != names[k]
  {
    var all, n := routeNames + names, |fixed|;
    assert all[n + k] == names[k];
    if i < n {
      assert all[i] != all[n + k];
    } else {
      var j := PresentIndex(outs, i - n);
      assert all[n + j] != all[n + k];
    }
  }

  lemma NamesDistinct(fixed: seq<RoutePlan>, routeNames: seq<string>, outs: seq<Option<RoutePlan>>, names: seq<string>,
                      i: nat, j: nat)
    requires |fixed| == |routeNames| && (forall k :: 0 <= k < |fixed| ==> fixed[k].name == routeNames[k])
    requires |outs| == |names| && NamedAfter(outs, names) && Distinct(routeNames + names)
    requires i < j < |fixed + Present(outs)|
    ensures (fixed + Present(outs))[i].name != (fixed + Present(outs))[j].name
  {
    var all, n := routeNames + names, |fixed|;
    if j < n {
      assert all[i] != all[j];
    } else {
      var b := PresentIndex(outs, j - n);
      if i < n {
        assert all[i] != all[n + b];
      } else {
        var a := PresentIndex(outs, i - n);
        assert a != b;
        assert all[n + a] != all[n + b];
      }
    }
  }

  /** No two plans share a name. */
  lemma PlanNamesDistinct(routes: seq<RouteSpec>, ps: seq<Placement>, i: nat, j: nat)
    requires Distinct(AllNames(routes, ps)) && i < j < |AllPlans(routes, ps)|
    ensures AllPlans(routes, ps)[i].name != AllPlans(routes, ps)[j].name
  {
    OutcomesNamed(ps);
    NamesDistinct(StaticPlans(routes), RouteNames(routes), Outcomes(ps), Names(ps), i, j);
  }

  // ----- which placements are planned

  /** A placement that compiles and shares its listeners and hostnames with no other one is planned. */
  lemma OwnAudiencePlanned(ps: seq<Placement>, k: nat)
    requires k < |ps| && Compiles(ps[k])
    requires forall m :: 0 <= m < |ps| && m != k ==> !SameAudience(ps[k].spec, ps[m].spec)
    ensures PlannedAt(ps, k)
  {
    forall m: nat | m < |ps| && m != k ensures !Flagged(ps, k, m) {
      if Flagged(ps, k, m) {
        FlaggedSameAudience(ps[k].spec, ps[m].spec);
      }
    }
  }

  /** The other placement is alike in everything but the ranges, and neither has a range or they share one. */
  predicate Rival(ps: seq<Placement>, k: nat, m: nat)
    requires k < |ps| && m < |ps|
  {
    Kin(ps[k].spec, ps[m].spec) && RangesCompatible(ps[k].spec, ps[m].spec)
  }

  /** Valid, and neither separator of signatures occurs where it could be mistaken. */
  predicate Legible(p: Placement) {
    SpecOk(p.spec) && SeparatorFree(p.spec.selectors) && FieldsSeparate(p.spec.selectors)
  }

  lemma FlaggedIffRival(ps: seq<Placement>, k: nat, m: nat)
    requires k < |ps| && m < |ps| && Legible(ps[k]) && Legible(ps[m])
    ensures Flagged(ps, k, m) <==> Rival(ps, k, m)
  {
    FlaggedIff(ps[k].spec, ps[m].spec);
  }

  /** Among valid placements, one is planned exactly when it compiles and has no rival. */
  lemma PlannedIffNoRival(ps: seq<Placement>, k: nat)
    requires k < |ps| && forall m :: 0 <= m < |ps| ==> Legible(ps[m])
    ensures PlannedAt(ps, k) <==> Compiles(ps[k]) && forall m :: 0 <= m < |ps| && m != k ==> !Rival(ps, k, m)
  {
    forall m: nat | m < |ps| ensures Flagged(ps, k, m) <==> Rival(ps, k, m) {
      FlaggedIffRival(ps, k, m);
    }
  }

  /** The rule compiled from a placement matches the request. */
  ghost predicate Routes(p: Placement, req: Request)
    requires Compiles(p)
  {
    RuleHolds(BuildMatches(CompiledSpec(p).value), req)
  }

  /** No request is matched by the rules of two planned placements that differ only in their range on
      one header or query parameter. */
  lemma PlannedPlacementsExclusive(ps: seq<Placement>, k: nat, m: nat, a: Selector, b: Selector, req: Request)
    requires k < |ps| && m < |ps| && k != m && PlannedAt(ps, k) && PlannedAt(ps, m)
    requires OneRangeEach(ps[k].spec, ps[m].spec, a, b) && (a.source.kind.Header? || a.source.kind.QueryParam?)
    requires HeadersApart(ps[k].spec.selectors) && HeadersApart(ps[m].spec.selectors)
    ensures !(Routes(ps[k], req) && Routes(ps[m], req))
  {
    FlaggedIffIntersect(ps[k].spec, ps[m].spec, a, b);
    assert !Flagged(ps, k, m);
    SelectorsExclude(ps[k], ps[m], a, b, req);
  }

  lemma SelectorsExclude(p: Placement, q: Placement, a: Selector, b: Selector, req: Request)
    requires Compiles(p) && Compiles(q) && HeadersApart(p.spec.selectors) && HeadersApart(q.spec.selectors)
    requires Ranges(p.spec.selectors) == [a] && Ranges(q.spec.selectors) == [b] && a.source == b.source
    requires a.source.kind.Header? || a.source.kind.QueryParam?
    requires a.range.Some? && b.range.Some? && !NumericRangesIntersect(a.range.value, b.range.value)
    ensures !(Routes(p, req) && Routes(q, req))
  {
    assert a in Ranges(p.spec.selectors) && b in Ranges(q.spec.selectors);
    if Routes(p, req) && Routes(q, req) {
      RoutedNeeds(p, a, req);
      RoutedNeeds(q, b, req);
      HoldTogether(a, b, req);
    }
  }

  lemma RoutedNeeds(p: Placement, s: Selector, req: Request)
    requires Compiles(p) && HeadersApart(p.spec.selectors) && Routes(p, req)
    requires s in p.spec.selectors && (s.source.kind.Header? || s.source.kind.QueryParam?)
    ensures SelectorHolds(s, req)
  {
    RuleNeedsSelector(p, s, req);
  }

  lemma HoldTogether(a: Selector, b: Selector, req: Request)
    requires a.source == b.source && a.operator.Range? && b.operator.Range?
    requires (a.source.kind.Header? || a.source.kind.QueryParam?) && SelectorHolds(a, req) && SelectorHolds(b, req)
    ensures a.range.Some? && b.range.Some? && NumericRangesIntersect(a.range.value, b.range.value)
  {
  }
}
