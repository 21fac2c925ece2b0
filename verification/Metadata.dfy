/** `metadata.Merge` and the labels builders assemble with it. */
module Metadata {

  type Labels = map<string, string>

  const OPERATOR := "cell-router-operator"
  const MANAGED_BY := "cellrouter.io/managed-by"
  const CELL_NAME := "cellrouter.io/cell-name"
  const ENTRYPOINT := "cellrouter.io/entrypoint-service"
  const ROUTER_NAME := "cellrouter.io/router-name"
  const PLACEMENT_NAME := "cellrouter.io/placement-name"
  const ROUTE_NAME := "cellrouter.io/route-name"

  function Merged(dst: Labels, src: Labels, protectedKeys: set<string>): Labels {
    dst + (src - protectedKeys)
  }

  /** Key by key: an unprotected key of `src` wins, and every other key is as in `dst`. */
  lemma MergedAt(dst: Labels, src: Labels, protectedKeys: set<string>, k: string)
    ensures k in src && k !in protectedKeys ==>
      k in Merged(dst, src, protectedKeys) && Merged(dst, src, protectedKeys)[k] == src[k]
    ensures k !in src || k in protectedKeys ==>
      && (k in Merged(dst, src, protectedKeys) <==> k in dst)
      && (k in dst ==> Merged(dst, src, protectedKeys)[k] == dst[k])
  {
  }

  /** `Merge` visits `src` in an order the language leaves open; the outcome does not depend on it. */
  method Merge(dst: Labels, src: Labels, protectedKeys: seq<string>) returns (r: Labels)
    ensures r == Merged(dst, src, set k | k in protectedKeys)
  {
    r := dst;
    ghost var guarded := set k | k in protectedKeys;
    MergedEnds(dst, src, guarded);
    if |src| == 0 {
      return;
    }
    var rest := src.Keys;
    while rest != {}
      invariant rest <= src.Keys
      invariant r == Merged(dst, src - rest, guarded)
    {
      var k :| k in rest;
      MergedNext(dst, src, rest, k, guarded);
      rest := rest - {k};
      if k !in protectedKeys {
        r := r[k := src[k]];
      }
    }
  }

  lemma MergedEnds(dst: Labels, src: Labels, guarded: set<string>)
    ensures Merged(dst, src - src.Keys, guarded) == dst
    ensures Merged(dst, src - {}, guarded) == Merged(dst, src, guarded)
    ensures src == map[] ==> Merged(dst, src, guarded) == dst
  {
    assert src - {} == src;
  }

  lemma MergedNext(dst: Labels, src: Labels, rest: set<string>, k: string, guarded: set<string>)
    requires k in rest && rest <= src.Keys
    ensures Merged(dst, src - (rest - {k}), guarded) ==
            if k in guarded then Merged(dst, src - rest, guarded) else Merged(dst, src - rest, guarded)[k := src[k]]
  {
    var more, less := src - (rest - {k}) - guarded, src - rest - guarded;
    assert more == if k in guarded then less else less[k := src[k]];
    assert dst + less[k := src[k]] == (dst + less)[k := src[k]];
  }

  /** The two merges builders perform: the operator's keys, then the user's with those protected. */
  function Owned(dst: Labels, operator: Labels, user: Labels): Labels {
    Merged(Merged(dst, operator, {}), user, operator.Keys)
  }

  method MergeAll(dst: Labels, src: Labels) returns (r: Labels)
    ensures r == Merged(dst, src, {})
  {
    r := Merge(dst, src, []);
    assert (set k: string | k in []) == {};
  }

  method MergeOwned(dst: Labels, operator: Labels, user: Labels, keys: seq<string>) returns (r: Labels)
    requires operator.Keys == set k | k in keys
    ensures r == Owned(dst, operator, user)
  {
    r := MergeAll(dst, operator);
    r := Merge(r, user, keys);
  }

  /** Operator keys have the operator's values, whatever the object had and whatever the user asks; the user's
      other keys have the user's values; and all else is as it was. */
  ghost predicate Layered(now: Labels, was: Labels, operator: Labels, user: Labels) {
    && (forall k :: k in operator ==> k in now && now[k] == operator[k])
    && (forall k :: k in user && k !in operator ==> k in now && now[k] == user[k])
    && (forall k :: k !in user && k !in operator ==> (k in now <==> k in was) && (k in was ==> now[k] == was[k]))
  }

  lemma OperatorKeysWin(dst: Labels, operator: Labels, user: Labels)
    ensures Layered(Owned(dst, operator, user), dst, operator, user)
  {
    var mid := Merged(dst, operator, {});
    assert forall k :: k in mid <==> k in operator || k in dst;
  }

  /** Building again changes nothing. */
  lemma OwnedIdempotent(dst: Labels, operator: Labels, user: Labels)
    ensures Owned(Owned(dst, operator, user), operator, user) == Owned(dst, operator, user)
  {
    var once := Owned(dst, operator, user);
    var twice := Owned(once, operator, user);
    assert twice.Keys == once.Keys;
    assert forall k :: k in once ==> twice[k] == once[k];
  }
}
