/**
 Create-or-update writes on a keyed store, one after the other. Each write overlays an object with
 desired state and keeps what it does not mention.
 */
module Overlay {
  import opened Basics

  /** Namespace and name of a namespaced object. */
  datatype Key = Key(ns: string, name: string)

  datatype Write<V> = Write(key: Key, value: V)

  function Get<O>(m: map<Key, O>, k: Key): Option<O> {
    if k in m then Some(m[k]) else None
  }

  function Apply<O, V>(m: map<Key, O>, w: Write<V>, put: (Option<O>, V) -> O): map<Key, O> {
    m[w.key := put(Get(m, w.key), w.value)]
  }

  function Fold<O, V>(m: map<Key, O>, ws: seq<Write<V>>, put: (Option<O>, V) -> O): map<Key, O> {
    if ws == [] then m else Apply(Fold(m, ws[..|ws| - 1], put), ws[|ws| - 1], put)
  }

  /** The last write to a key. */
  function Last<V>(ws: seq<Write<V>>, k: Key): (r: Option<V>)
    ensures r.Some? <==> exists i :: 0 <= i < |ws| && ws[i].key == k
    ensures r.Some? ==> exists i :: 0 <= i < |ws| && ws[i].key == k && ws[i].value == r.value
  {
    if ws == [] then None
    else if ws[|ws| - 1].key == k then Some(ws[|ws| - 1].value)
    else Last(ws[..|ws| - 1], k)
  }

  /** A later write to the same key leaves no trace of an earlier one. */
  ghost predicate Absorbs<O(!new), V>(ws: seq<Write<V>>, put: (Option<O>, V) -> O) {
    forall i, j, o: Option<O> :: 0 <= i <= j < |ws| && ws[i].key == ws[j].key ==>
      put(Some(put(o, ws[i].value)), ws[j].value) == put(o, ws[j].value)
  }

  lemma {:induction false} FoldAt<O(!new), V>(m: map<Key, O>, ws: seq<Write<V>>, put: (Option<O>, V) -> O, k: Key)
    requires Absorbs(ws, put)
    ensures Get(Fold(m, ws, put), k) ==
            match Last(ws, k) case None => Get(m, k) case Some(v) => Some(put(Get(m, k), v))
  {
    if ws != [] {
      var n := |ws| - 1;
      var front := ws[..n];
      FoldAt(m, front, put, k);
      if ws[n].key == k && Last(front, k).Some? {
        var i :| 0 <= i < n && front[i].key == k && front[i].value == Last(front, k).value;
        assert ws[i] == front[i];
      }
    }
  }

  /** Repeating all writes changes nothing. */
  lemma FoldIdempotent<O(!new), V>(m: map<Key, O>, ws: seq<Write<V>>, put: (Option<O>, V) -> O)
    requires Absorbs(ws, put)
    ensures Fold(Fold(m, ws, put), ws, put) == Fold(m, ws, put)
  {
    var once := Fold(m, ws, put);
    var twice := Fold(once, ws, put);
    forall k ensures Get(twice, k) == Get(once, k) {
      FoldAt(m, ws, put, k);
      FoldAt(once, ws, put, k);
      if Last(ws, k).Some? {
        var i :| 0 <= i < |ws| && ws[i].key == k && ws[i].value == Last(ws, k).value;
      }
    }
    SameStore(twice, once);
  }

  lemma SameStore<O>(a: map<Key, O>, b: map<Key, O>)
    requires forall k :: Get(a, k) == Get(b, k)
    ensures a == b
  {
    forall k ensures k in a <==> k in b {
      assert Get(a, k) == Get(b, k);
    }
    forall k | k in a ensures a[k] == b[k] {
      assert Get(a, k) == Get(b, k);
    }
  }
}
