/**
 * A map that can be read before it is written: `get(k)` hands out a promise
 * for the value of `k` that the first `set(k, …)` fulfils. Promises are
 * modelled by numeric handles; `resolution` records the value each settled
 * handle resolved to, and a handle is settled at most once.
 */
module DeferredMaps {
  import opened Wrappers

  class DeferredMap<K(==, !new), V> {
    /** keys with a waiter, and the handle of the promise that waiter settles */
    var pending: map<K, nat>
    var existing: map<K, V>
    /** the keys of `existing` in insertion order */
    var existingOrder: seq<K>
    /** the promise `get` returns for each key */
    var promises: map<K, nat>
    /** the value each settled promise resolved to */
    var resolution: map<nat, V>
    var nextHandle: nat

    ghost predicate Valid()
      reads this
    {
      && PromisesValid() && OrderValid()
      && (forall k :: k in existing ==> k in promises && k !in pending)
    }

    /** Waiters, promises and settlements agree. */
    ghost predicate PromisesValid()
      reads this`pending, this`promises, this`resolution, this`nextHandle
    {
      && (forall k :: k in pending ==> k in promises && pending[k] == promises[k] && pending[k] !in resolution)
      && (forall k :: k in promises ==> promises[k] < nextHandle)
      && (forall k :: k in promises && k !in pending ==> promises[k] in resolution)
      && (forall h :: h in resolution ==> h < nextHandle)
      && (forall k1, k2 :: k1 in promises && k2 in promises && k1 != k2 ==> promises[k1] != promises[k2])
    }

    /** `existingOrder` enumerates the keys of `existing` once each. */
    ghost predicate OrderValid()
      reads this`existing, this`existingOrder
    {
      && (forall i :: 0 <= i < |existingOrder| ==> existingOrder[i] in existing)
      && (forall k :: k in existing ==> k in existingOrder)
      && (forall i, j :: 0 <= i < j < |existingOrder| ==> existingOrder[i] != existingOrder[j])
    }

    /** What the promise `get(k)` returns has settled to, if it has. */
    ghost function Settled(k: K): Option<V>
      reads this`promises, this`resolution
    {
      if k in promises && promises[k] in resolution then Some(resolution[promises[k]]) else None
    }

    constructor ()
      ensures Valid() && pending == map[] && existing == map[] && promises == map[]
    {
      pending, existing, existingOrder, promises, resolution, nextHandle := map[], map[], [], map[], map[], 0;
    }

    /** `get(k)`: the one promise for `k`, created (with a waiter) on first use. */
    method Get(k: K) returns (h: nat)
      requires Valid()
      modifies this
      ensures Valid()
      ensures k in promises && h == promises[k]
      ensures k in old(promises) ==> h == old(promises[k]) && pending == old(pending) && promises == old(promises)
      ensures k !in old(promises) ==>
        (h == old(nextHandle) && h !in resolution && pending == old(pending)[k := h] && promises == old(promises)[k := h])
      ensures existing == old(existing) && existingOrder == old(existingOrder) && resolution == old(resolution)
    {
      if k in promises {
        h := promises[k];
      } else {
        h := nextHandle;
        nextHandle := nextHandle + 1;
        pending := pending[k := h];
        promises := promises[k := h];
      }
    }

    /** `getExisting(k)`: the latest value set for `k`. */
    function GetExisting(k: K): (r: Option<V>)
      reads this`existing
      ensures r.Some? <==> k in existing
    {
      if k in existing then Some(existing[k]) else None
    }

    /** `getAllExisting()`: the values currently set, in the order their keys were first set. */
    function GetAllExisting(): (r: seq<V>)
      reads this
      requires Valid()
      ensures |r| == |existingOrder| == |existing|
      ensures forall i :: 0 <= i < |r| ==> r[i] == existing[existingOrder[i]]
    {
      assert |existingOrder| == |existing| by {
        DistinctCardinality(existingOrder, existing.Keys);
      }
      seq(|existingOrder|, i requires 0 <= i < |existingOrder| && Valid() reads this => existing[existingOrder[i]])
    }

    /** `set(k, v)`: records `v`, and settles the waiter of `k` with it if there is one. */
    method Set(k: K, v: V)
      requires Valid()
      modifies this
      ensures Valid()
      ensures existing == old(existing)[k := v] && GetExisting(k) == Some(v)
      ensures existingOrder == if k in old(existing) then old(existingOrder) else old(existingOrder) + [k]
      ensures k in old(pending) ==> resolution == old(resolution)[old(pending[k]) := v]
      ensures k in old(promises) ==> promises == old(promises)
      ensures pending == old(pending) - {k}
      ensures Settled(k) == if old(Settled(k)).Some? then old(Settled(k)) else Some(v)
      ensures forall k' :: k' != k ==> Settled(k') == old(Settled(k'))
    {
      Settle(k, v);
      Record(k, v);
    }

    /** The value half of `set`: remember `v` as the latest value of `k`. */
    method Record(k: K, v: V)
      requires OrderValid()
      modifies this`existing, this`existingOrder
      ensures OrderValid()
      ensures existing == old(existing)[k := v]
      ensures existingOrder == if k in old(existing) then old(existingOrder) else old(existingOrder) + [k]
    {
      if k !in existing {
        existingOrder := existingOrder + [k];
      }
      existing := existing[k := v];
    }

    /** The promise half of `set`: settle the waiter, or create a settled promise. */
    method Settle(k: K, v: V)
      requires PromisesValid()
      modifies this`pending, this`promises, this`resolution, this`nextHandle
      ensures PromisesValid() && k in promises && old(promises).Keys <= promises.Keys
      ensures k in old(pending) ==> resolution == old(resolution)[old(pending[k]) := v]
      ensures k in old(promises) ==> promises == old(promises)
      ensures k in old(promises) && k !in old(pending) ==> resolution == old(resolution)
      ensures k !in old(promises) ==>
        (promises == old(promises)[k := old(nextHandle)] && resolution == old(resolution)[old(nextHandle) := v])
      ensures pending == old(pending) - {k}
      ensures Settled(k) == if old(Settled(k)).Some? then old(Settled(k)) else Some(v)
      ensures forall k' :: k' != k ==> Settled(k') == old(Settled(k'))
    {
      if k in pending {
        ResolveWaiter(k, v);
      }
      if k !in promises {
        AddSettled(k, v);
      }
    }

    /** Settles the promise the waiter of `k` holds. */
    method ResolveWaiter(k: K, v: V)
      requires PromisesValid() && k in pending
      modifies this`pending, this`resolution
      ensures PromisesValid()
      ensures resolution == old(resolution)[old(pending[k]) := v] && pending == old(pending) - {k}
      ensures Settled(k) == Some(v)
      ensures forall k' :: k' != k ==> Settled(k') == old(Settled(k'))
    {
      resolution := resolution[pending[k] := v];
      pending := pending - {k};
    }

    /** Creates the promise of `k`, already settled with `v`. */
    method AddSettled(k: K, v: V)
      requires PromisesValid() && k !in promises
      modifies this`promises, this`resolution, this`nextHandle
      ensures PromisesValid()
      ensures promises == old(promises)[k := old(nextHandle)] && resolution == old(resolution)[old(nextHandle) := v]
      ensures Settled(k) == Some(v)
      ensures forall k' :: k' != k ==> Settled(k') == old(Settled(k'))
    {
      promises := promises[k := nextHandle];
      resolution := resolution[nextHandle := v];
      nextHandle := nextHandle + 1;
    }

    /** `delete(k)`: forgets `k` entirely; the next `get(k)` makes a new promise. */
    method Delete(k: K)
      requires Valid()
      modifies this
      ensures Valid()
      ensures pending == old(pending) - {k} && existing == old(existing) - {k} && promises == old(promises) - {k}
      ensures resolution == old(resolution) && Settled(k) == None
      ensures forall k' :: k' != k ==> Settled(k') == old(Settled(k'))
    {
      pending := pending - {k};
      existing := existing - {k};
      promises := promises - {k};
      existingOrder := RemoveKey(existingOrder, k);
    }
  }

  /** `s` without `k`. */
  function RemoveKey<K(==)>(s: seq<K>, k: K): (r: seq<K>)
    ensures forall i :: 0 <= i < |r| ==> r[i] in s && r[i] != k
    ensures forall i :: 0 <= i < |s| && s[i] != k ==> s[i] in r
    ensures (forall i, j :: 0 <= i < j < |s| ==> s[i] != s[j]) ==> (forall i, j :: 0 <= i < j < |r| ==> r[i] != r[j])
  {
    if s == [] then []
    else if s[0] == k then RemoveKey(s[1..], k)
    else
      var t := RemoveKey(s[1..], k);
      assert forall j :: 0 <= j < |t| ==> t[j] in s[1..];
      [s[0]] + t
  }

  /** Two calls of `get(k)` around a `set(k, …)` wait on the same promise. */
  method SharedPromise<K(==, !new), V>(m: DeferredMap<K, V>, k: K, v: V) returns (first: nat, second: nat)
    requires m.Valid()
    modifies m
    ensures first == second
    ensures m.Settled(k) == Some(v) || m.Settled(k) == old(m.Settled(k))
    ensures old(m.Settled(k)) == None ==> m.Settled(k) == Some(v)
  {
    first := m.Get(k);
    m.Set(k, v);
    second := m.Get(k);
  }
}
