/**
 * A collection of objects identified by numeric ids that it hands out
 * itself, starting at 1 and never reused. Iteration follows insertion order,
 * as a JavaScript `Map` does. Each registration is announced to the
 * `onRegistered` subscribers; the announcements are recorded in `announced`.
 */
module Registries {
  import opened Wrappers

  /** The elements of `s` that satisfy `f`, in order. */
  function Keep<T>(s: seq<T>, f: T -> bool): (r: seq<T>)
    ensures |r| <= |s|
  {
    if s == [] then [] else if f(s[0]) then [s[0]] + Keep(s[1..], f) else Keep(s[1..], f)
  }

  /** `Keep` retains exactly the elements that satisfy the predicate. */
  lemma {:induction false} KeepMembers<T>(s: seq<T>, f: T -> bool, x: T)
    ensures x in Keep(s, f) <==> x in s && f(x)
  {
    if s != [] {
      KeepMembers(s[1..], f, x);
      assert s == [s[0]] + s[1..];
    }
  }

  lemma {:induction false} KeepAppend<T>(s: seq<T>, x: T, f: T -> bool)
    ensures Keep(s + [x], f) == Keep(s, f) + (if f(x) then [x] else [])
  {
    if s == [] {
      assert s + [x] == [x];
    } else {
      assert (s + [x])[1..] == s[1..] + [x];
      KeepAppend(s[1..], x, f);
    }
  }

  /** `s` without the occurrences of `x`. */
  function Without(s: seq<nat>, x: nat): (r: seq<nat>)
    ensures |r| <= |s|
    ensures x !in r
  {
    if s == [] then [] else if s[0] != x then [s[0]] + Without(s[1..], x) else Without(s[1..], x)
  }

  /** `Without` removes `x` and keeps every other element. */
  lemma {:induction false} WithoutMembers(s: seq<nat>, x: nat)
    ensures forall y :: y in Without(s, x) <==> y in s && y != x
  {
    if s != [] {
      WithoutMembers(s[1..], x);
      assert s == [s[0]] + s[1..];
    }
  }

  /** Strictly increasing sequences stay strictly increasing when an element is removed. */
  lemma {:induction false} WithoutIncreasing(s: seq<nat>, x: nat)
    requires forall i, j :: 0 <= i < j < |s| ==> s[i] < s[j]
    ensures forall i, j :: 0 <= i < j < |Without(s, x)| ==> Without(s, x)[i] < Without(s, x)[j]
  {
    if s != [] {
      WithoutIncreasing(s[1..], x);
      WithoutMembers(s[1..], x);
      var t := Without(s[1..], x);
      forall j | 0 <= j < |t| ensures s[0] < t[j] {
        assert t[j] in s[1..];
      }
    }
  }

  /** The values stored under the keys `ks`, in the order of `ks`. */
  function ValuesOf<T>(m: map<nat, T>, ks: seq<nat>): (r: seq<T>)
    requires forall i :: 0 <= i < |ks| ==> ks[i] in m
    ensures |r| == |ks|
    ensures forall i :: 0 <= i < |ks| ==> r[i] == m[ks[i]]
  {
    if ks == [] then [] else [m[ks[0]]] + ValuesOf(m, ks[1..])
  }

  /**
   * The iteration order lists exactly the stored ids, each below the next
   * id to hand out and in increasing order.
   */
  ghost predicate Consistent<T>(objectsById: map<nat, T>, order: seq<nat>, nextId: nat) {
    && nextId >= 1
    && (forall i :: 0 <= i < |order| ==> order[i] in objectsById && 1 <= order[i] < nextId)
    && (forall k :: k in objectsById ==> k in order)
    && (forall i, j :: 0 <= i < j < |order| ==> order[i] < order[j])
  }

  /** Removing one id from the map and the order keeps them consistent. */
  lemma RemovalConsistent<T>(objectsById: map<nat, T>, order: seq<nat>, nextId: nat, id: nat)
    requires Consistent(objectsById, order, nextId)
    ensures Consistent(objectsById - {id}, Without(order, id), nextId)
  {
    var kept := Without(order, id);
    WithoutIncreasing(order, id);
    WithoutMembers(order, id);
    assert forall i :: 0 <= i < |kept| ==> kept[i] in order && kept[i] != id;
  }

  class Registry<T(==)> {
    var objectsById: map<nat, T>
    /** the registered ids in insertion order */
    var order: seq<nat>
    var nextId: nat
    /** the objects announced to `onRegistered` subscribers, in order */
    var announced: seq<T>

    ghost predicate Valid()
      reads this
    {
      Consistent(objectsById, order, nextId)
    }

    /** The registered objects in iteration order. */
    function Entries(): (r: seq<T>)
      reads this
      requires Valid()
      ensures |r| == |order|
      ensures forall i :: 0 <= i < |order| ==> r[i] == objectsById[order[i]]
    {
      ValuesOf(objectsById, order)
    }

    constructor ()
      ensures Valid() && objectsById == map[] && order == [] && nextId == 1 && announced == []
    {
      objectsById, order, nextId, announced := map[], [], 1, [];
    }

    method Register(obj: T) returns (id: nat)
      requires Valid()
      modifies this
      ensures Valid()
      ensures id == old(nextId) && nextId == id + 1 && id >= 1
      ensures id !in old(objectsById)
      ensures objectsById == old(objectsById)[id := obj]
      ensures order == old(order) + [id]
      ensures announced == old(announced) + [obj]
      ensures Find(id) == Some(obj) && Has(id) && Count() == old(Count()) + 1
    {
      id := nextId;
      nextId := nextId + 1;
      objectsById := objectsById[id := obj];
      order := order + [id];
      announced := announced + [obj];
    }

    method Unregister(id: nat) returns (removed: bool)
      requires Valid()
      modifies this
      ensures Valid()
      ensures removed == (id in old(objectsById))
      ensures objectsById == old(objectsById) - {id}
      ensures order == Without(old(order), id)
      ensures nextId == old(nextId) && announced == old(announced)
    {
      RemovalConsistent(objectsById, order, nextId, id);
      removed := id in objectsById;
      objectsById := objectsById - {id};
      order := Without(order, id);
    }

    /** `has(id)`: the id is registered, so iteration visits it and it was handed out. */
    function Has(id: nat): (r: bool)
      reads this
      ensures r <==> Find(id).Some?
      ensures Valid() && r ==> 1 <= id < nextId
    {
      id in objectsById
    }

    /** `find(id)`: the object registered under the id, if any. */
    function Find(id: nat): (r: Option<T>)
      reads this
      ensures r.Some? <==> id in objectsById
      ensures r.Some? ==> r.value == objectsById[id]
    {
      if id in objectsById then Some(objectsById[id]) else None
    }

    /** What `find` gives is yielded by iteration, and only registered ids give anything. */
    lemma FoundIsIterated(id: nat)
      requires Valid()
      ensures Find(id).Some? <==> id in order
      ensures Find(id).Some? ==> Find(id).value in Entries()
    {
      if id in objectsById {
        var i :| 0 <= i < |order| && order[i] == id;
        assert Entries()[i] == objectsById[id];
      }
    }

    /** `count`: the number of registered objects; zero exactly when none is registered. */
    function Count(): (r: nat)
      reads this
      ensures r == 0 <==> objectsById == map[]
    {
      |objectsById|
    }

    /** The count is the number of objects iteration yields. */
    lemma CountIsIterationLength()
      requires Valid()
      ensures Count() == |order| == |Entries()|
    {
      DistinctCardinality(order, objectsById.Keys);
    }

    /** `map(f)`: `f` applied to every registered object, in iteration order. */
    method Map<S>(f: T -> S) returns (result: seq<S>)
      requires Valid()
      ensures |result| == |order|
      ensures forall i :: 0 <= i < |order| ==> result[i] == f(objectsById[order[i]])
    {
      result := [];
      var entries := Entries();
      for i := 0 to |entries|
        invariant |result| == i
        invariant forall j :: 0 <= j < i ==> result[j] == f(entries[j])
      {
        result := result + [f(entries[i])];
      }
    }

    /** `filter(f)`: exactly the registered objects satisfying `f`, in iteration order. */
    method Filter(f: T -> bool) returns (result: seq<T>)
      requires Valid()
      ensures result == Keep(Entries(), f)
    {
      result := [];
      var entries := Entries();
      for i := 0 to |entries|
        invariant result == Keep(entries[..i], f)
      {
        assert entries[..i + 1] == entries[..i] + [entries[i]];
        KeepAppend(entries[..i], entries[i], f);
        if f(entries[i]) {
          result := result + [entries[i]];
        }
      }
      assert entries[..|entries|] == entries;
    }
  }
}
