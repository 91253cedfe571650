/**
 * Optional values, the model's stand-in for `T | undefined` and `T | null`,
 * and facts about sequences the other modules share.
 */
module Wrappers {

  datatype Option<+T> = None | Some(value: T) {

    /** The value if present, otherwise `default` (JavaScript's `??`). */
    function GetOr(default: T): T {
      match this
      case Some(v) => v
      case None => default
    }
  }

  /** Concatenation regroups freely. */
  lemma Associative<X>(a: seq<X>, b: seq<X>, c: seq<X>)
    ensures (a + b) + c == a + (b + c)
  {
  }

  /** A prefix one longer is the prefix followed by the next element. */
  lemma PrefixExtend<X>(s: seq<X>, i: nat)
    requires i < |s|
    ensures s[..i + 1] == s[..i] + [s[i]]
    ensures forall x :: x in s[..i + 1] <==> x in s[..i] || x == s[i]
  {
    assert s[..i + 1] == s[..i] + [s[i]];
  }

  /** `order` lists each member of `keys` exactly once. */
  ghost predicate ListsOnce<X>(order: seq<X>, keys: set<X>) {
    && (forall i :: 0 <= i < |order| ==> order[i] in keys)
    && (forall a :: a in keys ==> a in order)
    && (forall i, j :: 0 <= i < j < |order| ==> order[i] != order[j])
  }

  /** Appending a new key keeps the listing exact. */
  lemma ListsOnceAppend<X>(order: seq<X>, keys: set<X>, a: X)
    requires ListsOnce(order, keys) && a !in keys
    ensures ListsOnce(order + [a], keys + {a})
  {
  }

  /** A sequence without repetitions has as many elements as the set it enumerates. */
  lemma {:induction false} DistinctCardinality<K>(s: seq<K>, ks: set<K>)
    requires forall i :: 0 <= i < |s| ==> s[i] in ks
    requires forall k :: k in ks ==> k in s
    requires forall i, j :: 0 <= i < j < |s| ==> s[i] != s[j]
    ensures |s| == |ks|
  {
    if s != [] {
      var rest := ks - {s[0]};
      forall k | k in rest ensures k in s[1..] {
        var i :| 0 <= i < |s| && s[i] == k;
        assert i != 0;
      }
      forall i | 0 <= i < |s| - 1 ensures s[1..][i] in rest {
        assert s[i + 1] != s[0];
      }
      DistinctCardinality(s[1..], rest);
    }
  }
}
