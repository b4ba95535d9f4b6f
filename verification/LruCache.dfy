/**
 The least-recently-used cache of Baseline/include/lruCache.h: a list of key/value nodes,
 most recently used first, and a map from keys into the list.
 */
module LruCache {

  datatype Node<K, V> = Node(key: K, value: V)

  predicate Has<K(==), V>(s: seq<Node<K, V>>, k: K) {
    exists i :: 0 <= i < |s| && s[i].key == k
  }

  ghost predicate DistinctKeys<K, V>(s: seq<Node<K, V>>) {
    forall i, j :: 0 <= i < j < |s| ==> s[i].key != s[j].key
  }

  /** `s` without the node of key `k`. */
  function Without<K(==), V>(s: seq<Node<K, V>>, k: K): seq<Node<K, V>> {
    if s == [] then [] else if s[0].key == k then s[1..] else [s[0]] + Without(s[1..], k)
  }

  lemma {:induction false} WithoutAt<K, V>(s: seq<Node<K, V>>, i: nat)
    requires i < |s| && DistinctKeys(s)
    ensures Without(s, s[i].key) == s[..i] + s[i + 1..]
  {
    if i == 0 {
      assert s[..0] + s[1..] == s[1..];
    } else {
      assert s[0].key != s[i].key;
      WithoutAt(s[1..], i - 1);
      assert s[1..][..i - 1] == s[1..i] && s[1..][i..] == s[i + 1..];
      assert [s[0]] + (s[1..i] + s[i + 1..]) == s[..i] + s[i + 1..];
    }
  }

  class Cache<K(==), V(0)> {
    const maxSize: nat
    const elasticity: nat
    /** `keys_`, front first. */
    var keys: seq<Node<K, V>>
    /** The keys of `cache_`; the iterator that `cache_` stores for a key denotes the node
        of that key in `keys_`. */
    var cache: set<K>

    ghost predicate Valid()
      reads this
    {
      DistinctKeys(keys) && cache == (set i | 0 <= i < |keys| :: keys[i].key)
    }

    constructor (maxSize: nat, elasticity: nat)
      ensures Valid() && keys == [] && this.maxSize == maxSize && this.elasticity == elasticity
    {
      this.maxSize, this.elasticity := maxSize, elasticity;
      keys, cache := [], {};
    }

    method Size() returns (n: nat)
      requires Valid()
      ensures n == |keys|
    {
      n := |cache|;
      CacheSize();
    }

    lemma CacheSize()
      requires Valid()
      ensures |cache| == |keys|
    {
      KeySetSize(keys);
    }

    /** contains */
    method Contains(k: K) returns (found: bool)
      requires Valid()
      ensures found <==> Has(keys, k)
    {
      found := k in cache;
    }

    /** The position of the node that the iterator for `k` denotes. */
    method Find(k: K) returns (i: nat)
      requires Valid() && k in cache
      ensures i < |keys| && keys[i].key == k
    {
      i := 0;
      while keys[i].key != k
        invariant i < |keys| && forall j :: 0 <= j < i ==> keys[j].key != k
        decreases |keys| - i
      {
        i := i + 1;
      }
    }

    /** get: the value, after the node is spliced to the front. The source throws when the
        key is absent. */
    method Get(k: K) returns (found: bool, v: V)
      requires Valid()
      modifies this`keys
      ensures Valid() && (found <==> old(Has(keys, k)))
      ensures found ==> Node(k, v) in old(keys) && keys == [Node(k, v)] + Without(old(keys), k)
      ensures !found ==> keys == old(keys)
    {
      found := k in cache;
      if found {
        var i := Find(k);
        v := keys[i].value;
        WithoutAt(keys, i);
        MovedToFront(keys, i, keys[i].value);
        keys := [keys[i]] + (keys[..i] + keys[i + 1..]);
      } else {
        v := *;
      }
    }

    /** pruneValue: the value of the least recently used key. */
    method PruneValue() returns (v: V)
      requires Valid() && keys != []
      ensures v == keys[|keys| - 1].value
    {
      var i := Find(keys[|keys| - 1].key);
      v := keys[i].value;
    }

    /** insert */
    method Insert(k: K, v: V)
      requires Valid()
      modifies this
      ensures Valid()
      ensures old(Has(keys, k)) ==> keys == [Node(k, v)] + Without(old(keys), k)
      ensures !old(Has(keys, k)) ==> keys == Pruned([Node(k, v)] + old(keys), maxSize, elasticity)
    {
      if k in cache {
        var i := Find(k);
        WithoutAt(keys, i);
        MovedToFront(keys, i, v);
        keys := [Node(k, v)] + (keys[..i] + keys[i + 1..]);
      } else {
        AddedToFront(keys, k, v);
        keys := [Node(k, v)] + keys;
        cache := cache + {k};
        Prune();
      }
    }

    /** prune */
    method Prune()
      requires Valid()
      modifies this
      ensures Valid() && keys == Pruned(old(keys), maxSize, elasticity)
    {
      CacheSize();
      if maxSize == 0 || |cache| < maxSize + elasticity {
        return;
      }
      while |cache| > maxSize
        invariant Valid() && |cache| == |keys|
        invariant keys == old(keys)[..|keys|] && (|keys| >= maxSize || |keys| == |old(keys)|)
        decreases |keys|
      {
        var n := |keys| - 1;
        DroppedLast(keys);
        cache := cache - {keys[n].key};
        keys := keys[..n];
        CacheSize();
      }
    }
  }

  /** The nodes that survive `prune`. */
  function Pruned<K, V>(s: seq<Node<K, V>>, maxSize: nat, elasticity: nat): seq<Node<K, V>> {
    if maxSize == 0 || |s| < maxSize + elasticity || |s| <= maxSize then s else s[..maxSize]
  }

  ghost function KeySet<K, V>(s: seq<Node<K, V>>): set<K> {
    set i | 0 <= i < |s| :: s[i].key
  }

  lemma {:induction false} KeySetSize<K, V>(s: seq<Node<K, V>>)
    requires DistinctKeys(s)
    ensures |KeySet(s)| == |s|
  {
    if s != [] {
      DroppedLast(s);
      KeySetSize(s[..|s| - 1]);
      assert KeySet(s) == KeySet(s[..|s| - 1]) + {s[|s| - 1].key};
    }
  }

  lemma DroppedLast<K, V>(s: seq<Node<K, V>>)
    requires s != [] && DistinctKeys(s)
    ensures DistinctKeys(s[..|s| - 1])
    ensures s[|s| - 1].key !in KeySet(s[..|s| - 1])
    ensures KeySet(s) - {s[|s| - 1].key} == KeySet(s[..|s| - 1])
  {
    var t := s[..|s| - 1];
    forall k
      ensures k in KeySet(t) <==> k in KeySet(s) && k != s[|s| - 1].key
    {
      if k in KeySet(s) && k != s[|s| - 1].key {
        var i :| 0 <= i < |s| && s[i].key == k;
        assert t[i].key == k;
      }
      if k in KeySet(t) {
        var i :| 0 <= i < |t| && t[i].key == k;
        assert s[i].key == k;
      }
    }
  }

  lemma AddedToFront<K, V>(s: seq<Node<K, V>>, k: K, v: V)
    requires DistinctKeys(s) && k !in KeySet(s)
    ensures DistinctKeys([Node(k, v)] + s) && KeySet([Node(k, v)] + s) == KeySet(s) + {k}
  {
    var t := [Node(k, v)] + s;
    forall x
      ensures x in KeySet(t) <==> x in KeySet(s) || x == k
    {
      if x in KeySet(s) {
        var i :| 0 <= i < |s| && s[i].key == x;
        assert t[i + 1].key == x;
      }
      if x == k {
        assert t[0].key == x;
      }
    }
  }

  lemma MovedToFront<K, V>(s: seq<Node<K, V>>, i: nat, v: V)
    requires DistinctKeys(s) && i < |s|
    ensures var t := [Node(s[i].key, v)] + (s[..i] + s[i + 1..]); DistinctKeys(t) && KeySet(t) == KeySet(s)
  {
    var t := [Node(s[i].key, v)] + (s[..i] + s[i + 1..]);
    assert forall j :: 1 <= j < |t| ==> t[j] == if j <= i then s[j - 1] else s[j];
    forall x
      ensures x in KeySet(t) <==> x in KeySet(s)
    {
      if x in KeySet(s) {
        var j :| 0 <= j < |s| && s[j].key == x;
        assert t[if j == i then 0 else if j < i then j + 1 else j].key == x;
      }
      if x in KeySet(t) {
        var j :| 0 <= j < |t| && t[j].key == x;
        assert s[if j == 0 then i else if j <= i then j - 1 else j].key == x;
      }
    }
  }
}
