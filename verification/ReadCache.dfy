/**
 The container cache of a restore (Baseline/src/Util/readCache.cc): an LRU cache from
 container names to slots of a pool of container buffers.
 */
module ReadCache {
  import opened Bytes
  import opened DedupStore
  import opened LruCache
  import opened Recency

  function KeySeq<V>(s: seq<Node<Name, V>>): (r: seq<Name>)
    ensures |r| == |s|
  {
    seq(|s|, i requires 0 <= i < |s| => s[i].key)
  }

  lemma {:induction false} KeySeqWithout<V>(s: seq<Node<Name, V>>, k: Name)
    ensures KeySeq(Without(s, k)) == Drop(KeySeq(s), k)
  {
    if s != [] {
      KeySeqWithout(s[1..], k);
      assert KeySeq(s)[1..] == KeySeq(s[1..]);
      assert s[0].key != k ==> KeySeq([s[0]] + Without(s[1..], k)) == [s[0].key] + KeySeq(Without(s[1..], k));
    }
  }

  /** The first `length` bytes of `slot` replaced by those of `data`. */
  function Overwritten(slot: Data, data: Data, length: nat): (r: Data)
    requires length <= |data| && length <= |slot|
    ensures |r| == |slot| && data[..length] <= r
  {
    data[..length] + slot[length..]
  }

  /** A node leads to a slot in use whose first bytes are the container's. */
  predicate SlotOk(n: Node<Name, nat>, pool: seq<Data>, used: nat, disk: map<Name, Data>) {
    n.value < used <= |pool| && n.key in disk && disk[n.key] <= pool[n.value]
  }

  /** Live keys have good slots, and no two share one. */
  ghost predicate SlotsOk(keys: seq<Node<Name, nat>>, pool: seq<Data>, used: nat, disk: map<Name, Data>) {
    && (forall i {:trigger keys[i]} :: 0 <= i < |keys| ==> SlotOk(keys[i], pool, used, disk))
    && (forall i, j :: 0 <= i < j < |keys| ==> keys[i].value != keys[j].value)
  }

  lemma TouchedSlots(keys: seq<Node<Name, nat>>, i: nat, pool: seq<Data>, used: nat, disk: map<Name, Data>)
    requires SlotsOk(keys, pool, used, disk) && DistinctKeys(keys) && i < |keys|
    ensures SlotsOk([keys[i]] + Without(keys, keys[i].key), pool, used, disk)
  {
    hide SlotOk, Without, DistinctKeys;
    WithoutAt(keys, i);
    var t := [keys[i]] + (keys[..i] + keys[i + 1..]);
    forall a, b | 0 <= a < b < |t|
      ensures t[a].value != t[b].value
    {
      MovedNode(keys, i, a);
      MovedNode(keys, i, b);
      assert OldPosition(i, a) != OldPosition(i, b);
    }
    forall a | 0 <= a < |t|
      ensures SlotOk(t[a], pool, used, disk)
    {
      MovedNode(keys, i, a);
    }
  }

  lemma MovedNode(keys: seq<Node<Name, nat>>, i: nat, j: nat)
    requires i < |keys| && j < |keys|
    ensures ([keys[i]] + (keys[..i] + keys[i + 1..]))[j] == keys[OldPosition(i, j)]
  {
  }

  /** Where the node at position `j` was before the node at `i` moved to the front. */
  function OldPosition(i: nat, j: nat): (p: nat)
    ensures p <= i || p <= j
  {
    if j == 0 then i else if j <= i then j - 1 else j
  }

  /** A free slot is taken. */
  lemma AddedSlot(keys: seq<Node<Name, nat>>, pool: seq<Data>, used: nat, disk: map<Name, Data>, name: Name, slot: Data)
    requires SlotsOk(keys, pool, used, disk) && used < |pool| && name in disk && disk[name] <= slot
    ensures SlotsOk([Node(name, used)] + keys, pool[used := slot], used + 1, disk)
  {
    var t, pool' := [Node(name, used)] + keys, pool[used := slot];
    forall i | 0 <= i < |t|
      ensures SlotOk(t[i], pool', used + 1, disk)
    {
      if i > 0 {
        assert SlotOk(keys[i - 1], pool, used, disk);
      }
    }
    assert forall j :: 1 <= j < |t| ==> t[j] == keys[j - 1] && SlotOk(keys[j - 1], pool, used, disk);
  }

  /** The slot of the least recently used key is taken over; that key is the one dropped. */
  lemma ReplacedSlot(keys: seq<Node<Name, nat>>, pool: seq<Data>, used: nat, disk: map<Name, Data>, name: Name,
                     slot: Data)
    requires SlotsOk(keys, pool, used, disk) && keys != [] && name in disk && disk[name] <= slot
    requires keys[|keys| - 1].value < |pool|
    ensures var v := keys[|keys| - 1].value;
      SlotsOk([Node(name, v)] + keys[..|keys| - 1], pool[v := slot], used, disk)
  {
    var n := |keys| - 1;
    var v := keys[n].value;
    var t, pool' := [Node(name, v)] + keys[..n], pool[v := slot];
    assert SlotOk(keys[n], pool, used, disk);
    forall i | 0 <= i < |t|
      ensures SlotOk(t[i], pool', used, disk)
    {
      if i > 0 {
        assert t[i] == keys[i - 1] && SlotOk(keys[i - 1], pool, used, disk);
      }
    }
    assert forall j :: 1 <= j < |t| ==> t[j] == keys[j - 1];
  }

  class ReadCache {
    const cacheSize: nat
    const maxContainer: nat
    const lru: Cache<Name, nat>
    const pool: array<Data>
    var currentIndex: nat
    /** The containers asked for so far. */
    ghost var accesses: seq<Name>

    /** `disk` is the container directory, which a restore does not change. */
    ghost predicate Valid(disk: map<Name, Data>)
      reads this, lru, pool
    {
      && cacheSize >= 1 && pool.Length == cacheSize && lru.maxSize == cacheSize && lru.elasticity == 0
      && lru.Valid() && |lru.keys| == currentIndex <= cacheSize
      && (forall i :: 0 <= i < pool.Length ==> |pool[i]| == maxContainer)
      && SlotsOk(lru.keys, pool[..], currentIndex, disk)
      && KeySeq(lru.keys) == Take(Mru(accesses), cacheSize)
    }

    constructor (cacheSize: nat, maxContainer: nat, ghost disk: map<Name, Data>)
      requires cacheSize >= 1
      ensures Valid(disk) && fresh(lru) && fresh(pool) && this.maxContainer == maxContainer
    {
      this.cacheSize, this.maxContainer := cacheSize, maxContainer;
      lru := new Cache(cacheSize, 0);
      var blank := seq(maxContainer, i => 0);
      pool := new Data[cacheSize](i => blank);
      currentIndex, accesses := 0, [];
    }

    method ExistsInCache(name: Name, ghost disk: map<Name, Data>) returns (found: bool)
      requires Valid(disk)
      ensures found <==> Has(lru.keys, name)
    {
      found := lru.Contains(name);
    }

    /** ReadFromCache: the buffer starts with the container's bytes. */
    method ReadFromCache(name: Name, ghost disk: map<Name, Data>) returns (buf: Data)
      requires Valid(disk) && Has(lru.keys, name)
      modifies this`accesses, lru
      ensures Valid(disk) && accesses == old(accesses) + [name]
      ensures name in disk && disk[name] <= buf && |buf| == maxContainer
    {
      hide Mru, Drop, Take, Without, SlotOk;
      ghost var keys := lru.keys;
      ghost var i: nat :| i < |keys| && keys[i].key == name;
      TouchedSlots(keys, i, pool[..], currentIndex, disk);
      KeySeqWithout(keys, name);
      WithoutAt(keys, i);
      TouchRecency(accesses, name, cacheSize);
      assert name in KeySeq(keys) by {
        assert KeySeq(keys)[i] == name;
      }
      var found, index := lru.Get(name);
      SameNode(keys, i, Node(name, index));
      GoodSlot(keys, i, pool[..], currentIndex, disk);
      buf := pool[index];
      accesses := accesses + [name];
      assert KeySeq(lru.keys) == [name] + KeySeq(Without(keys, name));
    }

    /** The list order is recency order: the live keys are ordered by their last access, and
        no other container was asked for as recently. */
    lemma KeysByLastAccess(disk: map<Name, Data>)
      requires Valid(disk)
      ensures MostRecent(accesses, KeySeq(lru.keys))
    {
      TakeIsMostRecent(accesses, cacheSize);
    }

    /** InsertToCache. The decoder calls it only for a container that is not cached; a cached
        one keeps the cache valid only if the cache is full and the name is the last key. */
    method InsertToCache(name: Name, data: Data, length: nat, ghost disk: map<Name, Data>)
      requires Valid(disk)
      requires length <= |data| && length <= maxContainer && name in disk && disk[name] == data[..length]
      modifies this, lru, pool
      ensures Valid(disk) <==> !old(Has(lru.keys, name)) || old(FullEndingWith(lru.keys, cacheSize, name))
      ensures accesses == old(accesses) + [name] && Has(lru.keys, name)
    {
      hide Mru, Drop, Take, Without, SlotOk, SlotsOk, Overwritten, KeySeq, Pruned, DistinctKeys, Has;
      ghost var keys, slots, had := lru.keys, pool[..], Has(lru.keys, name);
      TouchRecency(accesses, name, cacheSize);
      AmongKeys(keys, name);
      var size := lru.Size();
      if size + 1 > cacheSize {
        var replaceIndex := lru.PruneValue();
        GoodSlot(keys, |keys| - 1, slots, currentIndex, disk);
        var slot := Overwritten(pool[replaceIndex], data, length);
        ReplacedSlot(keys, slots, currentIndex, disk, name, slot);
        pool[replaceIndex] := slot;
        assert pool[..] == slots[replaceIndex := slot];
        lru.Insert(name, replaceIndex);
        if !had {
          EvictsLast(keys, name, replaceIndex, cacheSize);
        } else {
          Reinserted(keys, name, replaceIndex, pool[..], currentIndex, disk);
        }
      } else {
        var slot := Overwritten(pool[currentIndex], data, length);
        AddedSlot(keys, slots, currentIndex, disk, name, slot);
        pool[currentIndex] := slot;
        assert pool[..] == slots[currentIndex := slot];
        lru.Insert(name, currentIndex);
        if !had {
          KeepsAll(keys, name, currentIndex, cacheSize);
        } else {
          MovedSize(keys, name);
        }
        currentIndex := currentIndex + 1;
      }
      accesses := accesses + [name];
      FrontIsThere(lru.keys, name);
    }
  }

  predicate FullEndingWith(keys: seq<Node<Name, nat>>, cacheSize: nat, name: Name) {
    |keys| == cacheSize >= 1 && keys[|keys| - 1].key == name
  }

  lemma FrontIsThere(keys: seq<Node<Name, nat>>, name: Name)
    requires keys != [] && keys[0].key == name
    ensures Has(keys, name)
  {
  }

  lemma FrontKey(x: Node<Name, nat>, rest: seq<Node<Name, nat>>)
    ensures KeySeq([x] + rest) == [x.key] + KeySeq(rest)
  {
  }

  lemma SharedSlot(keys: seq<Node<Name, nat>>, pool: seq<Data>, used: nat, disk: map<Name, Data>)
    requires |keys| >= 2 && keys[0].value == keys[|keys| - 1].value
    ensures !SlotsOk(keys, pool, used, disk)
  {
    hide SlotOk;
  }

  /** A key moves to the front: no node is lost. */
  lemma MovedSize(keys: seq<Node<Name, nat>>, name: Name)
    requires Has(keys, name) && DistinctKeys(keys)
    ensures |Without(keys, name)| == |keys| - 1
  {
    var i: nat :| i < |keys| && keys[i].key == name;
    WithoutAt(keys, i);
  }

  /** A cached key takes over the slot of the last key: fine if it is that key, else the last
      key's slot is shared. */
  lemma Reinserted(keys: seq<Node<Name, nat>>, name: Name, v: nat, pool: seq<Data>, used: nat, disk: map<Name, Data>)
    requires Has(keys, name) && DistinctKeys(keys) && keys[|keys| - 1].value == v
    ensures |Without(keys, name)| == |keys| - 1
    ensures keys[|keys| - 1].key == name ==>
      && Without(keys, name) == keys[..|keys| - 1]
      && KeySeq([Node(name, v)] + Without(keys, name)) == [name] + Drop(KeySeq(keys), name)
    ensures keys[|keys| - 1].key != name ==> !SlotsOk([Node(name, v)] + Without(keys, name), pool, used, disk)
  {
    hide SlotOk, SlotsOk, Without, Drop;
    var n := |keys| - 1;
    var i: nat :| i < |keys| && keys[i].key == name;
    WithoutAt(keys, i);
    KeySeqWithout(keys, name);
    var rest := Without(keys, name);
    if i == n {
      assert keys[..n] + keys[n + 1..] == keys[..n];
      FrontKey(Node(name, v), rest);
    } else {
      assert rest[|rest| - 1] == keys[n];
      SharedSlot([Node(name, v)] + rest, pool, used, disk);
    }
  }

  /** A full cache drops exactly the node whose slot was taken over. */
  lemma EvictsLast(keys: seq<Node<Name, nat>>, name: Name, v: nat, cacheSize: nat)
    requires |keys| == cacheSize >= 1
    ensures Pruned([Node(name, v)] + keys, cacheSize, 0) == [Node(name, v)] + keys[..|keys| - 1]
    ensures KeySeq(Pruned([Node(name, v)] + keys, cacheSize, 0)) == Take([name] + KeySeq(keys), cacheSize)
  {
    assert Pruned([Node(name, v)] + keys, cacheSize, 0) == [Node(name, v)] + keys[..|keys| - 1];
  }

  lemma KeepsAll(keys: seq<Node<Name, nat>>, name: Name, v: nat, cacheSize: nat)
    requires |keys| < cacheSize
    ensures Pruned([Node(name, v)] + keys, cacheSize, 0) == [Node(name, v)] + keys
    ensures KeySeq(Pruned([Node(name, v)] + keys, cacheSize, 0)) == Take([name] + KeySeq(keys), cacheSize)
  {
  }

  lemma SameNode(keys: seq<Node<Name, nat>>, i: nat, n: Node<Name, nat>)
    requires DistinctKeys(keys) && i < |keys| && n in keys && n.key == keys[i].key
    ensures n == keys[i]
  {
  }

  lemma GoodSlot(keys: seq<Node<Name, nat>>, i: nat, pool: seq<Data>, used: nat, disk: map<Name, Data>)
    requires SlotsOk(keys, pool, used, disk) && i < |keys|
    ensures keys[i].value < used <= |pool| && keys[i].key in disk && disk[keys[i].key] <= pool[keys[i].value]
  {
  }

  lemma AmongKeys(keys: seq<Node<Name, nat>>, name: Name)
    ensures name in KeySeq(keys) <==> Has(keys, name)
  {
    if i :| 0 <= i < |keys| && keys[i].key == name {
      assert KeySeq(keys)[i] == name;
    }
  }

  lemma TouchRecency(h: seq<Name>, k: Name, n: nat)
    requires n >= 1
    ensures Mru(h + [k]) == [k] + Drop(Mru(h), k)
    ensures k in Take(Mru(h), n) ==> [k] + Drop(Take(Mru(h), n), k) == Take(Mru(h + [k]), n)
    ensures k !in Take(Mru(h), n) ==> Take([k] + Take(Mru(h), n), n) == Take(Mru(h + [k]), n)
  {
    assert (h + [k])[..|h|] == h;
    MruDistinct(h);
    TouchThenTake(Mru(h), k, n);
  }
}
