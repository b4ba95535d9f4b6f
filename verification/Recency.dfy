/**
 What "least recently used" means, independently of the cache: the keys of an access
 history, most recent access first.
 */
module Recency {

  function Drop<K(==)>(s: seq<K>, k: K): seq<K> {
    if s == [] then [] else if s[0] == k then s[1..] else [s[0]] + Drop(s[1..], k)
  }

  /** The distinct keys of `h`, by their last access, latest first. */
  function Mru<K(==)>(h: seq<K>): seq<K> {
    if h == [] then [] else
    var k := h[|h| - 1];
    [k] + Drop(Mru(h[..|h| - 1]), k)
  }

  function Take<K>(s: seq<K>, n: nat): seq<K> {
    if |s| <= n then s else s[..n]
  }

  ghost predicate Distinct<K>(s: seq<K>) {
    forall i, j :: 0 <= i < j < |s| ==> s[i] != s[j]
  }

  lemma {:induction false} DropAbsent<K>(s: seq<K>, k: K)
    requires k !in s
    ensures Drop(s, k) == s
  {
    if s != [] {
      DropAbsent(s[1..], k);
    }
  }

  lemma {:induction false} DropAt<K>(s: seq<K>, p: nat)
    requires p < |s| && Distinct(s)
    ensures Drop(s, s[p]) == s[..p] + s[p + 1..]
  {
    if p == 0 {
      assert s[..0] + s[1..] == s[1..];
    } else {
      assert s[0] != s[p];
      DropAt(s[1..], p - 1);
      assert s[1..][..p - 1] == s[1..p] && s[1..][p..] == s[p + 1..];
      assert [s[0]] + (s[1..p] + s[p + 1..]) == s[..p] + s[p + 1..];
    }
  }

  lemma DropDistinct<K>(s: seq<K>, k: K)
    requires Distinct(s)
    ensures Distinct(Drop(s, k)) && k !in Drop(s, k)
    ensures forall x :: x in Drop(s, k) ==> x in s
    ensures forall x :: x in s && x != k ==> x in Drop(s, k)
  {
    hide Drop;
    if k in s {
      var p :| 0 <= p < |s| && s[p] == k;
      DropAt(s, p);
      CutOut(s, p);
    } else {
      DropAbsent(s, k);
    }
  }

  lemma CutOut<K>(s: seq<K>, p: nat)
    requires Distinct(s) && p < |s|
    ensures var t := s[..p] + s[p + 1..];
      && Distinct(t) && s[p] !in t && (forall x :: x in t ==> x in s)
      && (forall x :: x in s && x != s[p] ==> x in t)
  {
    var t := s[..p] + s[p + 1..];
    assert forall j :: 0 <= j < |t| ==> t[j] == s[if j < p then j else j + 1];
    forall x | x in s && x != s[p]
      ensures x in t
    {
      var j :| 0 <= j < |s| && s[j] == x;
      assert t[if j < p then j else j - 1] == x;
    }
  }

  lemma {:induction false} MruDistinct<K>(h: seq<K>)
    ensures Distinct(Mru(h)) && forall x :: x in h ==> x in Mru(h)
    ensures forall x :: x in Mru(h) ==> x in h
  {
    if h != [] {
      var k := h[|h| - 1];
      MruDistinct(h[..|h| - 1]);
      DropDistinct(Mru(h[..|h| - 1]), k);
      assert h == h[..|h| - 1] + [k];
    }
  }

  lemma TouchKept<K>(s: seq<K>, p: nat, n: nat)
    requires Distinct(s) && p < |s| && p < n
    ensures s[p] in Take(s, n) && [s[p]] + Drop(Take(s, n), s[p]) == Take([s[p]] + Drop(s, s[p]), n)
  {
    hide Drop;
    var t := Take(s, n);
    assert t[p] == s[p];
    DropAt(s, p);
    if |s| > n {
      DistinctPrefix(s, n);
      DropAt(t, p);
      SlicesAgree(s, p, n);
    }
  }

  lemma DistinctPrefix<K>(s: seq<K>, n: nat)
    requires Distinct(s) && n <= |s|
    ensures Distinct(s[..n])
  {
  }

  lemma SlicesAgree<K>(s: seq<K>, p: nat, n: nat)
    requires p < n < |s|
    ensures [s[p]] + (s[..n][..p] + s[..n][p + 1..]) == ([s[p]] + (s[..p] + s[p + 1..]))[..n]
  {
    assert s[..n][..p] == s[..p] && s[..n][p + 1..] == s[p + 1..n];
    assert ([s[p]] + (s[..p] + s[p + 1..]))[..n] == [s[p]] + (s[..p] + s[p + 1..])[..n - 1];
    assert (s[..p] + s[p + 1..])[..n - 1] == s[..p] + s[p + 1..n];
  }

  lemma TouchDropped<K>(s: seq<K>, p: nat, n: nat)
    requires Distinct(s) && n <= p < |s| && n >= 1
    ensures Take([s[p]] + Take(s, n), n) == Take([s[p]] + Drop(s, s[p]), n)
  {
    hide Drop;
    DropAt(s, p);
    var a, b := [s[p]] + s[..n], [s[p]] + (s[..p] + s[p + 1..]);
    assert a[..n] == b[..n];
  }

  /** Keeping the `n` most recent keys before or after an access is the same. */
  lemma TouchThenTake<K>(s: seq<K>, k: K, n: nat)
    requires Distinct(s) && n >= 1
    ensures k in Take(s, n) ==> [k] + Drop(Take(s, n), k) == Take([k] + Drop(s, k), n)
    ensures k !in Take(s, n) ==> Take([k] + Take(s, n), n) == Take([k] + Drop(s, k), n)
  {
    hide Drop;
    var t := Take(s, n);
    if k in s {
      var p :| 0 <= p < |s| && s[p] == k;
      if p < n {
        TouchKept(s, p, n);
      } else {
        TouchDropped(s, p, n);
        assert forall q :: 0 <= q < |t| ==> t[q] == s[q] && q < p;
      }
    } else {
      DropAbsent(s, k);
      if |s| > n {
        assert ([k] + t)[..n] == ([k] + s)[..n];
      }
    }
  }

  /** The position of the last access to `x`. */
  function LastIndex<K(==)>(h: seq<K>, x: K): (i: nat)
    requires x in h
    ensures i < |h| && h[i] == x && x !in h[i + 1..]
  {
    var k := |h| - 1;
    if h[k] == x then k else
    assert h == h[..k] + [h[k]];
    var i := LastIndex(h[..k], x);
    assert h[i + 1..] == h[..k][i + 1..] + [h[k]];
    i
  }

  /** The keys of `s` are ordered by their last access in `h`, latest first. */
  ghost predicate ByLastAccess<K>(h: seq<K>, s: seq<K>) {
    && (forall i {:trigger s[i]} :: 0 <= i < |s| ==> s[i] in h)
    && (forall i, j {:trigger s[i], s[j]} :: 0 <= i < j < |s| ==> LastIndex(h, s[i]) > LastIndex(h, s[j]))
  }

  lemma LastIndexSnoc<K>(h: seq<K>, k: K, x: K)
    requires x in h && x != k
    ensures x in h + [k] && LastIndex(h + [k], x) == LastIndex(h, x)
  {
    assert (h + [k])[..|h|] == h;
  }

  /** Dropping a key keeps the order of the others. */
  lemma DropKeepsOrder<K>(h: seq<K>, s: seq<K>, k: K)
    requires ByLastAccess(h, s) && Distinct(s)
    ensures ByLastAccess(h, Drop(s, k))
  {
    hide LastIndex, Drop;
    if k in s {
      var p :| 0 <= p < |s| && s[p] == k;
      DropAt(s, p);
      var t := s[..p] + s[p + 1..];
      assert forall j :: 0 <= j < |t| ==> t[j] == s[if j < p then j else j + 1];
    } else {
      DropAbsent(s, k);
    }
  }

  lemma AccessComesFirst<K>(h: seq<K>, s: seq<K>, k: K)
    requires ByLastAccess(h, s) && k !in s
    ensures ByLastAccess(h + [k], [k] + s)
  {
    hide LastIndex;
    var t := [k] + s;
    assert (h + [k])[|h|] == k && LastIndex(h + [k], k) == |h| by {
      LastIsLast(h, k);
    }
    forall i | 0 <= i < |s|
      ensures s[i] in h + [k] && LastIndex(h + [k], s[i]) == LastIndex(h, s[i])
    {
      LastIndexSnoc(h, k, s[i]);
    }
    assert forall i :: 1 <= i < |t| ==> t[i] == s[i - 1];
  }

  lemma LastIsLast<K>(h: seq<K>, k: K)
    ensures k in h + [k] && LastIndex(h + [k], k) == |h|
  {
  }

  /** `Mru` is ordered by last access. */
  lemma {:induction false} MruIsByLastAccess<K>(h: seq<K>)
    ensures ByLastAccess(h, Mru(h))
  {
    hide LastIndex, Drop, ByLastAccess;
    if h == [] {
      NoOrder<K>(h);
    } else {
      var k := |h| - 1;
      MruIsByLastAccess(h[..k]);
      MruDistinct(h[..k]);
      DropKeepsOrder(h[..k], Mru(h[..k]), h[k]);
      DropDistinct(Mru(h[..k]), h[k]);
      AccessComesFirst(h[..k], Drop(Mru(h[..k]), h[k]), h[k]);
      assert h == h[..k] + [h[k]];
    }
  }

  lemma NoOrder<K>(h: seq<K>)
    ensures ByLastAccess(h, [])
  {
  }

  /** The `n` keys kept are in the order of their last accesses, and a key that is not kept was
      accessed before all of them. */
  ghost predicate MostRecent<K>(h: seq<K>, s: seq<K>) {
    && ByLastAccess(h, s)
    && forall x, i {:trigger x in h, s[i]} :: x in h && x !in s && 0 <= i < |s| ==> LastIndex(h, s[i]) > LastIndex(h, x)
  }

  lemma TakeIsMostRecent<K>(h: seq<K>, n: nat)
    ensures MostRecent(h, Take(Mru(h), n))
  {
    hide LastIndex, Mru;
    var m, s := Mru(h), Take(Mru(h), n);
    MruIsByLastAccess(h);
    MruDistinct(h);
    assert forall i :: 0 <= i < |s| ==> s[i] == m[i];
    forall x, i | x in h && x !in s && 0 <= i < |s|
      ensures LastIndex(h, s[i]) > LastIndex(h, x)
    {
      var p :| 0 <= p < |m| && m[p] == x;
      assert p >= |s|;
      assert LastIndex(h, m[i]) > LastIndex(h, m[p]);
    }
  }
}
