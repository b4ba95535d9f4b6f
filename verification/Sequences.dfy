/**
 Sequences of sequences, as every part of the model uses them.
 */
module Sequences {

  function Flatten<T>(parts: seq<seq<T>>): seq<T> {
    if parts == [] then [] else parts[0] + Flatten(parts[1..])
  }

  lemma {:induction false} FlattenAppend<T>(a: seq<seq<T>>, b: seq<seq<T>>)
    ensures Flatten(a + b) == Flatten(a) + Flatten(b)
  {
    if a == [] {
      assert a + b == b;
    } else {
      hide Flatten;
      FlattenAppend(a[1..], b);
      FlattenFirst(a);
      FlattenFirst(a + b);
      assert (a + b)[0] == a[0] && (a + b)[1..] == a[1..] + b;
      Associative(a[0], Flatten(a[1..]), Flatten(b));
    }
  }

  lemma FlattenFirst<T>(parts: seq<seq<T>>)
    requires parts != []
    ensures Flatten(parts) == parts[0] + Flatten(parts[1..])
  {
  }

  lemma Associative<T>(a: seq<T>, b: seq<T>, c: seq<T>)
    ensures a + (b + c) == a + b + c
  {
  }

  lemma FlattenOne<T>(p: seq<T>)
    ensures Flatten([p]) == p
  {
    assert [p][1..] == [];
  }

  /** Appending one more part. */
  lemma FlattenSnoc<T>(a: seq<seq<T>>, p: seq<T>)
    ensures Flatten(a + [p]) == Flatten(a) + p
  {
    FlattenAppend(a, [p]);
    FlattenOne(p);
  }

  /** Appending `x` to the last part appends it to the whole. */
  lemma {:induction false} FlattenPush<T>(a: seq<seq<T>>, x: T)
    requires a != []
    ensures Flatten(a[..|a| - 1] + [a[|a| - 1] + [x]]) == Flatten(a) + [x]
  {
    var k := |a| - 1;
    FlattenSnoc(a[..k], a[k] + [x]);
    FlattenSnoc(a[..k], a[k]);
    assert a == a[..k] + [a[k]];
  }

  /** Removing `x` from the head of the first part removes it from the whole. */
  lemma FlattenPop<T>(ps: seq<seq<T>>, ps': seq<seq<T>>, x: T)
    requires |ps| == |ps'| > 0 && ps[0] == [x] + ps'[0] && forall i :: 1 <= i < |ps| ==> ps'[i] == ps[i]
    ensures Flatten(ps) == [x] + Flatten(ps')
  {
    assert ps[1..] == ps'[1..];
  }

  lemma FlattenHead<T>(ps: seq<seq<T>>, i: nat)
    requires i < |ps|
    ensures Flatten(ps[i..]) == ps[i] + Flatten(ps[i + 1..])
  {
    assert ps[i..][1..] == ps[i + 1..];
  }

  lemma {:induction false} FlattenOfNone<T>(ps: seq<seq<T>>)
    requires forall i :: 0 <= i < |ps| ==> ps[i] == []
    ensures Flatten(ps) == []
  {
    if ps != [] {
      FlattenOfNone(ps[1..]);
    }
  }

  lemma {:induction false} FlattenAtLeast<T>(ps: seq<seq<T>>, i: nat, each: nat)
    requires i <= |ps| && forall k :: i <= k < |ps| ==> |ps[k]| >= each
    ensures |Flatten(ps)| >= (|ps| - i) * each
    decreases |ps|
  {
    if ps != [] {
      if i == 0 {
        FlattenAtLeast(ps[1..], 0, each);
        assert |ps| * each == (|ps| - 1) * each + each;
      } else {
        FlattenAtLeast(ps[1..], i - 1, each);
      }
    }
  }
}
