/**
 Stable sorting by a key (slices.SortStableFunc), as a function: what it gives is
 the one ordered permutation that keeps equal keys in their own order.
 */
module Sorting {
  import opened Sequences

  /** Puts x, which came before all of s, ahead of the first element its key does not exceed. */
  function Insert<T>(x: T, s: seq<T>, key: T -> real): seq<T> {
    if s == [] || key(x) <= key(s[0]) then [x] + s else [s[0]] + Insert(x, s[1..], key)
  }

  function SortBy<T>(s: seq<T>, key: T -> real): seq<T> {
    if s == [] then [] else Insert(s[0], SortBy(s[1..], key), key)
  }

  predicate Ordered<T>(s: seq<T>, key: T -> real) {
    forall i, j :: 0 <= i < j < |s| ==> key(s[i]) <= key(s[j])
  }

  /** The elements of s with key k, in order. */
  function WithKey<T>(s: seq<T>, key: T -> real, k: real): seq<T> {
    if s == [] then [] else (if key(s[0]) == k then [s[0]] else []) + WithKey(s[1..], key, k)
  }

  lemma {:induction false} InsertPermutes<T>(x: T, s: seq<T>, key: T -> real)
    ensures multiset(Insert(x, s, key)) == multiset{x} + multiset(s)
    ensures forall y :: y in Insert(x, s, key) ==> y == x || y in s
  {
    if !(s == [] || key(x) <= key(s[0])) {
      InsertPermutes(x, s[1..], key);
      assert s == [s[0]] + s[1..];
    }
  }

  lemma OrderedCons<T>(x: T, s: seq<T>, key: T -> real)
    requires Ordered(s, key) && forall y :: y in s ==> key(x) <= key(y)
    ensures Ordered([x] + s, key)
  {
  }

  lemma {:induction false} InsertOrders<T>(x: T, s: seq<T>, key: T -> real)
    requires Ordered(s, key)
    ensures Ordered(Insert(x, s, key), key)
  {
    if s == [] || key(x) <= key(s[0]) {
      OrderedCons(x, s, key);
    } else {
      InsertOrders(x, s[1..], key);
      InsertPermutes(x, s[1..], key);
      OrderedCons(s[0], Insert(x, s[1..], key), key);
    }
  }

  lemma WithKeyCons<T>(x: T, s: seq<T>, key: T -> real, k: real)
    ensures WithKey([x] + s, key, k) == (if key(x) == k then [x] else []) + WithKey(s, key, k)
  {
    Parts([x], s);
  }

  lemma {:induction false} InsertKeepsTies<T>(x: T, s: seq<T>, key: T -> real, k: real)
    requires Ordered(s, key)
    ensures WithKey(Insert(x, s, key), key, k) == (if key(x) == k then [x] else []) + WithKey(s, key, k)
  {
    if s == [] || key(x) <= key(s[0]) {
      WithKeyCons(x, s, key, k);
    } else {
      var rest := s[1..];
      InsertKeepsTies(x, rest, key, k);
      WithKeyCons(s[0], Insert(x, rest, key), key, k);
      Nothing(WithKey(rest, key, k));
      Nothing((if key(x) == k then [x] else []) + WithKey(rest, key, k));
      Nothing((if key(s[0]) == k then [s[0]] else []) + WithKey(rest, key, k));
    }
  }

  /** Sorting orders, loses and invents nothing, and is stable. */
  lemma {:induction false} SortSorts<T>(s: seq<T>, key: T -> real)
    ensures Ordered(SortBy(s, key), key)
    ensures multiset(SortBy(s, key)) == multiset(s)
    ensures |SortBy(s, key)| == |s|
  {
    if s != [] {
      SortSorts(s[1..], key);
      InsertOrders(s[0], SortBy(s[1..], key), key);
      InsertPermutes(s[0], SortBy(s[1..], key), key);
      assert s == [s[0]] + s[1..];
    }
    assert |multiset(SortBy(s, key))| == |SortBy(s, key)|;
  }

  lemma {:induction false} SortStable<T>(s: seq<T>, key: T -> real, k: real)
    ensures WithKey(SortBy(s, key), key, k) == WithKey(s, key, k)
  {
    if s != [] {
      SortStable(s[1..], key, k);
      SortSorts(s[1..], key);
      InsertKeepsTies(s[0], SortBy(s[1..], key), key, k);
    }
  }

  /** In order of key, and of rank where keys are equal. */
  ghost predicate TiesRanked<T>(s: seq<T>, key: T -> real, rank: T -> int) {
    forall i, j :: 0 <= i < j < |s| ==> key(s[i]) < key(s[j]) || (key(s[i]) == key(s[j]) && rank(s[i]) < rank(s[j]))
  }

  lemma TiesRankedCons<T>(x: T, s: seq<T>, key: T -> real, rank: T -> int)
    requires TiesRanked(s, key, rank) && forall y :: y in s ==> key(x) < key(y) || (key(x) == key(y) && rank(x) < rank(y))
    ensures TiesRanked([x] + s, key, rank)
  {
  }

  lemma {:induction false} InsertRanks<T>(x: T, s: seq<T>, key: T -> real, rank: T -> int)
    requires TiesRanked(s, key, rank) && forall y :: y in s ==> rank(x) < rank(y)
    ensures TiesRanked(Insert(x, s, key), key, rank)
  {
    if s == [] || key(x) <= key(s[0]) {
      TiesRankedCons(x, s, key, rank);
    } else {
      InsertRanks(x, s[1..], key, rank);
      InsertPermutes(x, s[1..], key);
      TiesRankedCons(s[0], Insert(x, s[1..], key), key, rank);
    }
  }

  /** What comes in order of rank leaves sorting in order of rank wherever keys are equal. */
  lemma {:induction false} SortRanks<T>(s: seq<T>, key: T -> real, rank: T -> int)
    requires forall i, j :: 0 <= i < j < |s| ==> rank(s[i]) < rank(s[j])
    ensures TiesRanked(SortBy(s, key), key, rank)
  {
    if s != [] {
      SortRanks(s[1..], key, rank);
      SortSorts(s[1..], key);
      forall y | y in SortBy(s[1..], key)
        ensures rank(s[0]) < rank(y)
      {
        assert y in multiset(s[1..]);
      }
      InsertRanks(s[0], SortBy(s[1..], key), key, rank);
    }
  }

  // ------------------------------------------------------------- where each one goes

  /**
   out holds at i the element of s at offset perm[i], every offset having its place, in
   order of key and, where keys are equal, of offset.
   */
  ghost predicate Sorts<T>(s: seq<T>, key: T -> real, perm: seq<nat>, out: seq<T>) {
    && |perm| == |s| == |out|
    && (forall i :: 0 <= i < |out| ==> perm[i] < |s| && out[i] == s[perm[i]])
    && (forall a: nat :: a < |s| ==> a in perm)
    && (forall i, j :: 0 <= i < j < |out| ==> key(out[i]) < key(out[j]) || (key(out[i]) == key(out[j]) && perm[i] < perm[j]))
  }

  /** A sequence with x put in at an offset. */
  function With<T>(s: seq<T>, at: nat, x: T): (out: seq<T>)
    requires at <= |s|
    ensures |out| == |s| + 1 && out[at] == x
    ensures forall i :: 0 <= i < |out| && i != at ==> out[i] == s[if i < at then i else i - 1]
  {
    s[..at] + [x] + s[at..]
  }

  lemma {:induction false} InsertPlace<T>(x: T, s: seq<T>, key: T -> real) returns (at: nat)
    requires Ordered(s, key)
    ensures at <= |s| && Insert(x, s, key) == With(s, at, x)
    ensures forall i :: 0 <= i < at ==> key(s[i]) < key(x)
    ensures forall i :: at <= i < |s| ==> key(x) <= key(s[i])
  {
    if s == [] || key(x) <= key(s[0]) {
      at := 0;
    } else {
      at := InsertPlace(x, s[1..], key);
      at := at + 1;
      assert s == [s[0]] + s[1..];
    }
  }

  /** Offsets into a sequence, as offsets into it with one element more in front. */
  function Shifted(perm: seq<nat>): (out: seq<nat>)
    ensures |out| == |perm| && forall i :: 0 <= i < |perm| ==> out[i] == perm[i] + 1
  {
    seq(|perm|, i requires 0 <= i < |perm| => perm[i] + 1)
  }

  lemma PlacesWithFirst<T>(s: seq<T>, perm: seq<nat>, out: seq<T>, at: nat)
    requires s != [] && |perm| == |out| && at <= |out|
    requires forall i :: 0 <= i < |out| ==> perm[i] < |s| - 1 && out[i] == s[1..][perm[i]]
    ensures forall i :: 0 <= i < |out| + 1 ==>
              With(Shifted(perm), at, 0)[i] < |s| && With(out, at, s[0])[i] == s[With(Shifted(perm), at, 0)[i]]
  {
  }

  lemma ReachesWithFirst(perm: seq<nat>, at: nat)
    requires at <= |perm| && forall a: nat :: a < |perm| ==> a in perm
    ensures forall a: nat :: a < |perm| + 1 ==> a in With(Shifted(perm), at, 0)
  {
    var moved := With(Shifted(perm), at, 0);
    forall a: nat | 0 < a < |perm| + 1
      ensures a in moved
    {
      assert (a - 1) as nat in perm;
      var i :| 0 <= i < |perm| && perm[i] == a - 1;
      assert moved[if i < at then i else i + 1] == a;
    }
    assert moved[at] == 0;
  }

  lemma OrderWithFirst<T>(s: seq<T>, key: T -> real, perm: seq<nat>, out: seq<T>, at: nat)
    requires s != [] && Sorts(s[1..], key, perm, out) && at <= |out|
    requires forall i :: 0 <= i < at ==> key(out[i]) < key(s[0])
    requires forall i :: at <= i < |out| ==> key(s[0]) <= key(out[i])
    ensures var moved, all := With(Shifted(perm), at, 0), With(out, at, s[0]);
            forall i, j :: 0 <= i < j < |all| ==>
              key(all[i]) < key(all[j]) || (key(all[i]) == key(all[j]) && moved[i] < moved[j])
  {
  }

  lemma SortsWithFirst<T>(s: seq<T>, key: T -> real, perm: seq<nat>, out: seq<T>, at: nat)
    requires s != [] && Sorts(s[1..], key, perm, out) && at <= |out|
    requires forall i :: 0 <= i < at ==> key(out[i]) < key(s[0])
    requires forall i :: at <= i < |out| ==> key(s[0]) <= key(out[i])
    ensures Sorts(s, key, With(Shifted(perm), at, 0), With(out, at, s[0]))
  {
    PlacesWithFirst(s, perm, out, at);
    ReachesWithFirst(perm, at);
    OrderWithFirst(s, key, perm, out, at);
  }

  /** Where sorting takes every element. */
  lemma {:induction false} SortOffsets<T>(s: seq<T>, key: T -> real) returns (perm: seq<nat>)
    ensures Sorts(s, key, perm, SortBy(s, key))
  {
    perm := [];
    if s != [] {
      var after := SortOffsets(s[1..], key);
      SortSorts(s[1..], key);
      var at := InsertPlace(s[0], SortBy(s[1..], key), key);
      perm := With(Shifted(after), at, 0);
      SortsWithFirst(s, key, after, SortBy(s[1..], key), at);
    }
  }
}
