/**
 Packing under the token cap (packByAtoms): the groups it makes are greedy, and
 greedy groups are the only ones there are.
 */
module Packing {
  import opened Tokens
  import opened Chunking

  /**
   What packing promises: the groups are the items in order, none empty; a group
   of two or more items fits; and no group could have taken the item after it.
   */
  ghost predicate GreedyPacking<T>(items: seq<T>, atoms: T -> nat, groups: seq<seq<T>>) {
    && Flatten(groups) == items
    && (forall i :: 0 <= i < |groups| ==> groups[i] != [])
    && (forall i :: 0 <= i < |groups| && |groups[i]| >= 2 ==> Fits(groups[i], atoms))
    && (forall i :: 0 <= i < |groups| - 1 ==> !Fits(groups[i] + groups[i + 1][..1], atoms))
  }

  lemma GreedyLast<T>(cur: seq<T>, atoms: T -> nat)
    requires |cur| >= 2 ==> Fits(cur, atoms)
    ensures GreedyPacking(cur, atoms, if cur == [] then [] else [cur])
  {
    assert Flatten([cur]) == cur + Flatten<T>([]);
  }

  /** PackFrom is greedy, and its first group begins with cur. */
  ghost predicate PacksGreedily<T>(cur: seq<T>, rest: seq<T>, atoms: T -> nat, groups: seq<seq<T>>) {
    GreedyPacking(cur + rest, atoms, groups) && (cur != [] ==> groups != [] && cur <= groups[0])
  }

  lemma GreedyCut<T>(cur: seq<T>, rest: seq<T>, atoms: T -> nat, after: seq<seq<T>>)
    requires rest != [] && cur != [] && !Fits(cur + [rest[0]], atoms) && (|cur| >= 2 ==> Fits(cur, atoms))
    requires PacksGreedily([rest[0]], rest[1..], atoms, after)
    ensures PacksGreedily(cur, rest, atoms, [cur] + after)
  {
    assert [rest[0]] + rest[1..] == rest;
    assert after[0][..1] == [rest[0]];
  }

  lemma GreedyGrow<T>(cur: seq<T>, rest: seq<T>, atoms: T -> nat, groups: seq<seq<T>>)
    requires rest != [] && PacksGreedily(cur + [rest[0]], rest[1..], atoms, groups)
    ensures PacksGreedily(cur, rest, atoms, groups)
  {
    assert cur + [rest[0]] + rest[1..] == cur + rest;
  }

  lemma {:induction false} PackFromGreedy<T>(cur: seq<T>, rest: seq<T>, atoms: T -> nat)
    requires |cur| >= 2 ==> Fits(cur, atoms)
    ensures PacksGreedily(cur, rest, atoms, PackFrom(cur, rest, atoms))
    decreases |rest|
  {
    if rest == [] {
      assert cur + rest == cur;
      GreedyLast(cur, atoms);
    } else if cur != [] && !Fits(cur + [rest[0]], atoms) {
      PackFromGreedy([rest[0]], rest[1..], atoms);
      GreedyCut(cur, rest, atoms, PackFrom([rest[0]], rest[1..], atoms));
    } else {
      PackFromGreedy(cur + [rest[0]], rest[1..], atoms);
      GreedyGrow(cur, rest, atoms, PackFrom(cur + [rest[0]], rest[1..], atoms));
    }
  }

  /** Packing is greedy: nothing lost or reordered, every packed group maximal. */
  lemma PackIsGreedy<T>(items: seq<T>, atoms: T -> nat)
    ensures GreedyPacking(items, atoms, Pack(items, atoms))
  {
    PackFromGreedy([], items, atoms);
    assert [] + items == items;
  }

  lemma {:induction false} PrefixSmaller<T>(items: seq<T>, atoms: T -> nat, n: nat)
    requires n <= |items|
    ensures SumAtoms(items[..n], atoms) <= SumAtoms(items, atoms)
    decreases |items|
  {
    if n < |items| {
      var shorter := items[..|items| - 1];
      PrefixSmaller(shorter, atoms, n);
      assert shorter[..n] == items[..n];
    } else {
      assert items[..n] == items;
    }
  }

  /** A greedy packing's first group is at least as long as any other's. */
  lemma FirstGroupLongest<T>(items: seq<T>, atoms: T -> nat, gs: seq<seq<T>>, hs: seq<seq<T>>)
    requires items != [] && GreedyPacking(items, atoms, gs) && GreedyPacking(items, atoms, hs)
    ensures gs != [] && hs != [] && |gs[0]| >= |hs[0]|
  {
    var g, h := gs[0], hs[0];
    if |g| < |h| {
      assert items == g + Flatten(gs[1..]) && items == h + Flatten(hs[1..]);
      assert |gs| > 1;
      assert gs[1..][0] == gs[1];
      assert g + gs[1][..1] == items[..|g| + 1] == h[..|g| + 1];
      PrefixSmaller(h, atoms, |g| + 1);
      assert false;
    }
  }

  lemma GreedyTail<T>(items: seq<T>, atoms: T -> nat, gs: seq<seq<T>>)
    requires gs != [] && GreedyPacking(items, atoms, gs)
    ensures |gs[0]| <= |items| && gs[0] == items[..|gs[0]|]
    ensures GreedyPacking(items[|gs[0]|..], atoms, gs[1..])
  {
    assert items == gs[0] + Flatten(gs[1..]);
    var tail := gs[1..];
    forall i | 0 <= i < |tail| - 1
      ensures !Fits(tail[i] + tail[i + 1][..1], atoms)
    {
      assert tail[i] == gs[i + 1] && tail[i + 1] == gs[i + 2];
    }
  }

  /** There is one greedy packing of any items, so PackByAtoms makes exactly it. */
  lemma {:induction false} GreedyIsUnique<T>(items: seq<T>, atoms: T -> nat, gs: seq<seq<T>>, hs: seq<seq<T>>)
    requires GreedyPacking(items, atoms, gs) && GreedyPacking(items, atoms, hs)
    ensures gs == hs
    decreases |items|
  {
    if items != [] {
      FirstGroupLongest(items, atoms, gs, hs);
      FirstGroupLongest(items, atoms, hs, gs);
      GreedyTail(items, atoms, gs);
      GreedyTail(items, atoms, hs);
      assert gs[0] == hs[0];
      GreedyIsUnique(items[|gs[0]|..], atoms, gs[1..], hs[1..]);
      assert gs == [gs[0]] + gs[1..] && hs == [hs[0]] + hs[1..];
    }
  }
}
