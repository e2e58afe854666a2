/**
 Merging documents by rank (interleave and tierAt of internal/pgstore/search.go):
 every document's best answer before any document's second. Picks name each result
 by its document and its rank there, so that what the merge promises about whose
 results it takes can be said.
 */
module Interleaving {
  import opened Sequences
  import opened Sorting
  import opened Search

  type PerDoc = seq<seq<Result>>

  datatype Pick = Pick(doc: nat, depth: nat)

  predicate Names(perDoc: PerDoc, p: Pick) {
    p.doc < |perDoc| && p.depth < |perDoc[p.doc]|
  }

  function ResultOf(perDoc: PerDoc, p: Pick): Result {
    if Names(perDoc, p) then perDoc[p.doc][p.depth]
    else Result(Row("", 0, "", "", "", 0.0), "", 0.0, false, 0, 0.0)
  }

  function ResultsOf(perDoc: PerDoc, picks: seq<Pick>): seq<Result> {
    if picks == [] then [] else [ResultOf(perDoc, picks[0])] + ResultsOf(perDoc, picks[1..])
  }

  function PickScore(perDoc: PerDoc): Pick -> real {
    (p: Pick) => ResultOf(perDoc, p).bm25
  }

  /** The documents before n that have a result at depth, in document order. */
  function TierPicks(perDoc: PerDoc, depth: nat, n: nat): seq<Pick>
    requires n <= |perDoc|
  {
    if n == 0 then []
    else TierPicks(perDoc, depth, n - 1) + if depth < |perDoc[n - 1]| then [Pick(n - 1, depth)] else []
  }

  function Tier(perDoc: PerDoc, depth: nat): seq<Pick> {
    TierPicks(perDoc, depth, |perDoc|)
  }

  function SortedTier(perDoc: PerDoc, depth: nat): seq<Pick> {
    SortBy(Tier(perDoc, depth), PickScore(perDoc))
  }

  function Least(a: nat, b: nat): nat {
    if a < b then a else b
  }

  /** What a merge of k from depth on takes: the best of each tier, until there are k or no more. */
  function Picks(perDoc: PerDoc, k: nat, depth: nat): seq<Pick>
    decreases k
  {
    var tier := SortedTier(perDoc, depth);
    if k == 0 || tier == [] then []
    else tier[..Least(|tier|, k)] + Picks(perDoc, k - Least(|tier|, k), depth + 1)
  }

  // -------------------------------------------------------------- the merging loop

  lemma {:induction false} ResultsConcat(perDoc: PerDoc, a: seq<Pick>, b: seq<Pick>)
    ensures ResultsOf(perDoc, a + b) == ResultsOf(perDoc, a) + ResultsOf(perDoc, b)
    ensures |ResultsOf(perDoc, a)| == |a|
  {
    if a == [] {
      assert a + b == b;
    } else {
      assert (a + b)[1..] == a[1..] + b;
      ResultsConcat(perDoc, a[1..], b);
    }
  }

  method TierAt(perDoc: PerDoc, depth: nat) returns (tier: seq<Result>)
    ensures tier == ResultsOf(perDoc, Tier(perDoc, depth))
  {
    tier := [];
    for i := 0 to |perDoc|
      invariant tier == ResultsOf(perDoc, TierPicks(perDoc, depth, i))
    {
      if depth < |perDoc[i]| {
        var p := Pick(i, depth);
        ResultsConcat(perDoc, TierPicks(perDoc, depth, i), [p]);
        assert ResultsOf(perDoc, [p]) == [perDoc[i][depth]];
        tier := tier + [perDoc[i][depth]];
      } else {
        assert TierPicks(perDoc, depth, i) + [] == TierPicks(perDoc, depth, i);
      }
    }
  }

  lemma {:induction false} InsertNamed(perDoc: PerDoc, p: Pick, picks: seq<Pick>)
    ensures Insert(ResultOf(perDoc, p), ResultsOf(perDoc, picks), ByScore())
         == ResultsOf(perDoc, Insert(p, picks, PickScore(perDoc)))
  {
    var x, rs := ResultOf(perDoc, p), ResultsOf(perDoc, picks);
    if picks == [] || PickScore(perDoc)(p) <= PickScore(perDoc)(picks[0]) {
      assert ([p] + picks)[1..] == picks;
    } else {
      InsertNamed(perDoc, p, picks[1..]);
      assert rs[1..] == ResultsOf(perDoc, picks[1..]);
      var tail := Insert(p, picks[1..], PickScore(perDoc));
      assert ([picks[0]] + tail)[1..] == tail;
    }
  }

  /** Sorting results is sorting the picks that name them. */
  lemma {:induction false} SortNamed(perDoc: PerDoc, picks: seq<Pick>)
    ensures SortBy(ResultsOf(perDoc, picks), ByScore()) == ResultsOf(perDoc, SortBy(picks, PickScore(perDoc)))
  {
    if picks != [] {
      SortNamed(perDoc, picks[1..]);
      assert ResultsOf(perDoc, picks)[1..] == ResultsOf(perDoc, picks[1..]);
      InsertNamed(perDoc, picks[0], SortBy(picks[1..], PickScore(perDoc)));
    }
  }

  lemma ResultsPrefix(perDoc: PerDoc, picks: seq<Pick>, n: nat)
    requires n <= |picks|
    ensures |ResultsOf(perDoc, picks)| == |picks|
    ensures ResultsOf(perDoc, picks)[..n] == ResultsOf(perDoc, picks[..n])
  {
    ResultsConcat(perDoc, picks[..n], picks[n..]);
    ResultsConcat(perDoc, picks, []);
    assert picks[..n] + picks[n..] == picks;
  }

  lemma SortedTierNamed(perDoc: PerDoc, depth: nat, sorted: seq<Result>)
    requires sorted == SortBy(ResultsOf(perDoc, Tier(perDoc, depth)), ByScore())
    ensures sorted == ResultsOf(perDoc, SortedTier(perDoc, depth)) && |sorted| == |SortedTier(perDoc, depth)|
  {
    SortNamed(perDoc, Tier(perDoc, depth));
    ResultsConcat(perDoc, SortedTier(perDoc, depth), []);
  }

  /** What is merged so far, and that what is left of the merge completes it. */
  ghost predicate Merging(goal: seq<Result>, perDoc: PerDoc, k: nat, out: seq<Result>, depth: nat) {
    && |out| <= k
    && goal == out + ResultsOf(perDoc, Picks(perDoc, k - |out|, depth))
  }

  lemma MergeOne(goal: seq<Result>, out: seq<Result>, taken: seq<Result>, deeper: seq<Result>)
    requires goal == out + (taken + deeper)
    ensures goal == (out + taken) + deeper
  {
  }

  lemma TierTaken(perDoc: PerDoc, left: nat, depth: nat, take: nat)
    requires left > 0 && SortedTier(perDoc, depth) != [] && take == Least(|SortedTier(perDoc, depth)|, left)
    ensures |ResultsOf(perDoc, SortedTier(perDoc, depth))| == |SortedTier(perDoc, depth)|
    ensures ResultsOf(perDoc, Picks(perDoc, left, depth)) ==
            ResultsOf(perDoc, SortedTier(perDoc, depth))[..take] + ResultsOf(perDoc, Picks(perDoc, left - take, depth + 1))
  {
    ResultsPrefix(perDoc, SortedTier(perDoc, depth), take);
    ResultsConcat(perDoc, SortedTier(perDoc, depth)[..take], Picks(perDoc, left - take, depth + 1));
  }

  /** One tier of the loop: the best of it are taken, and the rest of the merge goes one deeper. */
  lemma MergeStep(goal: seq<Result>, perDoc: PerDoc, k: nat, out: seq<Result>, depth: nat, sorted: seq<Result>)
    requires |out| < k && sorted != [] && Merging(goal, perDoc, k, out, depth)
    requires sorted == ResultsOf(perDoc, SortedTier(perDoc, depth)) && |sorted| == |SortedTier(perDoc, depth)|
    ensures Merging(goal, perDoc, k, out + sorted[..Least(|sorted|, k - |out|)], depth + 1)
  {
    var tier, left := SortedTier(perDoc, depth), k - |out|;
    var take := Least(|sorted|, left);
    var deeper := ResultsOf(perDoc, Picks(perDoc, left - take, depth + 1));
    TierTaken(perDoc, left, depth, take);
    MergeOne(goal, out, sorted[..take], deeper);
    assert k - |out + sorted[..take]| == left - take;
  }

  method Interleave(perDoc: PerDoc, k: nat) returns (out: seq<Result>)
    ensures out == ResultsOf(perDoc, Picks(perDoc, k, 0))
  {
    ghost var goal := ResultsOf(perDoc, Picks(perDoc, k, 0));
    out := [];
    var depth := 0;
    while |out| < k
      invariant Merging(goal, perDoc, k, out, depth)
      decreases k - |out|
    {
      var tier := TierAt(perDoc, depth);
      var sorted := SortBy(tier, ByScore());
      SortedTierNamed(perDoc, depth, sorted);
      if |sorted| == 0 {
        break;
      }
      MergeStep(goal, perDoc, k, out, depth, sorted);
      out := out + sorted[..Least(|sorted|, k - |out|)];
      depth := depth + 1;
    }
  }

  // ------------------------------------------------------------- what a merge takes

  /** How many results there are from depth on. */
  function TotalFrom(perDoc: PerDoc, depth: nat, n: nat): nat
    requires n <= |perDoc|
  {
    if n == 0 then 0
    else TotalFrom(perDoc, depth, n - 1) + if depth < |perDoc[n - 1]| then |perDoc[n - 1]| - depth else 0
  }

  lemma {:induction false} TierCount(perDoc: PerDoc, depth: nat, n: nat)
    requires n <= |perDoc|
    ensures TotalFrom(perDoc, depth, n) == |TierPicks(perDoc, depth, n)| + TotalFrom(perDoc, depth + 1, n)
  {
    if n > 0 {
      TierCount(perDoc, depth, n - 1);
    }
  }

  lemma {:induction false} TierAre(perDoc: PerDoc, depth: nat, n: nat)
    requires n <= |perDoc|
    ensures forall p :: p in TierPicks(perDoc, depth, n) <==> p.doc < n && p.depth == depth && Names(perDoc, p)
  {
    if n > 0 {
      TierAre(perDoc, depth, n - 1);
    }
  }

  lemma {:induction false} NoneFrom(perDoc: PerDoc, depth: nat, n: nat)
    requires n <= |perDoc| && forall d :: 0 <= d < n ==> |perDoc[d]| <= depth
    ensures TotalFrom(perDoc, depth, n) == 0
  {
    if n > 0 {
      NoneFrom(perDoc, depth, n - 1);
    }
  }

  /** No pick is there twice. */
  ghost predicate Once(picks: seq<Pick>) {
    forall p :: multiset(picks)[p] <= 1
  }

  lemma OnceConcat(a: seq<Pick>, b: seq<Pick>)
    ensures Once(a + b) <==> Once(a) && Once(b) && forall p :: p in a ==> p !in b
  {
    assert multiset(a + b) == multiset(a) + multiset(b);
    assert forall p :: p in a <==> multiset(a)[p] > 0;
    assert forall p :: p in b <==> multiset(b)[p] > 0;
    if Once(a + b) {
      assert forall p :: multiset(a)[p] + multiset(b)[p] == multiset(a + b)[p] <= 1;
    }
  }

  lemma OnceSnoc(a: seq<Pick>, x: Pick)
    requires Once(a) && x !in a
    ensures Once(a + [x])
  {
    assert multiset(a + [x]) == multiset(a) + multiset{x};
    assert x !in multiset(a);
  }

  lemma {:induction false} TierOnce(perDoc: PerDoc, depth: nat, n: nat)
    requires n <= |perDoc|
    ensures Once(TierPicks(perDoc, depth, n))
  {
    if n > 0 {
      var before := TierPicks(perDoc, depth, n - 1);
      TierOnce(perDoc, depth, n - 1);
      if depth < |perDoc[n - 1]| {
        TierAre(perDoc, depth, n - 1);
        OnceSnoc(before, Pick(n - 1, depth));
      } else {
        Nothing(before);
      }
    }
  }

  lemma SameMembers<T>(a: seq<T>, b: seq<T>)
    requires multiset(a) == multiset(b)
    ensures forall x :: x in a <==> x in b
  {
    assert forall x :: x in a <==> x in multiset(a);
    assert forall x :: x in b <==> x in multiset(b);
  }

  function ByDocument(): Pick -> int {
    (p: Pick) => p.doc
  }

  ghost predicate DocumentsRise(picks: seq<Pick>) {
    forall i, j :: 0 <= i < j < |picks| ==> ByDocument()(picks[i]) < ByDocument()(picks[j])
  }

  lemma RiseSnoc(picks: seq<Pick>, p: Pick)
    requires DocumentsRise(picks) && forall q :: q in picks ==> q.doc < p.doc
    ensures DocumentsRise(picks + [p])
  {
    var all := picks + [p];
    forall i, j | 0 <= i < j < |all|
      ensures ByDocument()(all[i]) < ByDocument()(all[j])
    {
      if j < |picks| {
        assert all[i] == picks[i] && all[j] == picks[j];
      } else {
        assert all[i] in picks;
      }
    }
  }

  lemma {:induction false} TierByDocument(perDoc: PerDoc, depth: nat, n: nat)
    requires n <= |perDoc|
    ensures DocumentsRise(TierPicks(perDoc, depth, n))
  {
    if n > 0 {
      var before := TierPicks(perDoc, depth, n - 1);
      TierByDocument(perDoc, depth, n - 1);
      TierAre(perDoc, depth, n - 1);
      if depth < |perDoc[n - 1]| {
        RiseSnoc(before, Pick(n - 1, depth));
      } else {
        Nothing(before);
      }
    }
  }

  /** In a sorted tier a better score comes first, and of equal scores the earlier document. */
  lemma SortedTierRanked(perDoc: PerDoc, depth: nat)
    ensures TiesRanked(SortedTier(perDoc, depth), PickScore(perDoc), ByDocument())
  {
    TierByDocument(perDoc, depth, |perDoc|);
    SortRanks(Tier(perDoc, depth), PickScore(perDoc), ByDocument());
  }

  /** Of two picks of a tier, the one at the lower index comes before. */
  lemma TierBefore(perDoc: PerDoc, depth: nat, i: nat, j: nat)
    requires i < j < |SortedTier(perDoc, depth)|
    ensures Before(perDoc, SortedTier(perDoc, depth)[i], SortedTier(perDoc, depth)[j])
  {
    SortedTierAre(perDoc, depth);
    SortedTierRanked(perDoc, depth);
    var tier := SortedTier(perDoc, depth);
    assert tier[i] in tier && tier[j] in tier;
    assert PickScore(perDoc)(tier[i]) < PickScore(perDoc)(tier[j]) || ByDocument()(tier[i]) < ByDocument()(tier[j]);
  }

  /** A tier holds each result at its depth once. */
  lemma SortedTierAre(perDoc: PerDoc, depth: nat)
    ensures forall p :: p in SortedTier(perDoc, depth) <==> p.depth == depth && Names(perDoc, p)
    ensures |SortedTier(perDoc, depth)| == |Tier(perDoc, depth)|
    ensures Once(SortedTier(perDoc, depth))
    ensures Ordered(SortedTier(perDoc, depth), PickScore(perDoc))
  {
    TierAre(perDoc, depth, |perDoc|);
    TierOnce(perDoc, depth, |perDoc|);
    SortSorts(Tier(perDoc, depth), PickScore(perDoc));
    SameMembers(SortedTier(perDoc, depth), Tier(perDoc, depth));
  }

  lemma NoTierNoMore(perDoc: PerDoc, depth: nat)
    requires SortedTier(perDoc, depth) == []
    ensures TotalFrom(perDoc, depth, |perDoc|) == 0
  {
    SortedTierAre(perDoc, depth);
    forall d | 0 <= d < |perDoc|
      ensures |perDoc[d]| <= depth
    {
      assert Pick(d, depth) !in SortedTier(perDoc, depth);
    }
    NoneFrom(perDoc, depth, |perDoc|);
  }

  /** The merge terminates with min(k, total) results. */
  lemma {:induction false} PicksCount(perDoc: PerDoc, k: nat, depth: nat)
    ensures |Picks(perDoc, k, depth)| == Least(k, TotalFrom(perDoc, depth, |perDoc|))
    decreases k
  {
    var tier := SortedTier(perDoc, depth);
    if tier == [] {
      NoTierNoMore(perDoc, depth);
    } else if k > 0 {
      SortSorts(Tier(perDoc, depth), PickScore(perDoc));
      TierCount(perDoc, depth, |perDoc|);
      PicksCount(perDoc, k - Least(|tier|, k), depth + 1);
    }
  }

  /** The first of a tier: each a result at its depth, and none twice. */
  lemma TierFirst(perDoc: PerDoc, depth: nat, n: nat)
    requires n <= |SortedTier(perDoc, depth)|
    ensures var first := SortedTier(perDoc, depth)[..n]; Once(first) && forall p :: p in first ==> p.depth == depth && Names(perDoc, p)
  {
    var tier := SortedTier(perDoc, depth);
    SortedTierAre(perDoc, depth);
    assert tier == tier[..n] + tier[n..];
    OnceConcat(tier[..n], tier[n..]);
    forall p | p in tier[..n]
      ensures p in tier
    {
    }
  }

  /** The picks are results at depth or deeper, none twice. */
  ghost predicate NamedFrom(perDoc: PerDoc, picks: seq<Pick>, depth: nat) {
    Once(picks) && forall p :: p in picks ==> depth <= p.depth && Names(perDoc, p)
  }

  lemma NamedNone(perDoc: PerDoc, depth: nat)
    ensures NamedFrom(perDoc, [], depth)
  {
  }

  lemma NamedConcat(perDoc: PerDoc, first: seq<Pick>, deeper: seq<Pick>, depth: nat)
    requires Once(first) && forall p :: p in first ==> p.depth == depth && Names(perDoc, p)
    requires NamedFrom(perDoc, deeper, depth + 1)
    ensures NamedFrom(perDoc, first + deeper, depth)
  {
    OnceConcat(first, deeper);
  }

  lemma PicksStep(perDoc: PerDoc, k: nat, depth: nat, n: nat)
    requires k > 0 && SortedTier(perDoc, depth) != [] && n == Least(|SortedTier(perDoc, depth)|, k)
    ensures Picks(perDoc, k, depth) == SortedTier(perDoc, depth)[..n] + Picks(perDoc, k - n, depth + 1)
  {
  }

  lemma NamedStep(perDoc: PerDoc, k: nat, depth: nat, n: nat)
    requires k > 0 && SortedTier(perDoc, depth) != [] && n == Least(|SortedTier(perDoc, depth)|, k)
    requires NamedFrom(perDoc, Picks(perDoc, k - n, depth + 1), depth + 1)
    ensures NamedFrom(perDoc, Picks(perDoc, k, depth), depth)
  {
    PicksStep(perDoc, k, depth, n);
    TierFirst(perDoc, depth, n);
    NamedConcat(perDoc, SortedTier(perDoc, depth)[..n], Picks(perDoc, k - n, depth + 1), depth);
  }

  /** Every pick is a result of some document, at depth or deeper, and none is taken twice. */
  lemma {:induction false} PicksNamed(perDoc: PerDoc, k: nat, depth: nat)
    ensures NamedFrom(perDoc, Picks(perDoc, k, depth), depth)
    decreases k
  {
    if k == 0 || SortedTier(perDoc, depth) == [] {
      NamedNone(perDoc, depth);
    } else {
      var n := Least(|SortedTier(perDoc, depth)|, k);
      PicksNamed(perDoc, k - n, depth + 1);
      NamedStep(perDoc, k, depth, n);
    }
  }

  lemma {:induction false} ResultsAt(perDoc: PerDoc, picks: seq<Pick>)
    ensures |ResultsOf(perDoc, picks)| == |picks|
    ensures forall i :: 0 <= i < |picks| ==> ResultsOf(perDoc, picks)[i] == ResultOf(perDoc, picks[i])
  {
    if picks != [] {
      ResultsAt(perDoc, picks[1..]);
    }
  }

  /** The merge's results are the picks', each the one its document ranks at the pick's depth. */
  lemma PicksStandFor(perDoc: PerDoc, k: nat)
    ensures |ResultsOf(perDoc, Picks(perDoc, k, 0))| == |Picks(perDoc, k, 0)|
    ensures forall i :: 0 <= i < |Picks(perDoc, k, 0)| ==>
              var p := Picks(perDoc, k, 0)[i];
              && p.doc < |perDoc| && p.depth < |perDoc[p.doc]|
              && ResultsOf(perDoc, Picks(perDoc, k, 0))[i] == perDoc[p.doc][p.depth]
  {
    PicksNamed(perDoc, k, 0);
    ResultsAt(perDoc, Picks(perDoc, k, 0));
  }

  /** The merged list of a library: each result is its pick's, ranked where it stands in the list. */
  method Merged(perDoc: PerDoc, k: nat) returns (out: seq<Result>)
    ensures |out| == |Picks(perDoc, k, 0)|
    ensures forall i :: 0 <= i < |out| ==>
              var p := Picks(perDoc, k, 0)[i];
              p.doc < |perDoc| && p.depth < |perDoc[p.doc]| && out[i] == perDoc[p.doc][p.depth].(rank := i + 1)
  {
    out := Interleave(perDoc, k);
    PicksStandFor(perDoc, k);
    ghost var merged := out;
    for i := 0 to |out|
      invariant |out| == |merged|
      invariant forall j :: 0 <= j < |out| ==> out[j] == if j < i then merged[j].(rank := j + 1) else merged[j]
    {
      out := out[i := out[i].(rank := i + 1)];
    }
  }

  /** p comes before q: shallower; as deep and better scored; or as good and of an earlier document. */
  predicate Before(perDoc: PerDoc, p: Pick, q: Pick) {
    var a, b := ResultOf(perDoc, p).bm25, ResultOf(perDoc, q).bm25;
    p.depth < q.depth || (p.depth == q.depth && (a < b || (a == b && p.doc < q.doc)))
  }

  predicate InOrder(perDoc: PerDoc, picks: seq<Pick>) {
    forall i, j :: 0 <= i < j < |picks| ==> Before(perDoc, picks[i], picks[j])
  }

  lemma DeeperAfter(perDoc: PerDoc, a: seq<Pick>, b: seq<Pick>, depth: nat)
    requires InOrder(perDoc, a) && InOrder(perDoc, b)
    requires (forall p :: p in a ==> p.depth == depth) && (forall p :: p in b ==> depth < p.depth)
    ensures InOrder(perDoc, a + b)
  {
    var all := a + b;
    forall i, j | 0 <= i < j < |all|
      ensures Before(perDoc, all[i], all[j])
    {
      if i < |a| <= j {
        assert all[i] in a && all[j] in b;
      }
    }
  }

  lemma TierInOrder(perDoc: PerDoc, depth: nat, n: nat)
    requires n <= |SortedTier(perDoc, depth)|
    ensures InOrder(perDoc, SortedTier(perDoc, depth)[..n])
    ensures forall p :: p in SortedTier(perDoc, depth)[..n] ==> p.depth == depth
  {
    SortedTierAre(perDoc, depth);
    var here := SortedTier(perDoc, depth)[..n];
    forall i, j | 0 <= i < j < n
      ensures Before(perDoc, here[i], here[j])
    {
      TierBefore(perDoc, depth, i, j);
    }
  }

  /** Every depth precedes the next; within one a better score comes first, then the earlier document. */
  lemma {:induction false} PicksInOrder(perDoc: PerDoc, k: nat, depth: nat)
    ensures InOrder(perDoc, Picks(perDoc, k, depth))
    decreases k
  {
    if k > 0 && SortedTier(perDoc, depth) != [] {
      var n := Least(|SortedTier(perDoc, depth)|, k);
      TierInOrder(perDoc, depth, n);
      PicksInOrder(perDoc, k - n, depth + 1);
      PicksNamed(perDoc, k - n, depth + 1);
      DeeperAfter(perDoc, SortedTier(perDoc, depth)[..n], Picks(perDoc, k - n, depth + 1), depth);
    }
  }

  /** What a tier gives comes before what it has and does not give, and before what is deeper. */
  lemma TierPassesOver(perDoc: PerDoc, depth: nat, n: nat, p: Pick, q: Pick)
    requires n <= |SortedTier(perDoc, depth)| && p in SortedTier(perDoc, depth)[..n]
    requires depth <= q.depth && Names(perDoc, q) && q !in SortedTier(perDoc, depth)[..n]
    ensures Before(perDoc, p, q)
  {
    var tier := SortedTier(perDoc, depth);
    SortedTierAre(perDoc, depth);
    var i :| 0 <= i < n && tier[i] == p;
    assert p in tier;
    if q in tier {
      var j :| 0 <= j < |tier| && tier[j] == q;
      assert j >= n;
      TierBefore(perDoc, depth, i, j);
    }
  }

  /** What goes on after a tier was taken whole is deeper than all of it. */
  lemma DeeperThanTier(perDoc: PerDoc, depth: nat, q: Pick)
    requires Names(perDoc, q) && depth <= q.depth && q !in SortedTier(perDoc, depth)
    ensures depth + 1 <= q.depth
  {
    SortedTierAre(perDoc, depth);
  }

  lemma PicksNeedRoom(perDoc: PerDoc, k: nat, depth: nat)
    requires Picks(perDoc, k, depth) != []
    ensures k > 0 && SortedTier(perDoc, depth) != []
  {
  }

  lemma TakenHasRoom(perDoc: PerDoc, k: nat, depth: nat, p: Pick)
    requires p in Picks(perDoc, k, depth)
    ensures k > 0 && SortedTier(perDoc, depth) != []
  {
    PicksNeedRoom(perDoc, k, depth);
  }

  /** What is taken is taken of the tier or deeper. */
  lemma PickParts(perDoc: PerDoc, k: nat, depth: nat, n: nat, x: Pick)
    requires k > 0 && SortedTier(perDoc, depth) != [] && n == Least(|SortedTier(perDoc, depth)|, k)
    ensures x in Picks(perDoc, k, depth) <==> x in SortedTier(perDoc, depth)[..n] || x in Picks(perDoc, k - n, depth + 1)
  {
    PicksStep(perDoc, k, depth, n);
    InEither(SortedTier(perDoc, depth)[..n], Picks(perDoc, k - n, depth + 1), x);
  }

  /** Where a merge goes on deeper, what it has not taken is deeper too. */
  lemma GoesOnDeeper(perDoc: PerDoc, k: nat, depth: nat, n: nat, q: Pick)
    requires n == Least(|SortedTier(perDoc, depth)|, k) && Picks(perDoc, k - n, depth + 1) != []
    requires depth <= q.depth && Names(perDoc, q) && q !in SortedTier(perDoc, depth)[..n]
    ensures depth + 1 <= q.depth
  {
    PicksNeedRoom(perDoc, k - n, depth + 1);
    Whole(SortedTier(perDoc, depth));
    DeeperThanTier(perDoc, depth, q);
  }

  /** A merge takes p and passes over q. */
  ghost predicate Passes(perDoc: PerDoc, k: nat, depth: nat, p: Pick, q: Pick) {
    p in Picks(perDoc, k, depth) && depth <= q.depth && Names(perDoc, q) && q !in Picks(perDoc, k, depth)
  }

  /** Either the first tier passes q over for p, or deeper tiers do. */
  lemma PassOverHere(perDoc: PerDoc, k: nat, depth: nat, p: Pick, q: Pick) returns (deeper: bool, left: nat)
    requires Passes(perDoc, k, depth, p, q)
    ensures !deeper ==> Before(perDoc, p, q)
    ensures deeper ==> left < k && Passes(perDoc, left, depth + 1, p, q)
  {
    TakenHasRoom(perDoc, k, depth, p);
    var n := Least(|SortedTier(perDoc, depth)|, k);
    left := k - n;
    PickParts(perDoc, k, depth, n, p);
    PickParts(perDoc, k, depth, n, q);
    deeper := p !in SortedTier(perDoc, depth)[..n];
    if deeper {
      GoesOnDeeper(perDoc, k, depth, n, q);
    } else {
      TierPassesOver(perDoc, depth, n, p, q);
    }
  }

  lemma {:induction false} PassedOverAfter(perDoc: PerDoc, k: nat, depth: nat, p: Pick, q: Pick)
    requires Passes(perDoc, k, depth, p, q)
    ensures Before(perDoc, p, q)
    decreases k
  {
    var deeper, left := PassOverHere(perDoc, k, depth, p, q);
    if deeper {
      PassedOverAfter(perDoc, left, depth + 1, p, q);
    }
  }

  /** A result is passed over only for results that come before it. */
  lemma PicksPassOver(perDoc: PerDoc, k: nat, depth: nat, p: Pick, q: Pick)
    requires p in Picks(perDoc, k, depth)
    requires depth <= q.depth && Names(perDoc, q) && q !in Picks(perDoc, k, depth)
    ensures Before(perDoc, p, q)
  {
    PassedOverAfter(perDoc, k, depth, p, q);
  }

  // -------------------------------------------------------- what each document gives

  /** The ranks a merge takes of a document, in order. */
  function Ranks(picks: seq<Pick>, doc: nat): seq<nat> {
    if picks == [] then [] else (if picks[0].doc == doc then [picks[0].depth] else []) + Ranks(picks[1..], doc)
  }

  lemma {:induction false} RanksConcat(a: seq<Pick>, b: seq<Pick>, doc: nat)
    ensures Ranks(a + b, doc) == Ranks(a, doc) + Ranks(b, doc)
  {
    if a == [] {
      assert a + b == b;
    } else {
      assert (a + b)[1..] == a[1..] + b;
      RanksConcat(a[1..], b, doc);
      var here := if a[0].doc == doc then [a[0].depth] else [];
      assert here + (Ranks(a[1..], doc) + Ranks(b, doc)) == (here + Ranks(a[1..], doc)) + Ranks(b, doc);
    }
  }

  lemma {:induction false} RanksAre(picks: seq<Pick>, doc: nat)
    ensures forall t :: t in Ranks(picks, doc) <==> Pick(doc, t) in picks
  {
    if picks != [] {
      RanksAre(picks[1..], doc);
      assert picks == [picks[0]] + picks[1..];
    }
  }

  /** n ranks in a row, from a first one. */
  function RanksFrom(from: nat, n: nat): seq<nat> {
    seq(n, i => from + i)
  }

  lemma {:induction false} TierRanks(picks: seq<Pick>, depth: nat, doc: nat)
    requires (forall p :: p in picks ==> p.depth == depth) && Once(picks)
    ensures Ranks(picks, doc) == if Pick(doc, depth) in picks then [depth] else []
  {
    if picks != [] {
      var rest := picks[1..];
      assert picks == [picks[0]] + rest;
      OnceConcat([picks[0]], rest);
      TierRanks(rest, depth, doc);
    }
  }

  lemma {:induction false} NotGiven(picks: seq<Pick>, doc: nat)
    requires forall p :: p in picks ==> p.doc != doc
    ensures Ranks(picks, doc) == []
  {
    if picks != [] {
      assert picks[0] in picks;
      NotGiven(picks[1..], doc);
    }
  }

  /** Once a document has nothing at a depth it gives nothing from there on. */
  lemma ExhaustedGivesNone(perDoc: PerDoc, k: nat, depth: nat, doc: nat)
    requires !Names(perDoc, Pick(doc, depth))
    ensures Ranks(Picks(perDoc, k, depth), doc) == []
  {
    PicksNamed(perDoc, k, depth);
    NotGiven(Picks(perDoc, k, depth), doc);
  }

  lemma RanksFromCons(from: nat, ranks: seq<nat>)
    requires ranks == RanksFrom(from + 1, |ranks|)
    ensures [from] + ranks == RanksFrom(from, |ranks| + 1)
  {
  }

  lemma TierPrefixRanks(perDoc: PerDoc, depth: nat, doc: nat, n: nat)
    requires n <= |SortedTier(perDoc, depth)|
    ensures Ranks(SortedTier(perDoc, depth)[..n], doc) ==
            if Pick(doc, depth) in SortedTier(perDoc, depth)[..n] then [depth] else []
  {
    var tier := SortedTier(perDoc, depth);
    SortedTierAre(perDoc, depth);
    assert tier == tier[..n] + tier[n..];
    OnceConcat(tier[..n], tier[n..]);
    TierRanks(tier[..n], depth, doc);
  }

  lemma TierSplits(perDoc: PerDoc, k: nat, depth: nat, doc: nat, n: nat)
    requires k > 0 && SortedTier(perDoc, depth) != [] && n == Least(|SortedTier(perDoc, depth)|, k)
    ensures Ranks(Picks(perDoc, k, depth), doc) ==
            (if Pick(doc, depth) in SortedTier(perDoc, depth)[..n] then [depth] else [])
            + Ranks(Picks(perDoc, k - n, depth + 1), doc)
  {
    PicksStep(perDoc, k, depth, n);
    TierPrefixRanks(perDoc, depth, doc, n);
    RanksConcat(SortedTier(perDoc, depth)[..n], Picks(perDoc, k - n, depth + 1), doc);
  }

  /** A document a tier takes none of gives no more: it is exhausted, or the merge is full. */
  lemma PassedOverGivesNone(perDoc: PerDoc, k: nat, depth: nat, doc: nat, n: nat)
    requires k > 0 && n == Least(|SortedTier(perDoc, depth)|, k)
    requires Pick(doc, depth) !in SortedTier(perDoc, depth)[..n]
    ensures Ranks(Picks(perDoc, k - n, depth + 1), doc) == []
  {
    if n < k {
      assert SortedTier(perDoc, depth)[..n] == SortedTier(perDoc, depth);
      SortedTierAre(perDoc, depth);
      ExhaustedGivesNone(perDoc, k - n, depth + 1, doc);
    }
  }

  /** A document gives a prefix of its own ranking, in order. */
  lemma {:induction false} DocumentGivesPrefix(perDoc: PerDoc, k: nat, depth: nat, doc: nat)
    ensures Ranks(Picks(perDoc, k, depth), doc) == RanksFrom(depth, |Ranks(Picks(perDoc, k, depth), doc)|)
    decreases k
  {
    var tier := SortedTier(perDoc, depth);
    if k > 0 && tier != [] {
      var n := Least(|tier|, k);
      TierSplits(perDoc, k, depth, doc, n);
      if Pick(doc, depth) in tier[..n] {
        DocumentGivesPrefix(perDoc, k - n, depth + 1, doc);
        RanksFromCons(depth, Ranks(Picks(perDoc, k - n, depth + 1), doc));
      } else {
        PassedOverGivesNone(perDoc, k, depth, doc, n);
      }
    }
  }

  /** Two documents' contributions differ by at most one, unless the smaller is exhausted. */
  lemma ContributionsFair(perDoc: PerDoc, k: nat, a: nat, b: nat)
    requires a < |perDoc| && b < |perDoc|
    ensures |Ranks(Picks(perDoc, k, 0), b)| <= |perDoc[b]|
    ensures || |Ranks(Picks(perDoc, k, 0), a)| <= |Ranks(Picks(perDoc, k, 0), b)| + 1
            || |Ranks(Picks(perDoc, k, 0), b)| == |perDoc[b]|
  {
    var picks := Picks(perDoc, k, 0);
    var ra, rb := Ranks(picks, a), Ranks(picks, b);
    DocumentGivesPrefix(perDoc, k, 0, a);
    DocumentGivesPrefix(perDoc, k, 0, b);
    RanksAre(picks, a);
    RanksAre(picks, b);
    PicksNamed(perDoc, k, 0);
    if rb != [] {
      assert rb[|rb| - 1] in rb;
      assert Pick(b, |rb| - 1) in picks;
    }
    assert |rb| !in rb;
    if ra != [] && |rb| < |perDoc[b]| {
      assert ra[|ra| - 1] in ra;
      PicksPassOver(perDoc, k, 0, Pick(a, |ra| - 1), Pick(b, |rb|));
    }
  }
}
