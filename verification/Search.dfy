/**
 Search merging (internal/pgstore/search.go). SQL is abstracted to one fixed order
 per library: the rows of its chunks, scored, best first, every statement reading
 them in that order. A search of the whole library walks that order once with a
 counter per document; candidateQuery, one limited query per document, is what the
 walk replaces and is its specification here.
 */
module Search {
  import opened Text
  import opened Sorting

  /** One chunk as a search reads it; score is the raw BM25 value, lower is better. */
  datatype Row = Row(doc: string, id: int, headingPath: string, section: string, kind: string, score: real)

  datatype Result = Result(
    row: Row, title: string, bm25: real, indexBoost: bool, rank: nat, relevance: real)

  datatype Params = Params(sectionFilter: string, k: nat)

  /** What a result needs beyond its row: titles of the ready documents, index boosts, and the caller's choice. */
  datatype Labels = Labels(ready: map<string, string>, boosts: map<string, seq<string>>, keepKeywords: bool)

  const RELEVANCE_SCALE := 10.0
  const INDEX_BOOST := 2.0
  const KEYWORD_PENALTY := 6.0

  function PoolSize(k: nat): nat {
    k * 4
  }

  // ------------------------------------------------------------------ adjustments

  predicate SectionCovers(ref: string, section: string) {
    ref != "" && section != "" && (section == ref || ref + "." <= section)
  }

  predicate AnySectionCovers(refs: seq<string>, section: string) {
    exists i :: 0 <= i < |refs| && SectionCovers(refs[i], section)
  }

  function Adjusted(r: Result, boosts: seq<string>, keepKeywords: bool): Result {
    var boosted := if AnySectionCovers(boosts, r.row.section)
                   then r.(indexBoost := true, bm25 := r.bm25 - INDEX_BOOST) else r;
    if r.row.kind == "keyword-reference" && !keepKeywords
    then boosted.(bm25 := boosted.bm25 + KEYWORD_PENALTY) else boosted
  }

  /** A row as a result of its document, with the two score adjustments applied. */
  function Labelled(row: Row, l: Labels): Result {
    var title := if row.doc in l.ready then l.ready[row.doc] else "";
    var boosts := if row.doc in l.boosts then l.boosts[row.doc] else [];
    Adjusted(Result(row, title, row.score, false, 0, 0.0), boosts, l.keepKeywords)
  }

  function Relevance(bm25: real): real {
    var strength := if -bm25 < 0.0 then 0.0 else -bm25;
    strength / (strength + RELEVANCE_SCALE)
  }

  /** A better score is never less relevant, and relevance stays within 0 and 1. */
  lemma RelevanceMonotone(a: real, b: real)
    requires a <= b
    ensures 0.0 <= Relevance(b) <= Relevance(a) < 1.0
  {
    var s := if -a < 0.0 then 0.0 else -a;
    var t := if -b < 0.0 then 0.0 else -b;
    assert t * (s + RELEVANCE_SCALE) <= s * (t + RELEVANCE_SCALE) by {
      assert t * (s + RELEVANCE_SCALE) == t * s + t * RELEVANCE_SCALE;
      assert s * (t + RELEVANCE_SCALE) == s * t + s * RELEVANCE_SCALE;
    }
    CrossDivide(t, t + RELEVANCE_SCALE, s, s + RELEVANCE_SCALE);
    CrossDivide(0.0, 1.0, t, t + RELEVANCE_SCALE);
  }

  lemma CrossDivide(a: real, b: real, c: real, d: real)
    requires b > 0.0 && d > 0.0 && a * d <= c * b
    ensures a / b <= c / d
  {
    var x, y := a / b, c / d;
    assert x * b == a && y * d == c;
    assert x * (b * d) == (x * b) * d && y * (b * d) == (y * d) * b;
  }

  // ------------------------------------------------------ one document's own query

  predicate Within(filter: string, row: Row) {
    filter == "" || row.headingPath == filter || filter + " > " <= row.headingPath
  }

  /** The rows the section filter lets through: what walkQuery and candidateQuery both read. */
  function Filtered(rows: seq<Row>, filter: string): seq<Row> {
    if rows == [] then []
    else (if Within(filter, rows[0]) then [rows[0]] else []) + Filtered(rows[1..], filter)
  }

  function OfDoc(rows: seq<Row>, doc: string): seq<Row> {
    if rows == [] then []
    else (if rows[0].doc == doc then [rows[0]] else []) + OfDoc(rows[1..], doc)
  }

  function Matching(rows: seq<Row>): seq<Row> {
    if rows == [] then []
    else (if rows[0].score < 0.0 then [rows[0]] else []) + Matching(rows[1..])
  }

  function First(rows: seq<Row>, n: int): seq<Row> {
    if n <= 0 then [] else if n < |rows| then rows[..n] else rows
  }

  /** candidateQuery: the document's rows in order, limited, then those that matched. */
  function Candidates(rows: seq<Row>, p: Params, doc: string): seq<Row> {
    Matching(First(OfDoc(Filtered(rows, p.sectionFilter), doc), PoolSize(p.k)))
  }

  function LabelAll(rows: seq<Row>, l: Labels): seq<Result> {
    if rows == [] then [] else [Labelled(rows[0], l)] + LabelAll(rows[1..], l)
  }

  function NumberFrom(results: seq<Result>, n: nat): seq<Result>
    decreases |results|
  {
    if results == [] then []
    else [results[0].(rank := n, relevance := Relevance(results[0].bm25))] + NumberFrom(results[1..], n + 1)
  }

  function ByScore(): Result -> real {
    (r: Result) => r.bm25
  }

  function Best(results: seq<Result>, k: nat): seq<Result> {
    var sorted := SortBy(results, ByScore());
    if |sorted| > k then sorted[..k] else sorted
  }

  /** rankCandidates as a function: the k best, numbered from one. */
  function Ranked(results: seq<Result>, k: nat): seq<Result> {
    NumberFrom(Best(results, k), 1)
  }

  /** What a search of one ready document returns. */
  function OneDocument(rows: seq<Row>, p: Params, l: Labels, doc: string): seq<Result> {
    Ranked(LabelAll(Candidates(rows, p, doc), l), p.k)
  }

  /** Numbers results from one, each with its relevance. */
  method NumberAll(best: seq<Result>) returns (out: seq<Result>)
    ensures out == NumberFrom(best, 1)
  {
    out := [];
    assert best[0..] == best;
    for i := 0 to |best|
      invariant |out| == i
      invariant NumberFrom(best, 1) == out + NumberFrom(best[i..], i + 1)
    {
      assert best[i..][1..] == best[i + 1..];
      out := out + [best[i].(rank := i + 1, relevance := Relevance(best[i].bm25))];
    }
  }

  method RankCandidates(results: seq<Result>, k: nat) returns (out: seq<Result>)
    ensures out == Ranked(results, k)
  {
    var sorted := SortBy(results, ByScore());
    var best := if |sorted| > k then sorted[..k] else sorted;
    out := NumberAll(best);
  }

  lemma {:induction false} NumberFromAt(results: seq<Result>, n: nat)
    ensures |NumberFrom(results, n)| == |results|
    ensures forall i :: 0 <= i < |results| ==>
              NumberFrom(results, n)[i] == results[i].(rank := n + i, relevance := Relevance(results[i].bm25))
    decreases |results|
  {
    if results != [] {
      NumberFromAt(results[1..], n + 1);
    }
  }

  /** A document's results are numbered in order, at most k, with relevance never rising. */
  lemma RankedInOrder(results: seq<Result>, k: nat)
    ensures |Ranked(results, k)| == if |results| < k then |results| else k
    ensures forall i :: 0 <= i < |Ranked(results, k)| ==> Ranked(results, k)[i].rank == i + 1
    ensures forall i, j :: 0 <= i < j < |Ranked(results, k)| ==>
              && Ranked(results, k)[i].bm25 <= Ranked(results, k)[j].bm25
              && Ranked(results, k)[j].relevance <= Ranked(results, k)[i].relevance
  {
    SortSorts(results, ByScore());
    var best := Best(results, k);
    NumberFromAt(best, 1);
    forall i, j | 0 <= i < j < |best|
      ensures best[i].bm25 <= best[j].bm25 && Relevance(best[j].bm25) <= Relevance(best[i].bm25)
    {
      assert ByScore()(best[i]) <= ByScore()(best[j]);
      RelevanceMonotone(best[i].bm25, best[j].bm25);
    }
  }

  /** What is left out of the k best is never better than what is kept. */
  lemma RankedKeepsBest(results: seq<Result>, k: nat)
    ensures var sorted := SortBy(results, ByScore());
            && multiset(sorted) == multiset(results) && Best(results, k) <= sorted
            && forall i, j :: 0 <= i < |Best(results, k)| <= j < |sorted| ==> sorted[i].bm25 <= sorted[j].bm25
  {
    SortSorts(results, ByScore());
    var sorted := SortBy(results, ByScore());
    forall i, j | 0 <= i < |Best(results, k)| <= j < |sorted|
      ensures sorted[i].bm25 <= sorted[j].bm25
    {
      assert ByScore()(sorted[i]) <= ByScore()(sorted[j]);
    }
  }

  // ------------------------------------------------------------- one walk for all

  /** The rows a walk keeps: each document's, until its counter runs out. */
  function Kept(rows: seq<Row>, wanted: map<string, int>): seq<Row>
    decreases |rows|
  {
    if rows == [] then []
    else
      var doc := rows[0].doc;
      if doc in wanted && wanted[doc] > 0
      then [rows[0]] + Kept(rows[1..], wanted[doc := wanted[doc] - 1])
      else Kept(rows[1..], wanted)
  }

  function IdsOf(rows: seq<Row>): seq<int> {
    if rows == [] then [] else [rows[0].id] + IdsOf(rows[1..])
  }

  /** One pool per ready document: the walk's counters start at the pool size. */
  function Wanted(ready: set<string>, k: nat): map<string, int> {
    map d | d in ready :: PoolSize(k)
  }

  /** A counter a document, and the identifiers kept while it is above zero. */
  class WalkPools {
    var wanted: map<string, int>
    var kept: seq<int>

    constructor (ready: set<string>, k: nat)
      ensures wanted == Wanted(ready, k) && kept == []
    {
      wanted := map d | d in ready :: PoolSize(k);
      kept := [];
    }

    method Read(rows: seq<Row>)
      modifies this
      ensures kept == old(kept) + IdsOf(Kept(rows, old(wanted)))
    {
      ghost var goal := old(kept) + IdsOf(Kept(rows, old(wanted)));
      assert rows[0..] == rows;
      for i := 0 to |rows|
        invariant goal == kept + IdsOf(Kept(rows[i..], wanted))
      {
        assert rows[i..][1..] == rows[i + 1..];
        var doc := rows[i].doc;
        if doc in wanted && wanted[doc] > 0 {
          KeptStep(kept, rows[i], Kept(rows[i + 1..], wanted[doc := wanted[doc] - 1]));
          kept := kept + [rows[i].id];
          wanted := wanted[doc := wanted[doc] - 1];
        }
      }
      assert rows[|rows|..] == [];
    }
  }

  lemma KeptStep(kept: seq<int>, row: Row, more: seq<Row>)
    ensures kept + IdsOf([row] + more) == (kept + [row.id]) + IdsOf(more)
  {
    assert ([row] + more)[1..] == more;
  }

  /** Whatever else the walk passes, a document keeps exactly the first rows of its own. */
  lemma {:induction false} KeptOfDoc(rows: seq<Row>, wanted: map<string, int>, doc: string)
    ensures OfDoc(Kept(rows, wanted), doc) == First(OfDoc(rows, doc), if doc in wanted then wanted[doc] else 0)
    decreases |rows|
  {
    if rows != [] {
      var row := rows[0];
      if row.doc in wanted && wanted[row.doc] > 0 {
        var fewer := wanted[row.doc := wanted[row.doc] - 1];
        KeptOfDoc(rows[1..], fewer, doc);
        assert ([row] + Kept(rows[1..], fewer))[1..] == Kept(rows[1..], fewer);
      } else {
        KeptOfDoc(rows[1..], wanted, doc);
      }
    }
  }

  // --------------------------------------------------------------- scoring the kept

  predicate DistinctIds(rows: seq<Row>) {
    forall i, j :: 0 <= i < j < |rows| ==> rows[i].id != rows[j].id
  }

  /** The row a kept identifier names, when it matched. */
  ghost predicate ScoreOf(rows: seq<Row>, scored: map<int, Row>, ids: seq<int>) {
    && (forall row :: row in rows && row.id in ids && row.score < 0.0 ==> row.id in scored)
    && (forall id :: id in scored ==> scored[id] in rows && scored[id].id == id && scored[id].score < 0.0)
  }

  method Score(rows: seq<Row>, ids: seq<int>) returns (scored: map<int, Row>)
    ensures ScoreOf(rows, scored, ids)
  {
    scored := map[];
    for i := 0 to |rows|
      invariant ScoreOf(rows[..i], scored, ids)
    {
      assert rows[..i + 1] == rows[..i] + [rows[i]];
      if rows[i].id in ids && rows[i].score < 0.0 {
        scored := scored[rows[i].id := rows[i]];
      }
    }
    assert rows[..|rows|] == rows;
  }

  /** One document's pool: its kept rows that matched, in walk order, adjusted. */
  function PoolOf(ids: seq<int>, scored: map<int, Row>, l: Labels, doc: string): seq<Result> {
    if ids == [] then []
    else
      var id := ids[|ids| - 1];
      PoolOf(ids[..|ids| - 1], scored, l, doc)
      + if id in scored && scored[id].doc == doc then [Labelled(scored[id], l)] else []
  }

  ghost predicate PoolsAre(pools: map<string, seq<Result>>, ids: seq<int>, scored: map<int, Row>, l: Labels) {
    forall d ::
      && (d in pools <==> PoolOf(ids, scored, l, d) != [])
      && (d in pools ==> pools[d] == PoolOf(ids, scored, l, d))
  }

  /** Groups the kept rows by document. */
  method Pools(ids: seq<int>, scored: map<int, Row>, l: Labels) returns (pools: map<string, seq<Result>>)
    ensures PoolsAre(pools, ids, scored, l)
  {
    pools := map[];
    for i := 0 to |ids|
      invariant PoolsAre(pools, ids[..i], scored, l)
    {
      assert ids[..i + 1][..i] == ids[..i];
      if ids[i] in scored {
        var row := scored[ids[i]];
        var pool := if row.doc in pools then pools[row.doc] else [];
        pools := pools[row.doc := pool + [Labelled(row, l)]];
      }
    }
    assert ids[..|ids|] == ids;
  }

  // ------------------------------------------------- the walk agrees with the query

  lemma {:induction false} PoolOfCons(id: int, ids: seq<int>, scored: map<int, Row>, l: Labels, doc: string)
    ensures PoolOf([id] + ids, scored, l, doc) == PoolOf([id], scored, l, doc) + PoolOf(ids, scored, l, doc)
  {
    var all := [id] + ids;
    if ids == [] {
      assert all == [id];
    } else {
      var n := |ids| - 1;
      assert all[..n + 1] == [id] + ids[..n];
      PoolOfCons(id, ids[..n], scored, l, doc);
    }
  }

  /** Every one of these rows is found under its identifier exactly when it matched. */
  ghost predicate Finds(scored: map<int, Row>, rows: seq<Row>) {
    forall i :: 0 <= i < |rows| ==>
      if rows[i].score < 0.0 then rows[i].id in scored && scored[rows[i].id] == rows[i] else rows[i].id !in scored
  }

  lemma LabelMatchingCons(row: Row, rows: seq<Row>, l: Labels)
    ensures LabelAll(Matching([row] + rows), l)
         == (if row.score < 0.0 then [Labelled(row, l)] else []) + LabelAll(Matching(rows), l)
  {
    assert ([row] + rows)[1..] == rows;
    if row.score < 0.0 {
      assert ([row] + Matching(rows))[1..] == Matching(rows);
    } else {
      assert [] + Matching(rows) == Matching(rows);
    }
  }

  lemma {:induction false} PoolIsMatching(kept: seq<Row>, scored: map<int, Row>, l: Labels, doc: string)
    requires Finds(scored, kept)
    ensures PoolOf(IdsOf(kept), scored, l, doc) == LabelAll(Matching(OfDoc(kept, doc)), l)
  {
    if kept != [] {
      var row := kept[0];
      assert Finds(scored, kept[1..]);
      PoolIsMatching(kept[1..], scored, l, doc);
      PoolOfCons(row.id, IdsOf(kept[1..]), scored, l, doc);
      LabelMatchingCons(row, OfDoc(kept[1..], doc), l);
      assert [] + OfDoc(kept[1..], doc) == OfDoc(kept[1..], doc);
      assert PoolOf([row.id], scored, l, doc)
          == if row.score < 0.0 && row.doc == doc then [Labelled(row, l)] else [] by {
        assert [row.id][..0] == [];
      }
    }
  }

  lemma {:induction false} KeptAmong(rows: seq<Row>, wanted: map<string, int>)
    ensures forall row :: row in Kept(rows, wanted) ==> row in rows
    decreases |rows|
  {
    if rows != [] {
      var row := rows[0];
      if row.doc in wanted && wanted[row.doc] > 0 {
        KeptAmong(rows[1..], wanted[row.doc := wanted[row.doc] - 1]);
      } else {
        KeptAmong(rows[1..], wanted);
      }
    }
  }

  lemma {:induction false} FilteredAmong(rows: seq<Row>, filter: string)
    ensures forall row :: row in Filtered(rows, filter) ==> row in rows
  {
    if rows != [] {
      FilteredAmong(rows[1..], filter);
    }
  }

  lemma {:induction false} IdsOfAre(rows: seq<Row>)
    ensures forall row :: row in rows ==> row.id in IdsOf(rows)
  {
    if rows != [] {
      IdsOfAre(rows[1..]);
    }
  }

  lemma ScoredFinds(rows: seq<Row>, kept: seq<Row>, scored: map<int, Row>)
    requires DistinctIds(rows) && (forall row :: row in kept ==> row in rows)
    requires ScoreOf(rows, scored, IdsOf(kept))
    ensures Finds(scored, kept)
  {
    IdsOfAre(kept);
    forall i | 0 <= i < |kept|
      ensures if kept[i].score < 0.0 then kept[i].id in scored && scored[kept[i].id] == kept[i] else kept[i].id !in scored
    {
      assert kept[i] in kept;
    }
  }

  /**
   For every scored order of a library, the pool one walk gives a ready document is
   what the document's own limited query returns, and an unready one gets none.
   */
  lemma WalkAgreesWithQuery(rows: seq<Row>, p: Params, l: Labels, scored: map<int, Row>, doc: string)
    requires DistinctIds(rows)
    requires ScoreOf(rows, scored, IdsOf(Kept(Filtered(rows, p.sectionFilter), Wanted(l.ready.Keys, p.k))))
    ensures PoolOf(IdsOf(Kept(Filtered(rows, p.sectionFilter), Wanted(l.ready.Keys, p.k))), scored, l, doc)
         == if doc in l.ready then LabelAll(Candidates(rows, p, doc), l) else []
  {
    var read := Filtered(rows, p.sectionFilter);
    var kept := Kept(read, Wanted(l.ready.Keys, p.k));
    KeptAmong(read, Wanted(l.ready.Keys, p.k));
    FilteredAmong(rows, p.sectionFilter);
    ScoredFinds(rows, kept, scored);
    PoolIsMatching(kept, scored, l, doc);
    KeptOfDoc(read, Wanted(l.ready.Keys, p.k), doc);
  }

  /** A map from each ready document with a candidate to its OneDocument list. */
  method RankedPools(rows: seq<Row>, p: Params, l: Labels) returns (ranked: map<string, seq<Result>>)
    requires DistinctIds(rows)
    ensures forall d :: d in ranked <==> d in l.ready && Candidates(rows, p, d) != []
    ensures forall d :: d in ranked ==> ranked[d] == OneDocument(rows, p, l, d)
  {
    var walk := new WalkPools(l.ready.Keys, p.k);
    walk.Read(Filtered(rows, p.sectionFilter));
    var kept := walk.kept;
    assert kept == IdsOf(Kept(Filtered(rows, p.sectionFilter), Wanted(l.ready.Keys, p.k)));
    var scored := Score(rows, kept);
    var pools := Pools(kept, scored, l);
    forall d
      ensures PoolOf(kept, scored, l, d) == if d in l.ready then LabelAll(Candidates(rows, p, d), l) else []
    {
      WalkAgreesWithQuery(rows, p, l, scored, d);
    }
    ranked := RankAll(pools, p.k);
  }

  method RankAll(pools: map<string, seq<Result>>, k: nat) returns (ranked: map<string, seq<Result>>)
    ensures ranked.Keys == pools.Keys
    ensures forall d :: d in pools ==> ranked[d] == Ranked(pools[d], k)
  {
    ranked := map[];
    var todo := pools.Keys;
    while todo != {}
      invariant todo <= pools.Keys && ranked.Keys == pools.Keys - todo
      invariant forall d :: d in ranked ==> ranked[d] == Ranked(pools[d], k)
      decreases todo
    {
      var d :| d in todo;
      var list := RankCandidates(pools[d], k);
      ranked := ranked[d := list];
      todo := todo - {d};
    }
  }
}
