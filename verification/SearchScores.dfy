/**
 What a search of one document returns, in terms of the scored rows and the labels
 alone: which rows are candidates, what score each result is given, and which of two
 candidates comes first.
 */
module Scores {
  import opened Sequences
  import opened Text
  import opened Sorting
  import opened Search

  // -------------------------------------------------------------------- the candidates

  /** A row of the document under the heading path the filter gives, if it gives one. */
  ghost predicate Reads(row: Row, p: Params, doc: string) {
    && row.doc == doc
    && (p.sectionFilter == "" || row.headingPath == p.sectionFilter
        || exists rest: string :: row.headingPath == p.sectionFilter + " > " + rest)
  }

  /** How many of the first n rows the document's query reads. */
  ghost function ReadBefore(rows: seq<Row>, p: Params, doc: string, n: nat): nat
    requires n <= |rows|
  {
    if n == 0 then 0 else ReadBefore(rows, p, doc, n - 1) + if Reads(rows[n - 1], p, doc) then 1 else 0
  }

  /** Row i is read, matched, and among the first four times k that are read. */
  ghost predicate IsCandidate(rows: seq<Row>, p: Params, doc: string, i: nat)
    requires i < |rows|
  {
    Reads(rows[i], p, doc) && rows[i].score < 0.0 && ReadBefore(rows, p, doc, i) < 4 * p.k
  }

  /** Offsets in rising order: exactly those of the candidates among the first n rows. */
  ghost predicate CandidateOffsets(rows: seq<Row>, p: Params, doc: string, n: nat, at: seq<nat>)
    requires n <= |rows|
  {
    && (forall j, m :: 0 <= j < m < |at| ==> at[j] < at[m])
    && (forall i: nat :: i in at <==> i < n && IsCandidate(rows, p, doc, i))
  }

  ghost predicate RowsAt(rows: seq<Row>, at: seq<nat>, out: seq<Row>) {
    |out| == |at| && forall j :: 0 <= j < |at| ==> at[j] < |rows| && out[j] == rows[at[j]]
  }

  lemma WithinMeans(filter: string, row: Row)
    ensures Within(filter, row) <==> filter == "" || row.headingPath == filter
                                     || exists rest: string :: row.headingPath == filter + " > " + rest
  {
    var lead := filter + " > ";
    if lead <= row.headingPath {
      assert row.headingPath == lead + row.headingPath[|lead|..];
      assert row.headingPath == filter + " > " + row.headingPath[|lead|..];
    }
  }

  lemma {:induction false} FilteredSnoc(rows: seq<Row>, row: Row, filter: string)
    ensures Filtered(rows + [row], filter) == Filtered(rows, filter) + if Within(filter, row) then [row] else []
  {
    if rows == [] {
      Nothing([row]);
    } else {
      assert (rows + [row])[1..] == rows[1..] + [row] && (rows + [row])[0] == rows[0];
      FilteredSnoc(rows[1..], row, filter);
      Assoc(if Within(filter, rows[0]) then [rows[0]] else [], Filtered(rows[1..], filter), if Within(filter, row) then [row] else []);
    }
  }

  lemma {:induction false} OfDocSnoc(rows: seq<Row>, row: Row, doc: string)
    ensures OfDoc(rows + [row], doc) == OfDoc(rows, doc) + if row.doc == doc then [row] else []
  {
    if rows == [] {
      Nothing([row]);
    } else {
      assert (rows + [row])[1..] == rows[1..] + [row] && (rows + [row])[0] == rows[0];
      OfDocSnoc(rows[1..], row, doc);
      Assoc(if rows[0].doc == doc then [rows[0]] else [], OfDoc(rows[1..], doc), if row.doc == doc then [row] else []);
    }
  }

  lemma {:induction false} MatchingSnoc(rows: seq<Row>, row: Row)
    ensures Matching(rows + [row]) == Matching(rows) + if row.score < 0.0 then [row] else []
  {
    if rows == [] {
      Nothing([row]);
    } else {
      assert (rows + [row])[1..] == rows[1..] + [row] && (rows + [row])[0] == rows[0];
      MatchingSnoc(rows[1..], row);
      Assoc(if rows[0].score < 0.0 then [rows[0]] else [], Matching(rows[1..]), if row.score < 0.0 then [row] else []);
    }
  }

  lemma ReadStep(rows: seq<Row>, p: Params, doc: string, n: nat)
    requires 0 < n <= |rows|
    ensures OfDoc(Filtered(rows[..n], p.sectionFilter), doc)
         == OfDoc(Filtered(rows[..n - 1], p.sectionFilter), doc) + if Reads(rows[n - 1], p, doc) then [rows[n - 1]] else []
  {
    var before := rows[..n - 1];
    TakeOne(rows, n - 1);
    WithinMeans(p.sectionFilter, rows[n - 1]);
    FilteredSnoc(before, rows[n - 1], p.sectionFilter);
    OfDocSnoc(Filtered(before, p.sectionFilter), rows[n - 1], doc);
    Nothing(OfDoc(Filtered(before, p.sectionFilter), doc));
    Nothing(Filtered(before, p.sectionFilter));
  }

  lemma {:induction false} ReadBeforeCounts(rows: seq<Row>, p: Params, doc: string, n: nat)
    requires n <= |rows|
    ensures ReadBefore(rows, p, doc, n) == |OfDoc(Filtered(rows[..n], p.sectionFilter), doc)|
  {
    if n > 0 {
      ReadBeforeCounts(rows, p, doc, n - 1);
      ReadStep(rows, p, doc, n);
    }
  }

  lemma FirstSnoc<T>(s: seq<T>, x: T, n: nat)
    ensures (if n < |s + [x]| then (s + [x])[..n] else s + [x])
         == (if n < |s| then s[..n] else s) + if |s| < n then [x] else []
  {
  }

  /** What one row more adds to a limited query over those read before it. */
  lemma LimitedSnoc(read: seq<Row>, row: Row, n: nat)
    ensures Matching(First(read + [row], n))
         == Matching(First(read, n)) + if |read| < n && row.score < 0.0 then [row] else []
  {
    FirstSnoc(read, row, n);
    MatchingSnoc(First(read, n), row);
    Nothing(First(read, n));
    Nothing(Matching(First(read, n)));
  }

  lemma CandidatesStep(rows: seq<Row>, p: Params, doc: string, n: nat)
    requires 0 < n <= |rows|
    ensures Candidates(rows[..n], p, doc)
         == Candidates(rows[..n - 1], p, doc) + if IsCandidate(rows, p, doc, n - 1) then [rows[n - 1]] else []
  {
    var read := OfDoc(Filtered(rows[..n - 1], p.sectionFilter), doc);
    ReadStep(rows, p, doc, n);
    ReadBeforeCounts(rows, p, doc, n - 1);
    if Reads(rows[n - 1], p, doc) {
      LimitedSnoc(read, rows[n - 1], 4 * p.k);
    } else {
      Nothing(read);
      Nothing(Candidates(rows[..n - 1], p, doc));
    }
  }

  lemma OffsetsStep(rows: seq<Row>, p: Params, doc: string, n: nat, before: seq<nat>)
    requires 0 < n <= |rows| && CandidateOffsets(rows, p, doc, n - 1, before)
    ensures CandidateOffsets(rows, p, doc, n, before + if IsCandidate(rows, p, doc, n - 1) then [n - 1] else [])
  {
    var more: seq<nat> := if IsCandidate(rows, p, doc, n - 1) then [n - 1] else [];
    forall i: nat
      ensures i in before + more <==> i < n && IsCandidate(rows, p, doc, i)
    {
      InEither(before, more, i);
    }
    forall j | 0 <= j < |before|
      ensures before[j] < n - 1
    {
      assert before[j] in before;
    }
  }

  lemma {:induction false} CandidatesUpTo(rows: seq<Row>, p: Params, doc: string, n: nat) returns (at: seq<nat>)
    requires n <= |rows|
    ensures CandidateOffsets(rows, p, doc, n, at) && RowsAt(rows, at, Candidates(rows[..n], p, doc))
  {
    at := [];
    if n > 0 {
      at := CandidatesUpTo(rows, p, doc, n - 1);
      CandidatesStep(rows, p, doc, n);
      OffsetsStep(rows, p, doc, n, at);
      if IsCandidate(rows, p, doc, n - 1) {
        at := at + [n - 1];
      } else {
        Nothing(at);
        Nothing(Candidates(rows[..n - 1], p, doc));
      }
    }
  }

  /**
   A document's candidates are, in the order of their scores, its matched rows under the
   filter that are among the first four times k of its rows under the filter.
   */
  lemma CandidatesAre(rows: seq<Row>, p: Params, doc: string) returns (at: seq<nat>)
    ensures CandidateOffsets(rows, p, doc, |rows|, at) && RowsAt(rows, at, Candidates(rows, p, doc))
  {
    at := CandidatesUpTo(rows, p, doc, |rows|);
    Whole(rows);
  }

  // ------------------------------------------------------------ the score of a result

  /** Some index entry the query matched names the row's section or one above it. */
  ghost predicate IndexNames(row: Row, l: Labels) {
    row.doc in l.boosts && exists i :: 0 <= i < |l.boosts[row.doc]| && AtOrBelow(l.boosts[row.doc][i], row.section)
  }

  /** The section is the one referred to, or its number goes on after that one's and a dot. */
  ghost predicate AtOrBelow(ref: string, section: string) {
    ref != "" && (section == ref || exists rest: string :: section == ref + "." + rest)
  }

  predicate HeldBack(row: Row, l: Labels) {
    row.kind == "keyword-reference" && !l.keepKeywords
  }

  /** The row's score, 2 better when the index names its section, and 6 worse when it is a keyword held back. */
  ghost function Standing(row: Row, l: Labels): real {
    row.score - (if IndexNames(row, l) then 2.0 else 0.0) + if HeldBack(row, l) then 6.0 else 0.0
  }

  lemma CoversMeans(ref: string, section: string)
    ensures SectionCovers(ref, section) <==> AtOrBelow(ref, section)
  {
    var lead := ref + ".";
    if lead <= section {
      assert section == lead + section[|lead|..];
      assert section == ref + "." + section[|lead|..];
    }
  }

  lemma LabelledMeans(row: Row, l: Labels)
    ensures var res := Labelled(row, l);
            && res.row == row && res.bm25 == Standing(row, l) && (res.indexBoost <==> IndexNames(row, l))
            && (row.doc in l.ready ==> res.title == l.ready[row.doc])
  {
    var refs := if row.doc in l.boosts then l.boosts[row.doc] else [];
    forall i | 0 <= i < |refs|
      ensures SectionCovers(refs[i], row.section) <==> AtOrBelow(refs[i], row.section)
    {
      CoversMeans(refs[i], row.section);
    }
  }

  lemma {:induction false} LabelAllAt(rows: seq<Row>, l: Labels)
    ensures |LabelAll(rows, l)| == |rows|
    ensures forall i :: 0 <= i < |rows| ==> LabelAll(rows, l)[i] == Labelled(rows[i], l)
  {
    if rows != [] {
      LabelAllAt(rows[1..], l);
    }
  }

  /** A result of a row: where it is ranked, its title, what the index says, its score, and the relevance that gives. */
  ghost predicate IsResultOf(res: Result, row: Row, l: Labels, title: string, rank: nat) {
    && res.row == row && res.title == title && (res.indexBoost <==> IndexNames(row, l))
    && res.bm25 == Standing(row, l)
    && res.rank == rank && res.relevance == (if res.bm25 < 0.0 then -res.bm25 / (-res.bm25 + 10.0) else 0.0)
  }

  /** The a-th row stands better than the b-th, or as well and came before it. */
  ghost predicate Precedes(rows: seq<Row>, l: Labels, a: nat, b: nat)
    requires a < |rows| && b < |rows|
  {
    Standing(rows[a], l) < Standing(rows[b], l) || (Standing(rows[a], l) == Standing(rows[b], l) && a < b)
  }

  /** All rows in the order Precedes gives, by offset, of which out shows the first k. */
  ghost predicate IsRanking(rows: seq<Row>, l: Labels, title: string, k: nat, perm: seq<nat>, out: seq<Result>) {
    && |perm| == |rows| && |out| == (if |rows| < k then |rows| else k)
    && (forall i :: 0 <= i < |perm| ==> perm[i] < |rows|)
    && (forall a: nat :: a < |rows| ==> a in perm)
    && (forall i, j :: 0 <= i < j < |perm| ==> Precedes(rows, l, perm[i], perm[j]))
    && (forall i :: 0 <= i < |out| ==> IsResultOf(out[i], rows[perm[i]], l, title, i + 1))
  }

  lemma LabelledSorts(rows: seq<Row>, l: Labels, perm: seq<nat>, sorted: seq<Result>)
    requires Sorts(LabelAll(rows, l), ByScore(), perm, sorted)
    ensures |perm| == |rows| && forall i :: 0 <= i < |perm| ==> perm[i] < |rows| && sorted[i] == Labelled(rows[perm[i]], l)
    ensures forall a: nat :: a < |rows| ==> a in perm
    ensures forall i, j :: 0 <= i < j < |perm| ==> Precedes(rows, l, perm[i], perm[j])
  {
    LabelAllAt(rows, l);
    forall i | 0 <= i < |perm|
      ensures ByScore()(sorted[i]) == Standing(rows[perm[i]], l)
    {
      LabelledMeans(rows[perm[i]], l);
    }
  }

  lemma NumberedMeans(row: Row, l: Labels, rank: nat)
    ensures var res := Labelled(row, l);
            IsResultOf(res.(rank := rank, relevance := Relevance(res.bm25)), row, l, res.title, rank)
  {
    LabelledMeans(row, l);
  }

  /** Ranking labelled rows puts them in order of standing. */
  lemma RankedAre(rows: seq<Row>, l: Labels, title: string, k: nat) returns (perm: seq<nat>)
    requires forall i :: 0 <= i < |rows| ==> Labelled(rows[i], l).title == title
    ensures IsRanking(rows, l, title, k, perm, Ranked(LabelAll(rows, l), k))
  {
    var labelled := LabelAll(rows, l);
    perm := SortOffsets(labelled, ByScore());
    LabelledSorts(rows, l, perm, SortBy(labelled, ByScore()));
    NumberFromAt(Best(labelled, k), 1);
    forall i | 0 <= i < |Best(labelled, k)|
      ensures IsResultOf(Ranked(labelled, k)[i], rows[perm[i]], l, title, i + 1)
    {
      NumberedMeans(rows[perm[i]], l, i + 1);
    }
  }

  lemma CandidatesOfDoc(rows: seq<Row>, p: Params, doc: string)
    ensures forall i :: 0 <= i < |Candidates(rows, p, doc)| ==> Candidates(rows, p, doc)[i].doc == doc
  {
    var at := CandidatesAre(rows, p, doc);
    forall i | 0 <= i < |Candidates(rows, p, doc)|
      ensures Candidates(rows, p, doc)[i].doc == doc
    {
      assert at[i] in at;
    }
  }

  /**
   A ready document's results are its best candidates: as many as wanted, in order of
   standing and, where that is equal, of the candidates; each has the document's title,
   says whether the index names its section, and is scored as it stands.
   */
  lemma ResultsAre(rows: seq<Row>, p: Params, l: Labels, doc: string) returns (perm: seq<nat>)
    requires doc in l.ready
    ensures IsRanking(Candidates(rows, p, doc), l, l.ready[doc], p.k, perm, OneDocument(rows, p, l, doc))
  {
    CandidatesOfDoc(rows, p, doc);
    perm := RankedAre(Candidates(rows, p, doc), l, l.ready[doc], p.k);
  }

  /** A row that stands better than one returned is returned before it. */
  lemma BetterComesFirst(rows: seq<Row>, l: Labels, title: string, k: nat, perm: seq<nat>, out: seq<Result>, a: nat, j: nat)
      returns (i: nat)
    requires IsRanking(rows, l, title, k, perm, out) && a < |rows| && j < |out|
    requires Standing(rows[a], l) < Standing(out[j].row, l)
    ensures i < j && out[i].row == rows[a]
  {
    assert a in perm;
    i :| 0 <= i < |perm| && perm[i] == a;
  }

  /**
   Of two candidates of equal score and kind, one in a section the index names and one
   not, the named one is returned, and before the other, if the other is returned at all.
   */
  lemma IndexedComesFirst(rows: seq<Row>, p: Params, l: Labels, doc: string, named: Row, j: nat)
      returns (i: nat)
    requires doc in l.ready && named in Candidates(rows, p, doc) && IndexNames(named, l)
    requires j < |OneDocument(rows, p, l, doc)|
    requires var other := OneDocument(rows, p, l, doc)[j].row;
             !IndexNames(other, l) && other.score == named.score && other.kind == named.kind
    ensures i < j && OneDocument(rows, p, l, doc)[i].row == named
  {
    var cands, out := Candidates(rows, p, doc), OneDocument(rows, p, l, doc);
    var perm := ResultsAre(rows, p, l, doc);
    var a :| 0 <= a < |cands| && cands[a] == named;
    assert IsResultOf(out[j], cands[perm[j]], l, l.ready[doc], j + 1);
    i := BetterComesFirst(cands, l, l.ready[doc], p.k, perm, out, a, j);
  }
}
