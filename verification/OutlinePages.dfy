/**
 The pages a block is of. Every segment of a document spans from the first to the last
 page with a kept line read under it, blank lines included, and its block says so.
 */
module OutlinePages {
  import opened Sequences
  import opened Text
  import opened OutlineEmit
  import opened OutlineRule
  import opened OutlineFigures
  import opened OutlineSegments

  /** One of a page's first n lines is kept and read under segment k. */
  ghost predicate HasLine(base: nat, sh: Sheet, n: nat, k: nat)
    requires n <= |sh.lines|
  {
    exists i :: 0 <= i < n && KeptLine(sh, i) && LineSegment(base, sh, i) == k
  }

  /** A page is read, and some line of it is kept and read under segment k. */
  ghost predicate ReadUnder(d: Document, pno: nat, k: nat)
    requires d.Valid() && pno < |d.pages|
  {
    pno !in d.skip && HasLine(HeadingsBy(d, pno), SheetOf(d, pno), |d.pages[pno]|, k)
  }

  ghost predicate FirstRead(d: Document, n: nat, k: nat, pno: nat)
    requires d.Valid() && n <= |d.pages|
  {
    pno < n && ReadUnder(d, pno, k) && forall q: nat :: q < pno ==> !ReadUnder(d, q, k)
  }

  ghost predicate LastRead(d: Document, n: nat, k: nat, pno: nat)
    requires d.Valid() && n <= |d.pages|
  {
    pno < n && ReadUnder(d, pno, k) && forall q: nat :: pno < q < n ==> !ReadUnder(d, q, k)
  }

  /** Pages from 1 on: those of the first and of the last of the first n pages read under segment k, or 0 if there is none. */
  ghost predicate Spans(d: Document, n: nat, k: nat, page: nat, pageEnd: nat)
    requires d.Valid() && n <= |d.pages|
  {
    if exists q: nat :: q < n && ReadUnder(d, q, k)
    then page > 0 && pageEnd > 0 && FirstRead(d, n, k, page - 1) && LastRead(d, n, k, pageEnd - 1)
    else page == 0 && pageEnd == 0
  }

  // ------------------------------------------------------------------ what a page adds

  /** A buffer has gained lines of page pno, or is of the same pages as before. */
  predicate PagesTurned(before: Buffer, after: Buffer, gained: bool, pno: nat) {
    && after.page == (if gained && before.page == 0 then pno + 1 else before.page)
    && after.pageEnd == (if gained then pno + 1 else before.pageEnd)
  }

  /** From s to t segment k has, or has not, gained lines of page pno. */
  ghost predicate Turns(s: Sink, t: Sink, k: nat, gained: bool, pno: nat) {
    PagesTurned(At(s, k), At(t, k), gained, pno)
  }

  lemma TurnsTwice(s: Sink, t: Sink, u: Sink, k: nat, first: bool, second: bool, pno: nat)
    requires Turns(s, t, k, first, pno) && Turns(t, u, k, second, pno)
    ensures Turns(s, u, k, first || second, pno)
  {
  }

  lemma {:induction false} EnteringTurns(s: Sink, placed: seq<Placement>, m: nat, n: nat, k: nat, pno: nat)
    requires m <= n <= |placed|
    ensures Turns(s, EnterRun(s, placed, m, n), k, false, pno)
    decreases n
  {
    if m < n {
      var t := EnterRun(s, placed, m, n - 1);
      EnteringTurns(s, placed, m, n - 1, k, pno);
      assert At(Entered(t, placed[n - 1].section), k) == At(t, k);
    }
  }

  lemma FiguresTurn(s: Sink, n: nat, k: nat, pno: nat)
    ensures Turns(s, WithFigures(s, n), k, false, pno)
  {
  }

  lemma LineTurns(s: Sink, text: string, pno: nat, k: nat)
    ensures Turns(s, WithLine(s, text, pno), k, |s.closed| == k, pno)
  {
  }

  lemma AddedTurns(t: Sink, sh: Sheet, i: nat, k: nat, base: nat)
    requires i < |sh.lines| && |t.closed| == LineSegment(base, sh, i)
    ensures Turns(t, AddedLine(t, sh, i), k, KeptLine(sh, i) && LineSegment(base, sh, i) == k, sh.pno)
  {
    if KeptLine(sh, i) {
      var n := CountedBy(sh, i + 1) - CountedBy(sh, i);
      FiguresTurn(t, n, k, sh.pno);
      LineTurns(WithFigures(t, n), sh.lines[i].text, sh.pno, k);
      TurnsTwice(t, WithFigures(t, n), AddedLine(t, sh, i), k, false, LineSegment(base, sh, i) == k, sh.pno);
    }
  }

  lemma LineRunTurns(s: Sink, sh: Sheet, i: nat, k: nat, base: nat)
    requires i < |sh.lines| && |s.closed| == base + Reached(sh.placed, i)
    ensures Turns(s, LineRun(s, sh, i), k, KeptLine(sh, i) && LineSegment(base, sh, i) == k, sh.pno)
  {
    var m, n := Reached(sh.placed, i), Reached(sh.placed, i + 1);
    var t := EnterRun(s, sh.placed, m, n);
    EnteringGrows(s, sh.placed, m, n, k);
    EnteringTurns(s, sh.placed, m, n, k, sh.pno);
    AddedTurns(t, sh, i, k, base);
    TurnsTwice(s, t, LineRun(s, sh, i), k, false, KeptLine(sh, i) && LineSegment(base, sh, i) == k, sh.pno);
  }

  lemma HasLineStep(base: nat, sh: Sheet, n: nat, k: nat)
    requires 0 < n <= |sh.lines|
    ensures HasLine(base, sh, n, k) <==> HasLine(base, sh, n - 1, k) || (KeptLine(sh, n - 1) && LineSegment(base, sh, n - 1) == k)
  {
  }

  lemma {:induction false} LinesRunTurns(s: Sink, sh: Sheet, i: nat, k: nat)
    requires i <= |sh.lines|
    ensures Turns(s, LinesRun(s, sh, i), k, HasLine(|s.closed|, sh, i, k), sh.pno)
  {
    if i > 0 {
      var base, j := |s.closed|, i - 1;
      LinesRunTurns(s, sh, j, k);
      LinesRunGrows(s, sh, j, k);
      LineRunTurns(LinesRun(s, sh, j), sh, j, k, base);
      HasLineStep(base, sh, i, k);
      TurnsTwice(s, LinesRun(s, sh, j), LinesRun(s, sh, i), k, HasLine(base, sh, j, k),
                 KeptLine(sh, j) && LineSegment(base, sh, j) == k, sh.pno);
    }
  }

  lemma PageRunTurns(s: Sink, sh: Sheet, k: nat)
    ensures Turns(s, PageRun(s, sh), k, HasLine(|s.closed|, sh, |sh.lines|, k), sh.pno)
  {
    var n, has := |sh.lines|, HasLine(|s.closed|, sh, |sh.lines|, k);
    var t := LinesRun(s, sh, n);
    var u := EnterRun(t, sh.placed, Reached(sh.placed, n), |sh.placed|);
    LinesRunTurns(s, sh, n, k);
    EnteringTurns(t, sh.placed, Reached(sh.placed, n), |sh.placed|, k, sh.pno);
    FiguresTurn(u, |sh.tops| - CountedBy(sh, n), k, sh.pno);
    TurnsTwice(s, t, u, k, has, false, sh.pno);
    TurnsTwice(s, u, PageRun(s, sh), k, has, false, sh.pno);
  }

  lemma OnePageTurns(s: Sink, d: Document, pno: nat, k: nat)
    requires d.Valid() && pno < |d.pages| && |s.closed| == HeadingsBy(d, pno)
    ensures Turns(s, OnePageRun(s, d, pno), k, ReadUnder(d, pno, k), pno)
  {
    if pno in d.skip {
      EnteringTurns(s, PlacedOn(d, pno), 0, |PlacedOn(d, pno)|, k, pno);
    } else {
      PageRunTurns(s, SheetOf(d, pno), k);
    }
  }

  // ------------------------------------------------------------------------ the document

  lemma SpansSkip(d: Document, n: nat, k: nat, page: nat, pageEnd: nat)
    requires d.Valid() && 0 < n <= |d.pages| && Spans(d, n - 1, k, page, pageEnd) && !ReadUnder(d, n - 1, k)
    ensures Spans(d, n, k, page, pageEnd)
  {
    assert forall q: nat :: q < n && ReadUnder(d, q, k) ==> q < n - 1;
  }

  lemma SpansRead(d: Document, n: nat, k: nat, page: nat, pageEnd: nat)
    requires d.Valid() && 0 < n <= |d.pages| && Spans(d, n - 1, k, page, pageEnd) && ReadUnder(d, n - 1, k)
    ensures Spans(d, n, k, if page == 0 then n else page, n)
  {
    assert LastRead(d, n, k, n - 1);
    if page == 0 {
      assert FirstRead(d, n, k, n - 1);
    } else {
      assert FirstRead(d, n, k, page - 1);
    }
  }

  /** The page and page end segment k has once n pages are read. */
  ghost function PagesBy(d: Document, n: nat, k: nat): (nat, nat)
    requires d.Valid() && n <= |d.pages|
  {
    if n == 0 then (0, 0)
    else if ReadUnder(d, n - 1, k) then (if PagesBy(d, n - 1, k).0 == 0 then n else PagesBy(d, n - 1, k).0, n)
    else PagesBy(d, n - 1, k)
  }

  lemma {:induction false} PagesSpan(d: Document, n: nat, k: nat)
    requires d.Valid() && n <= |d.pages|
    ensures Spans(d, n, k, PagesBy(d, n, k).0, PagesBy(d, n, k).1)
  {
    if n > 0 {
      var (page, pageEnd) := PagesBy(d, n - 1, k);
      PagesSpan(d, n - 1, k);
      if ReadUnder(d, n - 1, k) {
        SpansRead(d, n, k, page, pageEnd);
      } else {
        SpansSkip(d, n, k, page, pageEnd);
      }
    }
  }

  lemma ClosedBy(d: Document, n: nat)
    requires d.Valid() && n <= |d.pages|
    ensures |DocumentRun(d, n).closed| == HeadingsBy(d, n)
  {
    DocumentGrows(d, n, 0);
  }

  lemma DocumentTurns(d: Document, m: nat, k: nat)
    requires d.Valid() && m < |d.pages|
    ensures Turns(DocumentRun(d, m), DocumentRun(d, m + 1), k, ReadUnder(d, m, k), m)
  {
    ClosedBy(d, m);
    OnePageTurns(DocumentRun(d, m), d, m, k);
  }

  /** A buffer is of the pages given. */
  predicate OfPages(b: Buffer, pages: (nat, nat)) {
    b.page == pages.0 && b.pageEnd == pages.1
  }

  lemma PagesStep(d: Document, n: nat, k: nat, before: Buffer, after: Buffer)
    requires d.Valid() && 0 < n <= |d.pages| && OfPages(before, PagesBy(d, n - 1, k))
    requires PagesTurned(before, after, ReadUnder(d, n - 1, k), n - 1)
    ensures OfPages(after, PagesBy(d, n, k))
  {
  }

  lemma StartPages(d: Document, k: nat)
    requires d.Valid()
    ensures OfPages(At(DocumentRun(d, 0), k), PagesBy(d, 0, k))
  {
  }

  lemma DocumentStepPages(d: Document, n: nat, k: nat)
    requires d.Valid() && 0 < n <= |d.pages| && OfPages(At(DocumentRun(d, n - 1), k), PagesBy(d, n - 1, k))
    ensures OfPages(At(DocumentRun(d, n), k), PagesBy(d, n, k))
  {
    DocumentTurns(d, n - 1, k);
    PagesStep(d, n, k, At(DocumentRun(d, n - 1), k), At(DocumentRun(d, n), k));
  }

  lemma {:induction false} DocumentPages(d: Document, n: nat, k: nat)
    requires d.Valid() && n <= |d.pages|
    ensures OfPages(At(DocumentRun(d, n), k), PagesBy(d, n, k))
  {
    if n == 0 {
      StartPages(d, k);
    } else {
      DocumentPages(d, n - 1, k);
      DocumentStepPages(d, n, k);
    }
  }

  /** Every segment spans the pages with a kept line read under it. */
  lemma SegmentsSpan(d: Document, k: nat)
    requires d.Valid() && k < |Segments(d)|
    ensures Spans(d, |d.pages|, k, Segments(d)[k].buf.page, Segments(d)[k].buf.pageEnd)
  {
    DocumentPages(d, |d.pages|, k);
    PagesSpan(d, |d.pages|, k);
    SegmentAt(d, k);
  }

  lemma SegmentAt(d: Document, k: nat)
    requires d.Valid() && k < |Segments(d)|
    ensures Segments(d)[k].buf == At(DocumentRun(d, |d.pages|), k)
  {
  }

  lemma BlockFields(g: Segment)
    requires BlocksOf(g) != []
    ensures var b := BlocksOf(g)[0];
            b.section == g.section && b.text == BufferText(g.buf) && b.page == g.buf.page > 0 && b.pageEnd == g.buf.pageEnd
  {
  }

  /** Offsets in rising order: exactly those of the lines that are not blank. */
  ghost predicate NonBlankAt(lines: seq<string>, at: seq<nat>) {
    && (forall j, m :: 0 <= j < m < |at| ==> at[j] < at[m])
    && (forall i: nat :: i in at <==> i < |lines| && Strip(lines[i]) != "")
  }

  function Chosen(lines: seq<string>, at: seq<nat>): seq<string> {
    seq(|at|, j requires 0 <= j < |at| => if at[j] < |lines| then lines[at[j]] else "")
  }

  lemma NonBlankMore(lines: seq<string>, at: seq<nat>) returns (more: seq<nat>)
    requires lines != [] && NonBlankAt(lines[..|lines| - 1], at)
    ensures NonBlankAt(lines, more)
    ensures more == at + if Strip(lines[|lines| - 1]) != "" then [|lines| - 1] else []
  {
    var last: seq<nat> := if Strip(lines[|lines| - 1]) != "" then [|lines| - 1] else [];
    more := at + last;
    forall i: nat
      ensures i in more <==> i < |lines| && Strip(lines[i]) != ""
    {
      assert i in more <==> i in at || i in last;
    }
    forall j | 0 <= j < |at|
      ensures at[j] < |lines| - 1
    {
      assert at[j] in at;
    }
  }

  lemma ChosenMore(lines: seq<string>, at: seq<nat>)
    requires lines != [] && forall j :: 0 <= j < |at| ==> at[j] < |lines| - 1
    ensures Chosen(lines, at) == Chosen(lines[..|lines| - 1], at)
    ensures Chosen(lines, at + [|lines| - 1]) == Chosen(lines, at) + [lines[|lines| - 1]]
  {
  }

  lemma {:induction false} NonBlankAre(lines: seq<string>) returns (at: seq<nat>)
    ensures NonBlankAt(lines, at) && NonBlankLines(lines) == Chosen(lines, at)
  {
    at := [];
    if lines != [] {
      var before := NonBlankAre(lines[..|lines| - 1]);
      at := NonBlankMore(lines, before);
      forall j | 0 <= j < |before|
        ensures before[j] < |lines| - 1
      {
        assert before[j] in before;
      }
      ChosenMore(lines, before);
      Nothing(before);
      Nothing(Chosen(lines, before));
    }
  }

  /** A block reads its segment's kept lines that are not blank, under the segment's section. */
  lemma BlockReads(d: Document, k: nat) returns (at: seq<nat>)
    requires d.Valid() && k < |Segments(d)| && BlocksOf(Segments(d)[k]) != []
    ensures BlocksOf(Segments(d)[k])[0].section == Segments(d)[k].section
    ensures NonBlankAt(SegmentLines(d, |d.pages|, k), at)
    ensures BlocksOf(Segments(d)[k])[0].text == Strip(Join(Chosen(SegmentLines(d, |d.pages|, k), at), "\n"))
  {
    SegmentsHold(d, k);
    BlockFields(Segments(d)[k]);
    at := NonBlankAre(SegmentLines(d, |d.pages|, k));
  }

  /**
   The page and page end of a segment's block are one more than the first and the last
   unskipped page on which a kept line is read under it, blank lines included.
   */
  lemma BlockSpans(d: Document, k: nat)
    requires d.Valid() && k < |Segments(d)| && BlocksOf(Segments(d)[k]) != []
    ensures var b := BlocksOf(Segments(d)[k])[0];
            && b.page > 0 && FirstRead(d, |d.pages|, k, b.page - 1)
            && b.pageEnd > 0 && LastRead(d, |d.pages|, k, b.pageEnd - 1)
  {
    SegmentsSpan(d, k);
    BlockFields(Segments(d)[k]);
  }
}
