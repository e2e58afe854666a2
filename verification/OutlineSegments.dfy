/**
 The segments of a document one by one: which lines and figures the k-th holds, and so
 which figures reach no block. A segment is numbered by how many headings have been
 entered before it.
 */
module OutlineSegments {
  import opened Sequences
  import opened Text
  import opened OutlineEmit
  import opened OutlineRule
  import opened OutlineFigures

  /** The buffer of a sink's k-th segment, the open one last. */
  function At(s: Sink, k: nat): Buffer {
    if k < |s.closed| then s.closed[k].buf else if k == |s.closed| then s.open.buf else EMPTY
  }

  /** How many headings are placed on the first n pages. */
  function HeadingsBy(d: Document, n: nat): nat {
    if n == 0 then 0 else HeadingsBy(d, n - 1) + |PlacedOn(d, n - 1)|
  }

  /** The segment open as line i of a page is read, after base headings on earlier pages. */
  function LineSegment(base: nat, sh: Sheet, i: nat): nat {
    base + Reached(sh.placed, i + 1)
  }

  /** The segment a figure is credited to: that of the first line to meet it, else the one open as the page ends. */
  function FigureSegment(base: nat, sh: Sheet, f: nat): nat
    requires f < |sh.tops|
  {
    var j := FirstMeet(sh, f, 0);
    if j < |sh.lines| then LineSegment(base, sh, j) else base + |sh.placed|
  }

  // ----------------------------------------------------------------- what segment k gains

  function LinesAt(base: nat, sh: Sheet, i: nat, k: nat): seq<string>
    requires i <= |sh.lines|
  {
    if i == 0 then []
    else LinesAt(base, sh, i - 1, k) + if KeptLine(sh, i - 1) && LineSegment(base, sh, i - 1) == k then [sh.lines[i - 1].text] else []
  }

  function ImagesAt(base: nat, sh: Sheet, i: nat, k: nat): nat
    requires i <= |sh.lines|
  {
    if i == 0 then 0
    else ImagesAt(base, sh, i - 1, k)
         + if KeptLine(sh, i - 1) && LineSegment(base, sh, i - 1) == k then CountedBy(sh, i) - CountedBy(sh, i - 1) else 0
  }

  function PageImages(base: nat, sh: Sheet, k: nat): nat {
    ImagesAt(base, sh, |sh.lines|, k) + if base + |sh.placed| == k then |sh.tops| - CountedBy(sh, |sh.lines|) else 0
  }

  /** What a page gives segment k; a skipped one gives nothing. */
  function PageLinesAt(d: Document, pno: nat, k: nat): seq<string>
    requires d.Valid() && pno < |d.pages|
  {
    if pno in d.skip then [] else LinesAt(HeadingsBy(d, pno), SheetOf(d, pno), |d.pages[pno]|, k)
  }

  function PageImagesAt(d: Document, pno: nat, k: nat): nat
    requires d.Valid() && pno < |d.pages|
  {
    if pno in d.skip then 0 else PageImages(HeadingsBy(d, pno), SheetOf(d, pno), k)
  }

  /** The kept lines of segment k on the first n pages, in order. */
  function SegmentLines(d: Document, n: nat, k: nat): seq<string>
    requires d.Valid() && n <= |d.pages|
  {
    if n == 0 then [] else SegmentLines(d, n - 1, k) + PageLinesAt(d, n - 1, k)
  }

  function SegmentImages(d: Document, n: nat, k: nat): nat
    requires d.Valid() && n <= |d.pages|
  {
    if n == 0 then 0 else SegmentImages(d, n - 1, k) + PageImagesAt(d, n - 1, k)
  }

  /** From s to t segment k gains lines and images, and so many headings are entered. */
  ghost predicate Grows(s: Sink, t: Sink, k: nat, lines: seq<string>, images: nat, headings: nat) {
    && |t.closed| == |s.closed| + headings
    && At(t, k).lines == At(s, k).lines + lines && At(t, k).images == At(s, k).images + images
  }

  lemma GrowsTwice(s: Sink, t: Sink, u: Sink, k: nat, l1: seq<string>, i1: nat, h1: nat, l2: seq<string>, i2: nat, h2: nat)
    requires Grows(s, t, k, l1, i1, h1) && Grows(t, u, k, l2, i2, h2)
    ensures Grows(s, u, k, l1 + l2, i1 + i2, h1 + h2)
  {
    assert At(s, k).lines + (l1 + l2) == At(s, k).lines + l1 + l2;
  }

  lemma EnteredGrows(s: Sink, section: string, k: nat)
    ensures Grows(s, Entered(s, section), k, [], 0, 1)
  {
    assert At(Entered(s, section), k) == At(s, k);
  }

  lemma {:induction false} EnteringGrows(s: Sink, placed: seq<Placement>, m: nat, n: nat, k: nat)
    requires m <= n <= |placed|
    ensures Grows(s, EnterRun(s, placed, m, n), k, [], 0, n - m)
    decreases n
  {
    if m < n {
      EnteringGrows(s, placed, m, n - 1, k);
      EnteredGrows(EnterRun(s, placed, m, n - 1), placed[n - 1].section, k);
      GrowsTwice(s, EnterRun(s, placed, m, n - 1), EnterRun(s, placed, m, n), k, [], 0, n - 1 - m, [], 0, 1);
    }
  }

  lemma FiguresGrow(s: Sink, n: nat, k: nat)
    ensures Grows(s, WithFigures(s, n), k, [], if |s.closed| == k then n else 0, 0)
  {
  }

  lemma LineGrows(s: Sink, text: string, pno: nat, k: nat)
    ensures Grows(s, WithLine(s, text, pno), k, if |s.closed| == k then [text] else [], 0, 0)
  {
  }

  /** What line i gives segment k, once the headings at or before it are entered. */
  function LineAt(base: nat, sh: Sheet, i: nat, k: nat): seq<string>
    requires i < |sh.lines|
  {
    if KeptLine(sh, i) && LineSegment(base, sh, i) == k then [sh.lines[i].text] else []
  }

  function ImageAt(base: nat, sh: Sheet, i: nat, k: nat): nat
    requires i < |sh.lines|
  {
    if KeptLine(sh, i) && LineSegment(base, sh, i) == k then CountedBy(sh, i + 1) - CountedBy(sh, i) else 0
  }

  lemma AddedGrows(t: Sink, sh: Sheet, i: nat, k: nat, base: nat)
    requires i < |sh.lines| && |t.closed| == LineSegment(base, sh, i)
    ensures Grows(t, AddedLine(t, sh, i), k, LineAt(base, sh, i, k), ImageAt(base, sh, i, k), 0)
  {
    if KeptLine(sh, i) {
      var n := CountedBy(sh, i + 1) - CountedBy(sh, i);
      FiguresGrow(t, n, k);
      LineGrows(WithFigures(t, n), sh.lines[i].text, sh.pno, k);
      GrowsTwice(t, WithFigures(t, n), AddedLine(t, sh, i), k, [], ImageAt(base, sh, i, k), 0, LineAt(base, sh, i, k), 0, 0);
      assert [] + LineAt(base, sh, i, k) == LineAt(base, sh, i, k);
    }
  }

  lemma LineRunGrows(s: Sink, sh: Sheet, i: nat, k: nat, base: nat)
    requires i < |sh.lines| && |s.closed| == base + Reached(sh.placed, i)
    ensures Grows(s, LineRun(s, sh, i), k, LineAt(base, sh, i, k), ImageAt(base, sh, i, k), Reached(sh.placed, i + 1) - Reached(sh.placed, i))
  {
    var m, n := Reached(sh.placed, i), Reached(sh.placed, i + 1);
    EnteringGrows(s, sh.placed, m, n, k);
    var t := EnterRun(s, sh.placed, m, n);
    AddedGrows(t, sh, i, k, base);
    GrowsTwice(s, t, LineRun(s, sh, i), k, [], 0, n - m, LineAt(base, sh, i, k), ImageAt(base, sh, i, k), 0);
    assert [] + LineAt(base, sh, i, k) == LineAt(base, sh, i, k);
  }

  lemma {:induction false} LinesRunGrows(s: Sink, sh: Sheet, i: nat, k: nat)
    requires i <= |sh.lines|
    ensures Grows(s, LinesRun(s, sh, i), k, LinesAt(|s.closed|, sh, i, k), ImagesAt(|s.closed|, sh, i, k), Reached(sh.placed, i))
  {
    if i > 0 {
      var base, j := |s.closed|, i - 1;
      LinesRunGrows(s, sh, j, k);
      LineRunGrows(LinesRun(s, sh, j), sh, j, k, base);
      GrowsTwice(s, LinesRun(s, sh, j), LinesRun(s, sh, i), k,
                 LinesAt(base, sh, j, k), ImagesAt(base, sh, j, k), Reached(sh.placed, j),
                 LineAt(base, sh, j, k), ImageAt(base, sh, j, k), Reached(sh.placed, i) - Reached(sh.placed, j));
    }
  }

  lemma PageRunGrows(s: Sink, sh: Sheet, k: nat)
    ensures Grows(s, PageRun(s, sh), k, LinesAt(|s.closed|, sh, |sh.lines|, k), PageImages(|s.closed|, sh, k), |sh.placed|)
  {
    var base, n := |s.closed|, |sh.lines|;
    var m, h := Reached(sh.placed, n), |sh.placed|;
    var lines, images, left := LinesAt(base, sh, n, k), ImagesAt(base, sh, n, k), |sh.tops| - CountedBy(sh, n);
    LinesRunGrows(s, sh, n, k);
    var t := LinesRun(s, sh, n);
    var u := EnterRun(t, sh.placed, m, h);
    EnteringGrows(t, sh.placed, m, h, k);
    GrowsTwice(s, t, u, k, lines, images, m, [], 0, h - m);
    FiguresGrow(u, left, k);
    assert lines + [] == lines;
    GrowsTwice(s, u, PageRun(s, sh), k, lines, images, h, [], if base + h == k then left else 0, 0);
  }

  lemma OnePageGrows(s: Sink, d: Document, pno: nat, k: nat)
    requires d.Valid() && pno < |d.pages| && |s.closed| == HeadingsBy(d, pno)
    ensures Grows(s, OnePageRun(s, d, pno), k, PageLinesAt(d, pno, k), PageImagesAt(d, pno, k), |PlacedOn(d, pno)|)
  {
    if pno in d.skip {
      EnteringGrows(s, PlacedOn(d, pno), 0, |PlacedOn(d, pno)|, k);
    } else {
      PageRunGrows(s, SheetOf(d, pno), k);
    }
  }

  lemma StartGrows(d: Document, k: nat)
    requires d.Valid()
    ensures Grows(START, DocumentRun(d, 0), k, SegmentLines(d, 0, k), SegmentImages(d, 0, k), HeadingsBy(d, 0))
  {
  }

  lemma OnePageMore(s: Sink, d: Document, pno: nat, k: nat, lines: seq<string>, images: nat)
    requires d.Valid() && pno < |d.pages| && Grows(START, s, k, lines, images, HeadingsBy(d, pno))
    ensures Grows(START, OnePageRun(s, d, pno), k, lines + PageLinesAt(d, pno, k), images + PageImagesAt(d, pno, k),
                  HeadingsBy(d, pno) + |PlacedOn(d, pno)|)
  {
    OnePageGrows(s, d, pno, k);
    GrowsTwice(START, s, OnePageRun(s, d, pno), k, lines, images, HeadingsBy(d, pno),
               PageLinesAt(d, pno, k), PageImagesAt(d, pno, k), |PlacedOn(d, pno)|);
  }

  lemma DocumentStepGrows(d: Document, n: nat, k: nat)
    requires d.Valid() && 0 < n <= |d.pages|
    requires Grows(START, DocumentRun(d, n - 1), k, SegmentLines(d, n - 1, k), SegmentImages(d, n - 1, k), HeadingsBy(d, n - 1))
    ensures Grows(START, DocumentRun(d, n), k, SegmentLines(d, n, k), SegmentImages(d, n, k), HeadingsBy(d, n))
  {
    OnePageMore(DocumentRun(d, n - 1), d, n - 1, k, SegmentLines(d, n - 1, k), SegmentImages(d, n - 1, k));
  }

  lemma {:induction false} DocumentGrows(d: Document, n: nat, k: nat)
    requires d.Valid() && n <= |d.pages|
    ensures Grows(START, DocumentRun(d, n), k, SegmentLines(d, n, k), SegmentImages(d, n, k), HeadingsBy(d, n))
  {
    if n == 0 {
      StartGrows(d, k);
    } else {
      DocumentGrows(d, n - 1, k);
      DocumentStepGrows(d, n, k);
    }
  }

  /** There is a segment more than headings, and the k-th holds the kept lines and the images of number k. */
  lemma SegmentsHold(d: Document, k: nat)
    requires d.Valid()
    ensures |Segments(d)| == HeadingsBy(d, |d.pages|) + 1
    ensures k < |Segments(d)| ==> Segments(d)[k].buf.lines == SegmentLines(d, |d.pages|, k)
    ensures k < |Segments(d)| ==> Segments(d)[k].buf.images == SegmentImages(d, |d.pages|, k)
  {
    var s := DocumentRun(d, |d.pages|);
    DocumentGrows(d, |d.pages|, k);
    assert At(START, k) == EMPTY;
    assert k < |Segments(d)| ==> Segments(d)[k].buf == At(s, k);
    assert [] + SegmentLines(d, |d.pages|, k) == SegmentLines(d, |d.pages|, k);
  }

  // --------------------------------------------------------------- figures, one by one

  /** How many of the first m figures of a page are credited to segment k. */
  function CountAt(base: nat, sh: Sheet, m: nat, k: nat): nat
    requires m <= |sh.tops|
  {
    if m == 0 then 0 else CountAt(base, sh, m - 1, k) + if FigureSegment(base, sh, m - 1) == k then 1 else 0
  }

  /** How many figures on the unskipped of the first n pages are credited to segment k. */
  function FiguresAt(d: Document, n: nat, k: nat): nat
    requires d.Valid() && n <= |d.pages|
  {
    if n == 0 then 0
    else FiguresAt(d, n - 1, k)
         + if n - 1 in d.skip then 0 else CountAt(HeadingsBy(d, n - 1), SheetOf(d, n - 1), |d.figureTops[n - 1]|, k)
  }

  lemma {:induction false} CountSame(base: nat, sh: Sheet, a: nat, b: nat, k: nat, segment: nat)
    requires a <= b <= |sh.tops| && forall f :: a <= f < b ==> FigureSegment(base, sh, f) == segment
    ensures CountAt(base, sh, b, k) == CountAt(base, sh, a, k) + if segment == k then b - a else 0
    decreases b - a
  {
    if a < b {
      CountSame(base, sh, a, b - 1, k, segment);
    }
  }

  lemma LineCountsAt(base: nat, sh: Sheet, i: nat, k: nat)
    requires TopDown(sh.tops) && 0 < i <= |sh.lines|
    ensures CountAt(base, sh, CountedBy(sh, i), k) == CountAt(base, sh, CountedBy(sh, i - 1), k) + ImageAt(base, sh, i - 1, k)
  {
    var segment := LineSegment(base, sh, i - 1);
    forall f | CountedBy(sh, i - 1) <= f < CountedBy(sh, i)
      ensures FigureSegment(base, sh, f) == segment
    {
      CountedHere(sh, i - 1, f);
    }
    assert CountedBy(sh, i - 1) <= CountedBy(sh, i);
    CountSame(base, sh, CountedBy(sh, i - 1), CountedBy(sh, i), k, segment);
  }

  lemma ImagesStep(base: nat, sh: Sheet, i: nat, k: nat)
    requires 0 < i <= |sh.lines|
    ensures ImagesAt(base, sh, i, k) == ImagesAt(base, sh, i - 1, k) + ImageAt(base, sh, i - 1, k)
  {
  }

  lemma {:induction false} LinesCountAt(base: nat, sh: Sheet, i: nat, k: nat)
    requires TopDown(sh.tops) && i <= |sh.lines|
    ensures ImagesAt(base, sh, i, k) == CountAt(base, sh, CountedBy(sh, i), k)
  {
    if i > 0 {
      LinesCountAt(base, sh, i - 1, k);
      ImagesStep(base, sh, i, k);
      LineCountsAt(base, sh, i, k);
    }
  }

  lemma PageCountsAt(base: nat, sh: Sheet, k: nat)
    requires TopDown(sh.tops)
    ensures PageImages(base, sh, k) == CountAt(base, sh, |sh.tops|, k)
  {
    var m := CountedBy(sh, |sh.lines|);
    LinesCountAt(base, sh, |sh.lines|, k);
    forall f | m <= f < |sh.tops|
      ensures FigureSegment(base, sh, f) == base + |sh.placed|
    {
      LeftHere(sh, f);
    }
    CountSame(base, sh, m, |sh.tops|, k, base + |sh.placed|);
  }

  lemma PageStepAt(d: Document, n: nat, k: nat)
    requires d.Valid() && AllTopDown(d) && 0 < n <= |d.pages|
    ensures SegmentImages(d, n, k) - SegmentImages(d, n - 1, k) == FiguresAt(d, n, k) - FiguresAt(d, n - 1, k)
  {
    PageCountsAt(HeadingsBy(d, n - 1), SheetOf(d, n - 1), k);
  }

  lemma {:induction false} PagesCountAt(d: Document, n: nat, k: nat)
    requires d.Valid() && AllTopDown(d) && n <= |d.pages|
    ensures SegmentImages(d, n, k) == FiguresAt(d, n, k)
  {
    if n > 0 {
      PagesCountAt(d, n - 1, k);
      PageStepAt(d, n, k);
    }
  }

  /** Every segment's images are the figures credited to it, one by one. */
  lemma SegmentCredits(d: Document, k: nat)
    requires d.Valid() && AllTopDown(d) && k < |Segments(d)|
    ensures Segments(d)[k].buf.images == FiguresAt(d, |d.pages|, k)
  {
    SegmentsHold(d, k);
    PagesCountAt(d, |d.pages|, k);
  }

  // ------------------------------------------------------------------ what reaches a block

  /** Segment k has a kept line that is not blank. */
  predicate Shown(d: Document, k: nat)
    requires d.Valid()
  {
    exists i :: 0 <= i < |SegmentLines(d, |d.pages|, k)| && Strip(SegmentLines(d, |d.pages|, k)[i]) != ""
  }

  lemma {:induction false} AllBlank(lines: seq<string>)
    ensures SolidAll(lines) == "" <==> forall i :: 0 <= i < |lines| ==> Strip(lines[i]) == ""
  {
    if lines != [] {
      AllBlank(lines[1..]);
      StripKeepsSolid(lines[0]);
      assert forall i :: 1 <= i < |lines| ==> lines[i] == lines[1..][i - 1];
      if forall i :: 0 <= i < |lines| ==> Strip(lines[i]) == "" {
        assert forall i :: 0 <= i < |lines[1..]| ==> lines[1..][i] == lines[i + 1];
      }
    }
  }

  /** A segment makes a block exactly when it is shown, and the block has its images. */
  lemma ShownMakesBlock(d: Document, k: nat)
    requires d.Valid() && k < |Segments(d)|
    ensures Shown(d, k) <==> BlocksOf(Segments(d)[k]) != []
    ensures Shown(d, k) ==> |BlocksOf(Segments(d)[k])| == 1 && BlocksOf(Segments(d)[k])[0].images == Segments(d)[k].buf.images
  {
    var g := Segments(d)[k];
    SegmentsHold(d, k);
    BufferKeepsSolid(g.buf);
    AllBlank(g.buf.lines);
    DocumentPaged(d, |d.pages|);
    assert Paged(g.buf);
  }

  /** The images of blocks. */
  function BlockImages(blocks: seq<Block>): nat {
    if blocks == [] then 0 else BlockImages(blocks[..|blocks| - 1]) + blocks[|blocks| - 1].images
  }

  function Sum(counts: seq<nat>, n: nat): nat
    requires n <= |counts|
  {
    if n == 0 then 0 else Sum(counts, n - 1) + counts[n - 1]
  }

  /** For each segment, how many figures are credited to it if it is shown. */
  function ShownCounts(d: Document): seq<nat>
    requires d.Valid()
  {
    seq(|Segments(d)|, k requires 0 <= k < |Segments(d)| => if Shown(d, k) then FiguresAt(d, |d.pages|, k) else 0)
  }

  /** The blocks of the first n parts, one after the other. */
  function Flat(parts: seq<seq<Block>>, n: nat): seq<Block>
    requires n <= |parts|
  {
    if n == 0 then [] else Flat(parts, n - 1) + parts[n - 1]
  }

  lemma {:induction false} BlockImagesConcat(a: seq<Block>, b: seq<Block>)
    ensures BlockImages(a + b) == BlockImages(a) + BlockImages(b)
    decreases |b|
  {
    if b == [] {
      Nothing(a);
    } else {
      var init, last := b[..|b| - 1], b[|b| - 1];
      InitLast(b);
      Assoc(a, init, [last]);
      BlockImagesConcat(a, init);
      Parts(a + init, [last]);
      assert (a + init + [last])[|a + init|] == last;
    }
  }

  lemma {:induction false} FlatImages(parts: seq<seq<Block>>, counts: seq<nat>, n: nat)
    requires n <= |parts| == |counts| && forall k :: 0 <= k < |parts| ==> counts[k] == BlockImages(parts[k])
    ensures BlockImages(Flat(parts, n)) == Sum(counts, n)
  {
    if n > 0 {
      FlatImages(parts, counts, n - 1);
      BlockImagesConcat(Flat(parts, n - 1), parts[n - 1]);
    }
  }

  lemma {:induction false} RenderIsFlat(segments: seq<Segment>, parts: seq<seq<Block>>, n: nat)
    requires n <= |segments| == |parts| && forall k :: 0 <= k < |segments| ==> parts[k] == BlocksOf(segments[k])
    ensures Render(segments[..n]) == Flat(parts, n)
  {
    if n > 0 {
      RenderIsFlat(segments, parts, n - 1);
      TakeOne(segments, n - 1);
      RenderSnoc(segments[..n - 1], segments[n - 1]);
    }
  }

  lemma ImagesOfOne(block: Block)
    ensures BlockImages([block]) == block.images && BlockImages([]) == 0
  {
    assert [block][..0] == [];
  }

  /** A segment's block has the figures credited to it, and a segment without one has none to show. */
  lemma SegmentShows(d: Document, k: nat)
    requires d.Valid() && AllTopDown(d) && k < |Segments(d)|
    ensures BlockImages(BlocksOf(Segments(d)[k])) == if Shown(d, k) then FiguresAt(d, |d.pages|, k) else 0
  {
    var blocks := BlocksOf(Segments(d)[k]);
    ShownMakesBlock(d, k);
    SegmentCredits(d, k);
    if Shown(d, k) {
      ImagesOfOne(blocks[0]);
      assert blocks == [blocks[0]];
    }
  }

  /**
   The images of a document's blocks are the figures credited to a segment with a kept
   line that is not blank. A figure credited to any other reaches no block.
   */
  lemma BlocksCountShownFigures(d: Document)
    requires d.Valid() && AllTopDown(d)
    ensures BlockImages(Render(Segments(d))) == Sum(ShownCounts(d), |Segments(d)|)
  {
    var segments := Segments(d);
    var parts := seq(|segments|, k requires 0 <= k < |segments| => BlocksOf(segments[k]));
    forall k | 0 <= k < |segments|
      ensures ShownCounts(d)[k] == BlockImages(parts[k])
    {
      SegmentShows(d, k);
    }
    RenderIsFlat(segments, parts, |segments|);
    FlatImages(parts, ShownCounts(d), |segments|);
    Whole(segments);
  }
}
