/**
 Emitting blocks against placed headings (emitOutlineBlocks of
 internal/adapter/pdf/emit.go). The source reads pages line by line, entering
 headings as it reaches them; here that is a sink object driven by the same loops,
 proved to compute DocumentRun. OutlineRule gives the declarative rule it refines.
 */
module OutlineEmit {
  import opened Text
  import opened Sorting

  /** A line in reading order; furniture is whether the document's boilerplate matches its text. */
  datatype Line = Line(text: string, y0: real, furniture: bool)

  /** An outline entry placed on a page; line -1 is before the first line. */
  datatype Placement = Placement(section: string, rest: seq<int>, page: int, line: int, matched: bool)

  datatype Block = Block(section: Option<string>, text: string, page: nat, pageEnd: nat, images: nat)

  datatype Buffer = Buffer(lines: seq<string>, page: nat, pageEnd: nat, images: nat)

  const EMPTY := Buffer([], 0, 0, 0)

  // ------------------------------------------------------------- what a sink gathers

  /** A buffer and the section it was gathered under. */
  datatype Segment = Segment(section: Option<string>, buf: Buffer)

  /** The segments closed so far, and the one open. */
  datatype Sink = Sink(closed: seq<Segment>, open: Segment)

  const START := Sink([], Segment(None, EMPTY))

  function NonBlankLines(lines: seq<string>): seq<string> {
    if lines == [] then []
    else NonBlankLines(lines[..|lines| - 1]) + if Strip(lines[|lines| - 1]) != "" then [lines[|lines| - 1]] else []
  }

  function BufferText(b: Buffer): string {
    Strip(Join(NonBlankLines(b.lines), "\n"))
  }

  /** The block a segment makes, when it holds text. */
  function BlocksOf(g: Segment): seq<Block> {
    if BufferText(g.buf) != "" && g.buf.page != 0
    then [Block(g.section, BufferText(g.buf), g.buf.page, g.buf.pageEnd, g.buf.images)] else []
  }

  function Render(segments: seq<Segment>): seq<Block> {
    if segments == [] then [] else Render(segments[..|segments| - 1]) + BlocksOf(segments[|segments| - 1])
  }

  function Entered(s: Sink, section: string): Sink {
    Sink(s.closed + [s.open], Segment(Some(section), EMPTY))
  }

  function Added(b: Buffer, text: string, pno: nat): Buffer {
    Buffer(b.lines + [text], if b.page == 0 then pno + 1 else b.page, pno + 1, b.images)
  }

  function WithLine(s: Sink, text: string, pno: nat): Sink {
    s.(open := s.open.(buf := Added(s.open.buf, text, pno)))
  }

  function WithFigures(s: Sink, n: nat): Sink {
    s.(open := s.open.(buf := s.open.buf.(images := s.open.buf.images + n)))
  }

  /** Entering the placed headings from the m-th up to the n-th. */
  function EnterRun(s: Sink, placed: seq<Placement>, m: nat, n: nat): Sink
    requires n <= |placed|
  {
    if n <= m then s else Entered(EnterRun(s, placed, m, n - 1), placed[n - 1].section)
  }

  // -------------------------------------------------------------------- one page

  /** One page: its lines, its placed headings in line order and its figures' tops. */
  datatype Sheet = Sheet(pno: nat, lines: seq<Line>, placed: seq<Placement>, tops: seq<real>)

  /** The first of the placed headings, from the n-th on, placed after line i. */
  function EnteredAt(placed: seq<Placement>, i: int, n: nat): (m: nat)
    requires n <= |placed|
    ensures n <= m <= |placed|
    decreases |placed| - n
  {
    if n < |placed| && placed[n].line <= i then EnteredAt(placed, i, n + 1) else n
  }

  /** How many of the placed headings are entered before line i is. */
  function Reached(placed: seq<Placement>, i: nat): (m: nat)
    ensures m <= |placed|
  {
    if i == 0 then 0 else EnteredAt(placed, i - 1, Reached(placed, i - 1))
  }

  /** Line i is the heading's own: the line it was matched against, or one carrying its title on. */
  predicate TitleOf(p: Placement, i: nat) {
    p.matched && ((if p.line < 0 then 0 else p.line) == i || (p.line <= i && i in p.rest))
  }

  predicate TitleLine(placed: seq<Placement>, i: nat) {
    exists k :: 0 <= k < |placed| && TitleOf(placed[k], i)
  }

  predicate KeptLine(sh: Sheet, i: nat)
    requires i < |sh.lines|
  {
    !TitleLine(sh.placed, i) && !sh.lines[i].furniture
  }

  /** The first figure from next on that is below y. */
  function Below(tops: seq<real>, next: nat, y: real): (m: nat)
    requires next <= |tops|
    ensures next <= m <= |tops|
    decreases |tops| - next
  {
    if next < |tops| && tops[next] <= y then Below(tops, next + 1, y) else next
  }

  /** How many figures are counted once the first i lines are read. */
  function CountedBy(sh: Sheet, i: nat): (m: nat)
    requires i <= |sh.lines|
    ensures m <= |sh.tops|
  {
    if i == 0 then 0
    else if KeptLine(sh, i - 1) then Below(sh.tops, CountedBy(sh, i - 1), sh.lines[i - 1].y0)
    else CountedBy(sh, i - 1)
  }

  /** Adding line i, unless it is a title or furniture, after the figures above it. */
  function AddedLine(s: Sink, sh: Sheet, i: nat): Sink
    requires i < |sh.lines|
  {
    if KeptLine(sh, i)
    then WithLine(WithFigures(s, CountedBy(sh, i + 1) - CountedBy(sh, i)), sh.lines[i].text, sh.pno)
    else s
  }

  /** Reading line i: the headings placed at or before it, then the line. */
  function LineRun(s: Sink, sh: Sheet, i: nat): Sink
    requires i < |sh.lines|
  {
    AddedLine(EnterRun(s, sh.placed, Reached(sh.placed, i), Reached(sh.placed, i + 1)), sh, i)
  }

  function LinesRun(s: Sink, sh: Sheet, i: nat): Sink
    requires i <= |sh.lines|
  {
    if i == 0 then s else LineRun(LinesRun(s, sh, i - 1), sh, i - 1)
  }

  /** A page: its lines, then the headings placed below the last, then the figures left. */
  function PageRun(s: Sink, sh: Sheet): Sink {
    var n := |sh.lines|;
    WithFigures(EnterRun(LinesRun(s, sh, n), sh.placed, Reached(sh.placed, n), |sh.placed|), |sh.tops| - CountedBy(sh, n))
  }

  // ---------------------------------------------------------------- the document

  datatype Document = Document(pages: seq<seq<Line>>, placements: seq<Placement>, figureTops: seq<seq<real>>, skip: set<int>) {
    ghost predicate Valid() {
      |figureTops| == |pages|
    }
  }

  function OnPage(placements: seq<Placement>, pno: int): seq<Placement> {
    if placements == [] then []
    else OnPage(placements[..|placements| - 1], pno)
         + if placements[|placements| - 1].page == pno then [placements[|placements| - 1]] else []
  }

  function ByLine(): Placement -> real {
    (p: Placement) => p.line as real
  }

  /** The headings placed on a page, in line order, ties as they came. */
  function PlacedOn(d: Document, pno: int): seq<Placement> {
    SortBy(OnPage(d.placements, pno), ByLine())
  }

  function SheetOf(d: Document, pno: nat): Sheet
    requires d.Valid() && pno < |d.pages|
  {
    Sheet(pno, d.pages[pno], PlacedOn(d, pno), d.figureTops[pno])
  }

  /** A skipped page only enters its headings; any other is read. */
  function OnePageRun(s: Sink, d: Document, pno: nat): Sink
    requires d.Valid() && pno < |d.pages|
  {
    if pno in d.skip then EnterRun(s, PlacedOn(d, pno), 0, |PlacedOn(d, pno)|) else PageRun(s, SheetOf(d, pno))
  }

  function DocumentRun(d: Document, n: nat): Sink
    requires d.Valid() && n <= |d.pages|
  {
    if n == 0 then START else OnePageRun(DocumentRun(d, n - 1), d, n - 1)
  }

  /** Every segment of the document, in order. */
  function Segments(d: Document): seq<Segment>
    requires d.Valid()
  {
    DocumentRun(d, |d.pages|).closed + [DocumentRun(d, |d.pages|).open]
  }

  // -------------------------------------------------------------- the streaming form

  function Elements(s: seq<int>): set<int> {
    set t | t in s
  }

  predicate AnyMatched(placed: seq<Placement>, m: nat, n: nat)
    requires n <= |placed|
  {
    m < n && (AnyMatched(placed, m, n - 1) || placed[n - 1].matched)
  }

  /** The lines carrying on the titles of the matched among the first n headings. */
  function RestLines(placed: seq<Placement>, n: nat): set<int>
    requires n <= |placed|
  {
    if n == 0 then {} else RestLines(placed, n - 1) + if placed[n - 1].matched then Elements(placed[n - 1].rest) else {}
  }

  /** The emitter's fields; the ghost closed lists the segments its blocks are rendered from. */
  class BlockSink {
    var blocks: seq<Block>
    var section: string
    var inSection: bool
    var buf: Buffer
    ghost var closed: seq<Segment>

    ghost function View(): Sink
      reads this
    {
      Sink(closed, Segment(if inSection then Some(section) else None, buf))
    }

    ghost predicate Valid()
      reads this
    {
      blocks == Render(closed)
    }

    constructor ()
      ensures Valid() && View() == START
    {
      blocks, section, inSection, buf, closed := [], "", false, EMPTY, [];
    }

    method AddLine(text: string, pno: nat)
      requires Valid()
      modifies this
      ensures Valid() && View() == WithLine(old(View()), text, pno)
    {
      buf := buf.(lines := buf.lines + [text]);
      if buf.page == 0 {
        buf := buf.(page := pno + 1);
      }
      buf := buf.(pageEnd := pno + 1);
    }

    method AddFigures(n: nat)
      requires Valid()
      modifies this
      ensures Valid() && View() == WithFigures(old(View()), n)
    {
      buf := buf.(images := buf.images + n);
    }

    method Text() returns (text: string)
      ensures text == BufferText(buf)
    {
      var lines, kept: seq<string> := buf.lines, [];
      for i := 0 to |lines|
        invariant kept == NonBlankLines(lines[..i])
      {
        assert lines[..i + 1][..i] == lines[..i];
        if Strip(lines[i]) != "" {
          kept := kept + [lines[i]];
        }
      }
      assert lines[..|lines|] == lines;
      text := Strip(Join(kept, "\n"));
    }

    /** The open segment joins closed, its block joins blocks, and the buffer is EMPTY. */
    method Flush()
      requires Valid()
      modifies this
      ensures Valid() && closed == old(closed) + [old(View()).open]
      ensures section == old(section) && inSection == old(inSection) && buf == EMPTY
    {
      var text := Text();
      ghost var open := View().open;
      if text != "" && buf.page != 0 {
        blocks := blocks + [Block(if inSection then Some(section) else None, text, buf.page, buf.pageEnd, buf.images)];
      }
      RenderSnoc(closed, open);
      closed := closed + [open];
      buf := EMPTY;
    }

    method EnterSection(s: string)
      requires Valid()
      modifies this
      ensures Valid() && View() == Entered(old(View()), s)
    {
      Flush();
      section, inSection := s, true;
    }

    /** Enters the headings still pending, from the m-th on. */
    method EnterAll(placed: seq<Placement>, m: nat)
      requires Valid() && m <= |placed|
      modifies this
      ensures Valid() && View() == EnterRun(old(View()), placed, m, |placed|)
    {
      for i := m to |placed|
        invariant Valid() && View() == EnterRun(old(View()), placed, m, i)
      {
        EnterSection(placed[i].section);
      }
    }

    method CountImagesAbove(tops: seq<real>, from: nat, y: real) returns (next: nat)
      requires Valid() && from <= |tops|
      modifies this
      ensures Valid() && next == Below(tops, from, y) && View() == WithFigures(old(View()), next - from)
    {
      next := from;
      while next < |tops| && tops[next] <= y
        invariant from <= next <= |tops| && Below(tops, from, y) == Below(tops, next, y)
        invariant Valid() && View() == WithFigures(old(View()), next - from)
      {
        buf := buf.(images := buf.images + 1);
        next := next + 1;
      }
    }

    /**
     The pending headings from the m-th up to the n-th are entered, those whose line is
     no later than i, and the rest lines of the matched ones are added to taken.
     */
    method EnterAt(placed: seq<Placement>, m: nat, i: nat, taken: set<int>) returns (n: nat, consumed: bool, more: set<int>)
      requires Valid() && m <= |placed| && taken == RestLines(placed, m)
      modifies this
      ensures n == EnteredAt(placed, i, m) && more == RestLines(placed, n)
      ensures consumed == AnyMatched(placed, m, n)
      ensures Valid() && View() == EnterRun(old(View()), placed, m, n)
    {
      n, consumed, more := m, false, taken;
      while n < |placed| && placed[n].line <= i
        invariant m <= n <= |placed| && EnteredAt(placed, i, m) == EnteredAt(placed, i, n)
        invariant consumed == AnyMatched(placed, m, n) && more == RestLines(placed, n)
        invariant Valid() && View() == EnterRun(old(View()), placed, m, n)
      {
        EnterSection(placed[n].section);
        consumed, more := Took(placed[n], consumed, more);
        n := n + 1;
      }
    }
  }

  /** What one heading entered adds: whether any was matched, and the lines its title goes on over. */
  method Took(p: Placement, before: bool, taken: set<int>) returns (consumed: bool, more: set<int>)
    ensures consumed == (before || p.matched) && more == taken + if p.matched then Elements(p.rest) else {}
  {
    consumed, more := before, taken;
    if p.matched {
      consumed := true;
      more := more + Elements(p.rest);
    }
  }

  lemma RenderSnoc(segments: seq<Segment>, g: Segment)
    ensures Render(segments + [g]) == Render(segments) + BlocksOf(g)
  {
    assert (segments + [g])[..|segments|] == segments;
  }

  // ------------------------------------------------ titles, as the loop sees them

  ghost predicate InLineOrder(placed: seq<Placement>) {
    forall i, j :: 0 <= i < j < |placed| ==> placed[i].line <= placed[j].line
  }

  lemma {:induction false} EnteredMeans(placed: seq<Placement>, i: int, n: nat)
    requires n <= |placed|
    ensures forall k :: n <= k < EnteredAt(placed, i, n) ==> placed[k].line <= i
    ensures EnteredAt(placed, i, n) < |placed| ==> placed[EnteredAt(placed, i, n)].line > i
    decreases |placed| - n
  {
    if n < |placed| && placed[n].line <= i {
      EnteredMeans(placed, i, n + 1);
    }
  }

  /** The headings entered before line i are exactly those placed before it. */
  lemma {:induction false} ReachedMeans(placed: seq<Placement>, i: nat)
    requires InLineOrder(placed)
    ensures forall k :: 0 <= k < Reached(placed, i) ==> placed[k].line < i
    ensures i > 0 ==> forall k :: Reached(placed, i) <= k < |placed| ==> placed[k].line >= i
  {
    if i > 0 {
      ReachedMeans(placed, i - 1);
      EnteredMeans(placed, i - 1, Reached(placed, i - 1));
    }
  }

  lemma {:induction false} AnyMatchedMeans(placed: seq<Placement>, m: nat, n: nat)
    requires n <= |placed|
    ensures AnyMatched(placed, m, n) <==> exists k :: m <= k < n && placed[k].matched
  {
    if m < n {
      AnyMatchedMeans(placed, m, n - 1);
    }
  }

  lemma {:induction false} RestLinesMeans(placed: seq<Placement>, n: nat, t: int)
    requires n <= |placed|
    ensures t in RestLines(placed, n) <==> exists k :: 0 <= k < n && placed[k].matched && t in placed[k].rest
  {
    if n > 0 {
      RestLinesMeans(placed, n - 1, t);
    }
  }

  /** A line is a title's own exactly when a heading entered at it was matched, or one entered took it. */
  lemma TitleLineMeans(placed: seq<Placement>, i: nat)
    requires InLineOrder(placed)
    ensures TitleLine(placed, i) <==>
              || AnyMatched(placed, Reached(placed, i), Reached(placed, i + 1))
              || i in RestLines(placed, Reached(placed, i + 1))
  {
    var m, n := Reached(placed, i), Reached(placed, i + 1);
    ReachedMeans(placed, i);
    ReachedMeans(placed, i + 1);
    AnyMatchedMeans(placed, m, n);
    RestLinesMeans(placed, n, i);
    if k :| m <= k < n && placed[k].matched {
      assert TitleOf(placed[k], i);
    }
    if k :| 0 <= k < n && placed[k].matched && i in placed[k].rest {
      assert TitleOf(placed[k], i);
    }
    if k :| 0 <= k < |placed| && TitleOf(placed[k], i) {
      assert k < n;
    }
  }

  // -------------------------------------------------------------- reading the pages

  /** Reads line i: enters what is placed at or before it, then adds it unless it is a title or furniture. */
  method EmitLine(sink: BlockSink, sh: Sheet, i: nat, pending: nat, taken: set<int>, from: nat)
    returns (left: nat, more: set<int>, next: nat)
    requires InLineOrder(sh.placed) && i < |sh.lines| && sink.Valid()
    requires pending == Reached(sh.placed, i) && taken == RestLines(sh.placed, pending) && from == CountedBy(sh, i)
    modifies sink
    ensures left == Reached(sh.placed, i + 1) && more == RestLines(sh.placed, left) && next == CountedBy(sh, i + 1)
    ensures sink.Valid() && sink.View() == LineRun(old(sink.View()), sh, i)
  {
    TitleLineMeans(sh.placed, i);
    var consumed;
    left, consumed, more := sink.EnterAt(sh.placed, pending, i, taken);
    next := from;
    if !(consumed || i in more || sh.lines[i].furniture) {
      next := sink.CountImagesAbove(sh.tops, next, sh.lines[i].y0);
      sink.AddLine(sh.lines[i].text, sh.pno);
    }
  }

  /** Line by line, the sink goes through LinesRun. */
  method EmitOutlinePage(sink: BlockSink, sh: Sheet) returns (pending: nat, counted: nat)
    requires InLineOrder(sh.placed) && sink.Valid()
    modifies sink
    ensures pending == Reached(sh.placed, |sh.lines|) && counted == CountedBy(sh, |sh.lines|)
    ensures sink.Valid() && sink.View() == LinesRun(old(sink.View()), sh, |sh.lines|)
  {
    counted, pending := 0, 0;
    var taken: set<int> := {};
    for i := 0 to |sh.lines|
      invariant pending == Reached(sh.placed, i) && taken == RestLines(sh.placed, pending) && counted == CountedBy(sh, i)
      invariant sink.Valid() && sink.View() == LinesRun(old(sink.View()), sh, i)
    {
      pending, taken, counted := EmitLine(sink, sh, i, pending, taken, counted);
    }
  }

  lemma SortedByLine(d: Document, pno: int)
    ensures InLineOrder(PlacedOn(d, pno))
  {
    SortSorts(OnPage(d.placements, pno), ByLine());
    var placed := PlacedOn(d, pno);
    forall i, j | 0 <= i < j < |placed|
      ensures placed[i].line <= placed[j].line
    {
      assert ByLine()(placed[i]) <= ByLine()(placed[j]);
    }
  }

  method EmitPage(sink: BlockSink, sh: Sheet)
    requires InLineOrder(sh.placed) && sink.Valid()
    modifies sink
    ensures sink.Valid() && sink.View() == PageRun(old(sink.View()), sh)
  {
    var pending, counted := EmitOutlinePage(sink, sh);
    sink.EnterAll(sh.placed, pending);
    // What no line counted goes to the segment that is open now.
    sink.AddFigures(if |sh.tops| > counted then |sh.tops| - counted else 0);
  }

  /** Page by page, the sink goes through DocumentRun, and its blocks render every segment. */
  method EmitOutlineBlocks(d: Document) returns (blocks: seq<Block>)
    requires d.Valid()
    ensures blocks == Render(Segments(d))
  {
    var sink := new BlockSink();
    for pno := 0 to |d.pages|
      invariant sink.Valid() && sink.View() == DocumentRun(d, pno)
    {
      var placed := SortBy(OnPage(d.placements, pno), ByLine());
      if pno in d.skip {
        sink.EnterAll(placed, 0);
      } else {
        SortedByLine(d, pno);
        EmitPage(sink, Sheet(pno, d.pages[pno], placed, d.figureTops[pno]));
      }
    }
    sink.Flush();
    blocks := sink.blocks;
  }
}
