/**
 Numbered section headings found in a document's body
 (internal/adapter/pdf/headings.go). Which lines match the numbering pattern, read as
 sentences, are furniture or carry a title on is given with each line; the scanner
 and its ordering rule are the source's.
 */
module BodyHeadings {
  import opened Text
  import opened SectionKeys

  /** What the numbering pattern finds: the section number, what follows it, and whether that reads as a sentence. */
  datatype Numbered = Numbered(section: string, rest: string, sentence: bool)

  /** A line; row is its rounded top, carries whether it continues a title that the previous line begins. */
  datatype Line = Line(text: string, size: real, row: real, furniture: bool, numbered: Option<Numbered>, carries: bool)

  datatype BodyHeading = BodyHeading(section: string, title: string, page: nat, lines: seq<nat>)

  datatype Point = Point(page: nat, line: nat)

  const MIN_LIST_ITEMS := 3

  // -------------------------------------------------------------------- section numbers

  /** A section number as integers; numbers reads its parts, and what it cannot read sorts first. */
  function SectionKey(section: string, numbers: map<string, int>): seq<int> {
    var parts := Split(section, ".");
    seq(|parts|, i requires 0 <= i < |parts| => if parts[i] in numbers then numbers[parts[i]] else -1)
  }

  /** What the document is read with. */
  datatype Reader = Reader(sizes: seq<real>, numbers: map<string, int>) {
    function Key(section: string): seq<int> {
      SectionKey(section, numbers)
    }

    predicate HeadingSized(ln: Line) {
      ln.size in sizes && !ln.furniture
    }
  }

  // ---------------------------------------------------------------------- titles

  /** A heading's title, the lines it takes and the last line read for it. */
  datatype Title = Title(text: string, at: seq<nat>, last: nat)

  /** Where the wrapped lines from j on end: at a line that continues nothing, or at a numbered one. */
  function WrapEnd(lines: seq<Line>, j: nat): (e: nat)
    requires j <= |lines|
    ensures j <= e <= |lines|
    decreases |lines| - j
  {
    if j < |lines| && lines[j].carries && lines[j].numbered.None? then WrapEnd(lines, j + 1) else j
  }

  function WrapText(lines: seq<Line>, j: nat, e: nat, title: string): string
    requires j <= e <= |lines|
    decreases e - j
  {
    if j == e then title else WrapText(lines, j + 1, e, title + " " + Strip(lines[j].text))
  }

  function Indices(i: nat, e: nat): seq<nat> {
    if e <= i then [] else Indices(i, e - 1) + [e - 1]
  }

  /** The first line from j on that is not blank. */
  function NextText(lines: seq<Line>, j: nat): (k: nat)
    requires j <= |lines|
    ensures j <= k <= |lines|
    decreases |lines| - j
  {
    if j < |lines| && Strip(lines[j].text) == "" then NextText(lines, j + 1) else j
  }

  /** Title, lines and last line read for a numbered line i; rest is what it has besides the number. */
  function TitleAt(lines: seq<Line>, i: nat, rest: string): (t: Title)
    requires i < |lines|
    ensures i <= t.last < |lines|
  {
    if Strip(rest) != "" then
      var e := WrapEnd(lines, i + 1);
      Title(WrapText(lines, i + 1, e, Strip(rest)), Indices(i, e), e - 1)
    else
      var j := NextText(lines, i + 1);
      if j < |lines| && lines[j].size == lines[i].size
      then Title(Strip(lines[j].text), if lines[j].row == lines[i].row then [i, j] else [i], j)
      else Title("", [i], i)
  }

  method WrappedTitle(lines: seq<Line>, i: nat, rest: string) returns (t: Title)
    requires i < |lines| && Strip(rest) != ""
    ensures t == TitleAt(lines, i, rest)
  {
    var title, at: seq<nat>, j := Strip(rest), [i], i + 1;
    ghost var e := WrapEnd(lines, i + 1);
    while j < |lines| && lines[j].carries && lines[j].numbered.None?
      invariant i < j <= |lines| && WrapEnd(lines, j) == e && at == Indices(i, j)
      invariant WrapText(lines, i + 1, e, Strip(rest)) == WrapText(lines, j, e, title)
      decreases |lines| - j
    {
      title := title + " " + Strip(lines[j].text);
      at := at + [j];
      j := j + 1;
    }
    t := Title(title, at, at[|at| - 1]);
  }

  method HeadingTitle(lines: seq<Line>, i: nat, rest: string) returns (t: Title)
    requires i < |lines|
    ensures t == TitleAt(lines, i, rest)
  {
    if Strip(rest) != "" {
      t := WrappedTitle(lines, i, rest);
      return;
    }
    var j := i + 1;
    while j < |lines| && Strip(lines[j].text) == ""
      invariant i < j <= |lines| && NextText(lines, i + 1) == NextText(lines, j)
      decreases |lines| - j
    {
      j := j + 1;
    }
    if !(j < |lines| && lines[j].size == lines[i].size) {
      return Title("", [i], i);
    }
    t := Title(Strip(lines[j].text), if lines[j].row == lines[i].row then [i, j] else [i], j);
  }

  // -------------------------------------------------------------------------- the scan

  /** A numbered line the ordering rule was put to, and the heading it became, if accepted. */
  datatype Candidate = Candidate(page: nat, line: nat, section: string, heading: Option<BodyHeading>)

  /** What has been read: the candidates in order, the unnumbered headings and the pages that are lists. */
  datatype Scan = Scan(candidates: seq<Candidate>, subdivisions: set<Point>, lists: seq<nat>)

  const NOTHING := Scan([], {}, [])

  function Accepted(cs: seq<Candidate>): seq<BodyHeading> {
    if cs == [] then []
    else Accepted(cs[..|cs| - 1]) + if cs[|cs| - 1].heading.Some? then [cs[|cs| - 1].heading.value] else []
  }

  function Rejected(cs: seq<Candidate>): seq<(nat, string)> {
    if cs == [] then []
    else Rejected(cs[..|cs| - 1]) + if cs[|cs| - 1].heading.None? then [(cs[|cs| - 1].page + 1, cs[|cs| - 1].section)] else []
  }

  /** The key of the last heading accepted; nothing sorts before it. */
  function LastKey(r: Reader, cs: seq<Candidate>): seq<int> {
    if cs == [] then []
    else if cs[|cs| - 1].heading.Some? then r.Key(cs[|cs| - 1].section) else LastKey(r, cs[..|cs| - 1])
  }

  /** A page most of whose numbered lines read as sentences is a numbered list. */
  function NumberedCount(r: Reader, lines: seq<Line>, n: nat, sentences: bool): nat
    requires n <= |lines|
  {
    if n == 0 then 0
    else NumberedCount(r, lines, n - 1, sentences)
         + if r.HeadingSized(lines[n - 1]) && lines[n - 1].numbered.Some? && (sentences ==> lines[n - 1].numbered.value.sentence)
           then 1 else 0
  }

  predicate IsList(r: Reader, lines: seq<Line>) {
    var sentences := NumberedCount(r, lines, |lines|, true);
    sentences >= MIN_LIST_ITEMS && 2 * sentences > NumberedCount(r, lines, |lines|, false)
  }

  method NumberedList(r: Reader, lines: seq<Line>) returns (list: bool)
    ensures list == IsList(r, lines)
  {
    var numbered, sentences := 0, 0;
    for i := 0 to |lines|
      invariant numbered == NumberedCount(r, lines, i, false) && sentences == NumberedCount(r, lines, i, true)
    {
      if r.HeadingSized(lines[i]) && lines[i].numbered.Some? {
        numbered := numbered + 1;
        if lines[i].numbered.value.sentence {
          sentences := sentences + 1;
        }
      }
    }
    list := sentences >= MIN_LIST_ITEMS && 2 * sentences > numbered;
  }

  /** The candidate a numbered line makes after others. */
  function CandidateAt(r: Reader, cs: seq<Candidate>, page: nat, lines: seq<Line>, i: nat): Candidate
    requires i < |lines| && lines[i].numbered.Some?
  {
    var m, t := lines[i].numbered.value, TitleAt(lines, i, lines[i].numbered.value.rest);
    Candidate(page, i, m.section,
              if LexLess(LastKey(r, cs), r.Key(m.section)) then Some(BodyHeading(m.section, t.text, page, t.at)) else None)
  }

  /** Reading line i, and the last line read for it. */
  function LineScan(r: Reader, s: Scan, page: nat, list: bool, lines: seq<Line>, i: nat): (t: (Scan, nat))
    requires i < |lines|
    ensures i <= t.1 < |lines|
  {
    if !r.HeadingSized(lines[i]) then (s, i)
    else if lines[i].numbered.None? then (s.(subdivisions := s.subdivisions + {Point(page, i)}), i)
    else if list then (s, i)
    else
      var c := CandidateAt(r, s.candidates, page, lines, i);
      (s.(candidates := s.candidates + [c]), if c.heading.Some? then TitleAt(lines, i, lines[i].numbered.value.rest).last else i)
  }

  function PageScan(r: Reader, s: Scan, page: nat, list: bool, lines: seq<Line>, i: nat): Scan
    decreases |lines| - i
  {
    if i >= |lines| then s
    else var (t, last) := LineScan(r, s, page, list, lines, i);
         PageScan(r, t, page, list, lines, last + 1)
  }

  lemma PageStep(r: Reader, s: Scan, page: nat, list: bool, lines: seq<Line>, i: nat)
    requires i < |lines|
    ensures var t := LineScan(r, s, page, list, lines, i);
            PageScan(r, s, page, list, lines, i) == PageScan(r, t.0, page, list, lines, t.1 + 1)
  {
  }

  function WithList(s: Scan, page: nat, list: bool): Scan {
    if list then s.(lists := s.lists + [page + 1]) else s
  }

  /** The first n pages; those up to the printed contents are passed over. */
  function DocumentScan(r: Reader, pages: seq<seq<Line>>, tocPageMax: int, n: nat): Scan
    requires n <= |pages|
  {
    if n == 0 then NOTHING
    else
      var s, page := DocumentScan(r, pages, tocPageMax, n - 1), n - 1;
      if page <= tocPageMax then s
      else PageScan(r, WithList(s, page, IsList(r, pages[page])), page, IsList(r, pages[page]), pages[page], 0)
  }

  lemma {:induction false} IndicesAre(i: nat, e: nat)
    requires i <= e
    ensures |Indices(i, e)| == e - i && forall k :: 0 <= k < e - i ==> Indices(i, e)[k] == i + k
    decreases e
  {
    if i < e {
      IndicesAre(i, e - 1);
    }
  }

  ghost predicate Rising(at: seq<nat>) {
    at != [] && forall k, l :: 0 <= k < l < |at| ==> at[k] < at[l]
  }

  /** A heading takes its own line first, then later ones, none past the last read for it. */
  ghost predicate Spans(at: seq<nat>, i: nat, last: nat) {
    && i <= last && Rising(at) && at[0] == i
    && forall k :: 0 <= k < |at| ==> i <= at[k] <= last
  }

  lemma TitleSpans(lines: seq<Line>, i: nat, rest: string)
    requires i < |lines|
    ensures var t := TitleAt(lines, i, rest); Spans(t.at, i, t.last) && t.last < |lines|
  {
    IndicesAre(i, WrapEnd(lines, i + 1));
  }

  // ------------------------------------------------------------------- the ordering rule

  /** One key is no later than another. */
  predicate NoLater(a: seq<int>, b: seq<int>) {
    a == b || LexLess(a, b)
  }

  lemma NoLaterThan(a: seq<int>, b: seq<int>, c: seq<int>)
    requires NoLater(a, b) && LexLess(b, c)
    ensures LexLess(a, c)
  {
    if a != b {
      LexTransitive(a, b, c);
    }
  }

  /** A candidate's number is later than every one before it. */
  ghost predicate Leads(r: Reader, cs: seq<Candidate>, k: nat)
    requires k < |cs|
  {
    forall j :: 0 <= j < k ==> LexLess(r.Key(cs[j].section), r.Key(cs[k].section))
  }

  function KeysOf(r: Reader, cs: seq<Candidate>): seq<seq<int>> {
    seq(|cs|, j requires 0 <= j < |cs| => r.Key(cs[j].section))
  }

  /** No key is later than last, which is one of them unless there are none. */
  ghost predicate Latest(keys: seq<seq<int>>, last: seq<int>) {
    (forall j :: 0 <= j < |keys| ==> NoLater(keys[j], last)) && (last == [] || last in keys)
  }

  lemma LatestWith(keys: seq<seq<int>>, last: seq<int>, key: seq<int>)
    requires Latest(keys, last)
    ensures Latest(keys + [key], if LexLess(last, key) then key else last)
  {
    if LexLess(last, key) {
      forall j | 0 <= j < |keys|
        ensures NoLater(keys[j], key)
      {
        NoLaterThan(keys[j], last, key);
      }
    } else {
      LexTotal(last, key);
    }
  }

  /** Being later than the latest is being later than each. */
  lemma LaterThanLatest(keys: seq<seq<int>>, last: seq<int>, key: seq<int>)
    requires Latest(keys, last) && key != []
    ensures LexLess(last, key) <==> forall j :: 0 <= j < |keys| ==> LexLess(keys[j], key)
  {
    if LexLess(last, key) {
      forall j | 0 <= j < |keys|
        ensures LexLess(keys[j], key)
      {
        NoLaterThan(keys[j], last, key);
      }
    } else {
      var j :| 0 <= j < |keys| && keys[j] == last;
    }
  }

  /** The last key accepted is the latest put forward. */
  ghost predicate LastIsLatest(r: Reader, cs: seq<Candidate>) {
    Latest(KeysOf(r, cs), LastKey(r, cs))
  }

  lemma LatestStep(r: Reader, all: seq<Candidate>, n: nat)
    requires |all| == n + 1 && LastIsLatest(r, all[..n])
    requires all[n].heading.Some? <==> LexLess(LastKey(r, all[..n]), r.Key(all[n].section))
    ensures LastIsLatest(r, all)
  {
    assert KeysOf(r, all) == KeysOf(r, all[..n]) + [r.Key(all[n].section)];
    LatestWith(KeysOf(r, all[..n]), LastKey(r, all[..n]), r.Key(all[n].section));
  }

  /** Being later than the last accepted is being later than every candidate before. */
  lemma LaterThanLast(r: Reader, cs: seq<Candidate>, k: nat)
    requires k < |cs| && LastIsLatest(r, cs[..k])
    ensures LexLess(LastKey(r, cs[..k]), r.Key(cs[k].section)) <==> Leads(r, cs, k)
  {
    var keys, key := KeysOf(r, cs[..k]), r.Key(cs[k].section);
    assert key != [];
    LaterThanLatest(keys, LastKey(r, cs[..k]), key);
    assert forall j :: 0 <= j < k ==> keys[j] == r.Key(cs[j].section);
  }

  // ------------------------------------------------------------- the headings accepted

  /** All of a heading's lines are before line i of the page. */
  ghost predicate EndsBefore(h: BodyHeading, page: nat, i: nat) {
    h.page < page || (h.page == page && forall k :: 0 <= k < |h.lines| ==> h.lines[k] < i)
  }

  /** One heading precedes another: by its number, and line for line. */
  ghost predicate Precedes(r: Reader, a: BodyHeading, b: BodyHeading) {
    LexLess(r.Key(a.section), r.Key(b.section)) && b.lines != [] && EndsBefore(a, b.page, b.lines[0])
  }

  /** Headings in order, each up to the last key and before the line reached. */
  ghost predicate HeadingsGood(r: Reader, hs: seq<BodyHeading>, last: seq<int>, page: nat, i: nat) {
    && (forall a, b :: 0 <= a < b < |hs| ==> Precedes(r, hs[a], hs[b]))
    && (forall a :: 0 <= a < |hs| ==> NoLater(r.Key(hs[a].section), last) && EndsBefore(hs[a], page, i))
    && (forall a :: 0 <= a < |hs| ==> Rising(hs[a].lines))
  }

  lemma HeadingsStep(r: Reader, hs: seq<BodyHeading>, last: seq<int>, h: BodyHeading, i: nat, read: nat)
    requires HeadingsGood(r, hs, last, h.page, i) && LexLess(last, r.Key(h.section)) && Spans(h.lines, i, read)
    ensures HeadingsGood(r, hs + [h], r.Key(h.section), h.page, read + 1)
  {
    var all := hs + [h];
    forall a | 0 <= a < |hs|
      ensures Precedes(r, hs[a], h)
    {
      NoLaterThan(r.Key(hs[a].section), last, r.Key(h.section));
    }
  }

  // --------------------------------------------------------------- what the scan builds

  /** A candidate, and any heading it became, stands before line i of the page. */
  ghost predicate Stands(c: Candidate, page: nat, i: nat) {
    && (c.page < page || (c.page == page && c.line < i))
    && (c.heading.Some? ==>
          var h := c.heading.value;
          h.page == c.page && h.section == c.section && Rising(h.lines) && h.lines[0] == c.line && EndsBefore(h, page, i))
  }

  /** Each candidate was judged by those before it, and stands after them. */
  ghost predicate Chain(r: Reader, cs: seq<Candidate>, page: nat, i: nat) {
    cs == [] ||
    (var init, c := cs[..|cs| - 1], cs[|cs| - 1];
     && Stands(c, page, i) && Chain(r, init, c.page, c.line)
     && (c.heading.Some? <==> LexLess(LastKey(r, init), r.Key(c.section))))
  }

  lemma {:induction false} ChainLatest(r: Reader, cs: seq<Candidate>, page: nat, i: nat)
    requires Chain(r, cs, page, i)
    ensures LastIsLatest(r, cs)
    decreases |cs|
  {
    if cs != [] {
      var n := |cs| - 1;
      ChainLatest(r, cs[..n], cs[n].page, cs[n].line);
      LatestStep(r, cs, n);
    }
  }

  lemma {:induction false} ChainRecords(r: Reader, cs: seq<Candidate>, page: nat, i: nat, k: nat)
    requires Chain(r, cs, page, i) && k < |cs|
    ensures cs[k].heading.Some? <==> Leads(r, cs, k)
    decreases |cs|
  {
    var init, c := cs[..|cs| - 1], cs[|cs| - 1];
    if k == |init| {
      ChainLatest(r, init, c.page, c.line);
      LaterThanLast(r, cs, k);
    } else {
      ChainRecords(r, init, c.page, c.line, k);
      LeadsSame(r, cs, init, k);
    }
  }

  lemma LeadsSame(r: Reader, cs: seq<Candidate>, init: seq<Candidate>, k: nat)
    requires k < |init| <= |cs| && init == cs[..|init|]
    ensures Leads(r, cs, k) <==> Leads(r, init, k)
  {
    assert forall j :: 0 <= j < |init| ==> init[j] == cs[j];
  }

  lemma {:induction false} ChainHeadings(r: Reader, cs: seq<Candidate>, page: nat, i: nat)
    requires Chain(r, cs, page, i)
    ensures HeadingsGood(r, Accepted(cs), LastKey(r, cs), page, i)
    decreases |cs|
  {
    if cs != [] {
      var init, c := cs[..|cs| - 1], cs[|cs| - 1];
      ChainHeadings(r, init, c.page, c.line);
      assert init + [c] == cs;
      if c.heading.Some? {
        var h := c.heading.value;
        HeadingsStep(r, Accepted(init), LastKey(r, init), h, c.line, h.lines[|h.lines| - 1]);
      }
    }
  }

  lemma ChainLater(r: Reader, cs: seq<Candidate>, page: nat, i: nat, page2: nat, i2: nat)
    requires Chain(r, cs, page, i) && (page < page2 || (page == page2 && i <= i2))
    ensures Chain(r, cs, page2, i2)
  {
  }

  lemma CandidateStands(r: Reader, cs: seq<Candidate>, page: nat, lines: seq<Line>, i: nat) returns (c: Candidate, read: nat)
    requires i < |lines| && lines[i].numbered.Some?
    ensures c == CandidateAt(r, cs, page, lines, i)
    ensures read == if c.heading.Some? then TitleAt(lines, i, lines[i].numbered.value.rest).last else i
    ensures Stands(c, page, read + 1) && c.page == page && c.line == i
    ensures c.heading.Some? <==> LexLess(LastKey(r, cs), r.Key(c.section))
  {
    TitleSpans(lines, i, lines[i].numbered.value.rest);
    c := CandidateAt(r, cs, page, lines, i);
    read := if c.heading.Some? then TitleAt(lines, i, lines[i].numbered.value.rest).last else i;
  }

  lemma ChainCandidate(r: Reader, s: Scan, page: nat, lines: seq<Line>, i: nat) returns (t: (Scan, nat))
    requires i < |lines| && r.HeadingSized(lines[i]) && lines[i].numbered.Some? && Chain(r, s.candidates, page, i)
    ensures t == LineScan(r, s, page, false, lines, i) && Chain(r, t.0.candidates, page, t.1 + 1)
  {
    var c, read := CandidateStands(r, s.candidates, page, lines, i);
    t := (s.(candidates := s.candidates + [c]), read);
  }

  lemma LinePasses(r: Reader, s: Scan, page: nat, list: bool, lines: seq<Line>, i: nat)
    requires i < |lines| && !(r.HeadingSized(lines[i]) && lines[i].numbered.Some? && !list)
    ensures LineScan(r, s, page, list, lines, i).0.candidates == s.candidates && LineScan(r, s, page, list, lines, i).1 == i
  {
  }

  lemma ChainPasses(r: Reader, s: Scan, t: Scan, page: nat, i: nat)
    requires Chain(r, s.candidates, page, i) && t.candidates == s.candidates
    ensures Chain(r, t.candidates, page, i + 1)
  {
    ChainLater(r, s.candidates, page, i, page, i + 1);
  }

  lemma ChainLine(r: Reader, s: Scan, page: nat, list: bool, lines: seq<Line>, i: nat) returns (t: (Scan, nat))
    requires i < |lines| && Chain(r, s.candidates, page, i)
    ensures t == LineScan(r, s, page, list, lines, i) && Chain(r, t.0.candidates, page, t.1 + 1)
  {
    if r.HeadingSized(lines[i]) && lines[i].numbered.Some? && !list {
      t := ChainCandidate(r, s, page, lines, i);
    } else {
      t := LineScan(r, s, page, list, lines, i);
      LinePasses(r, s, page, list, lines, i);
      ChainPasses(r, s, t.0, page, i);
    }
  }

  lemma {:induction false} ChainPage(r: Reader, s: Scan, page: nat, list: bool, lines: seq<Line>, i: nat)
    requires Chain(r, s.candidates, page, i)
    ensures Chain(r, PageScan(r, s, page, list, lines, i).candidates, page + 1, 0)
    decreases |lines| - i
  {
    if i >= |lines| {
      ChainLater(r, s.candidates, page, i, page + 1, 0);
    } else {
      var t := ChainLine(r, s, page, list, lines, i);
      ChainPage(r, t.0, page, list, lines, t.1 + 1);
    }
  }

  lemma {:induction false} ChainDocument(r: Reader, pages: seq<seq<Line>>, tocPageMax: int, n: nat)
    requires n <= |pages|
    ensures Chain(r, DocumentScan(r, pages, tocPageMax, n).candidates, n, 0)
  {
    if n > 0 {
      var s, page := DocumentScan(r, pages, tocPageMax, n - 1), n - 1;
      ChainDocument(r, pages, tocPageMax, page);
      if page <= tocPageMax {
        ChainLater(r, s.candidates, page, 0, n, 0);
      } else {
        var list := IsList(r, pages[page]);
        ChainPage(r, WithList(s, page, list), page, list, pages[page], 0);
      }
    }
  }

  /** The headings a document's body is found to have. */
  function HeadingsOf(r: Reader, pages: seq<seq<Line>>, tocPageMax: int): seq<BodyHeading> {
    Accepted(DocumentScan(r, pages, tocPageMax, |pages|).candidates)
  }

  /** Section numbers strictly increase through the whole document, and no two headings share a line. */
  lemma HeadingsAdvance(r: Reader, pages: seq<seq<Line>>, tocPageMax: int, a: nat, b: nat)
    requires a < b < |HeadingsOf(r, pages, tocPageMax)|
    ensures var hs := HeadingsOf(r, pages, tocPageMax);
            && LexLess(r.Key(hs[a].section), r.Key(hs[b].section)) && hs[a].section != hs[b].section
            && (hs[a].page == hs[b].page ==> forall k, l :: 0 <= k < |hs[a].lines| && 0 <= l < |hs[b].lines| ==> hs[a].lines[k] < hs[b].lines[l])
  {
    var cs := DocumentScan(r, pages, tocPageMax, |pages|).candidates;
    ChainDocument(r, pages, tocPageMax, |pages|);
    ChainHeadings(r, cs, |pages|, 0);
    HeadingsApart(r, Accepted(cs), LastKey(r, cs), |pages|, a, b);
  }

  lemma HeadingsApart(r: Reader, hs: seq<BodyHeading>, last: seq<int>, page: nat, a: nat, b: nat)
    requires HeadingsGood(r, hs, last, page, 0) && a < b < |hs|
    ensures LexLess(r.Key(hs[a].section), r.Key(hs[b].section)) && hs[a].section != hs[b].section
    ensures hs[a].page == hs[b].page ==>
              forall k, l :: 0 <= k < |hs[a].lines| && 0 <= l < |hs[b].lines| ==> hs[a].lines[k] < hs[b].lines[l]
  {
    assert Precedes(r, hs[a], hs[b]) && Rising(hs[b].lines);
    LexTotal(r.Key(hs[a].section), r.Key(hs[b].section));
  }

  /** The rule read off the whole run: accepted are exactly the candidates later than every one before. */
  lemma AcceptedAreRecords(r: Reader, pages: seq<seq<Line>>, tocPageMax: int, k: nat)
    requires k < |DocumentScan(r, pages, tocPageMax, |pages|).candidates|
    ensures var cs := DocumentScan(r, pages, tocPageMax, |pages|).candidates; cs[k].heading.Some? <==> Leads(r, cs, k)
  {
    ChainDocument(r, pages, tocPageMax, |pages|);
    ChainRecords(r, DocumentScan(r, pages, tocPageMax, |pages|).candidates, |pages|, 0, k);
  }

  // ------------------------------------------------------------- what is made of them

  function CountSection(hs: seq<BodyHeading>, n: nat, section: string): nat
    requires n <= |hs|
  {
    if n == 0 then 0 else CountSection(hs, n - 1, section) + if hs[n - 1].section == section then 1 else 0
  }

  /** The sections detected more than once, counted as the cross-check does. */
  method DetectedMoreThanOnce(hs: seq<BodyHeading>) returns (duplicates: set<string>)
    ensures forall section :: section in duplicates <==> CountSection(hs, |hs|, section) > 1
  {
    var detected: map<string, nat> := map[];
    for i := 0 to |hs|
      invariant forall section :: (section in detected <==> CountSection(hs, i, section) > 0)
                                  && (section in detected ==> detected[section] == CountSection(hs, i, section))
    {
      var section := hs[i].section;
      detected := detected[section := (if section in detected then detected[section] else 0) + 1];
    }
    duplicates := set section | section in detected && detected[section] > 1;
  }

  ghost predicate DistinctSections(hs: seq<BodyHeading>) {
    forall a, b :: 0 <= a < b < |hs| ==> hs[a].section != hs[b].section
  }

  lemma {:induction false} DistinctCountsOnce(hs: seq<BodyHeading>, n: nat, section: string)
    requires n <= |hs| && DistinctSections(hs)
    ensures CountSection(hs, n, section) <= 1
    ensures CountSection(hs, n, section) == 1 ==> exists a :: 0 <= a < n && hs[a].section == section
  {
    if n > 0 {
      DistinctCountsOnce(hs, n - 1, section);
    }
  }

  /** No section of a scanned document is detected more than once. */
  lemma NoneDetectedTwice(r: Reader, pages: seq<seq<Line>>, tocPageMax: int, section: string)
    ensures var hs := HeadingsOf(r, pages, tocPageMax); CountSection(hs, |hs|, section) <= 1
  {
    var hs := HeadingsOf(r, pages, tocPageMax);
    forall a, b | 0 <= a < b < |hs|
      ensures hs[a].section != hs[b].section
    {
      HeadingsAdvance(r, pages, tocPageMax, a, b);
    }
    DistinctCountsOnce(hs, |hs|, section);
  }

  /** The section of the last of the first n headings that takes the line. */
  function PlacedAt(hs: seq<BodyHeading>, n: nat, page: nat, line: nat): Option<string>
    requires n <= |hs|
  {
    if n == 0 then None
    else if hs[n - 1].page == page && line in hs[n - 1].lines then Some(hs[n - 1].section)
    else PlacedAt(hs, n - 1, page, line)
  }

  function Lookup(placed: map<Point, string>, p: Point): Option<string> {
    if p in placed then Some(placed[p]) else None
  }

  /** Maps every line a heading takes to its section. */
  method PlaceBodyHeadings(hs: seq<BodyHeading>) returns (placed: map<Point, string>)
    ensures forall p :: Lookup(placed, p) == PlacedAt(hs, |hs|, p.page, p.line)
  {
    placed := map[];
    for n := 0 to |hs|
      invariant forall p :: Lookup(placed, p) == PlacedAt(hs, n, p.page, p.line)
    {
      placed := PlaceOne(hs[n], placed);
    }
  }

  method PlaceOne(h: BodyHeading, before: map<Point, string>) returns (placed: map<Point, string>)
    ensures forall p :: Lookup(placed, p) == if p.page == h.page && p.line in h.lines then Some(h.section) else Lookup(before, p)
  {
    placed := before;
    for k := 0 to |h.lines|
      invariant forall p :: Lookup(placed, p) ==
                            if p.page == h.page && p.line in h.lines[..k] then Some(h.section) else Lookup(before, p)
    {
      placed := placed[Point(h.page, h.lines[k]) := h.section];
    }
  }

  lemma {:induction false} PlacedFrom(hs: seq<BodyHeading>, n: nat, page: nat, line: nat, a: nat)
    requires a < n <= |hs| && hs[a].page == page && line in hs[a].lines
    requires forall b :: a < b < n ==> !(hs[b].page == page && line in hs[b].lines)
    ensures PlacedAt(hs, n, page, line) == Some(hs[a].section)
  {
    if a < n - 1 {
      PlacedFrom(hs, n - 1, page, line, a);
    }
  }

  /** Placing the headings of a scanned document overwrites nothing: every line keeps its own heading's section. */
  lemma PlacingKeepsAll(r: Reader, pages: seq<seq<Line>>, tocPageMax: int, a: nat, k: nat)
    requires a < |HeadingsOf(r, pages, tocPageMax)| && k < |HeadingsOf(r, pages, tocPageMax)[a].lines|
    ensures var hs := HeadingsOf(r, pages, tocPageMax);
            PlacedAt(hs, |hs|, hs[a].page, hs[a].lines[k]) == Some(hs[a].section)
  {
    var hs := HeadingsOf(r, pages, tocPageMax);
    forall b | a < b < |hs|
      ensures !(hs[b].page == hs[a].page && hs[a].lines[k] in hs[b].lines)
    {
      HeadingsAdvance(r, pages, tocPageMax, a, b);
    }
    PlacedFrom(hs, |hs|, hs[a].page, hs[a].lines[k], a);
  }

  // ------------------------------------------------------------------------- the scanner

  /** The scan as an object: View is the scan so far, last the key a candidate has to exceed. */
  class HeadingScanner {
    const r: Reader
    var headings: seq<BodyHeading>
    var rejected: seq<(nat, string)>
    var subdivisions: set<Point>
    var lists: seq<nat>
    var last: seq<int>
    var onList: bool
    ghost var candidates: seq<Candidate>

    ghost function View(): Scan
      reads this
    {
      Scan(candidates, subdivisions, lists)
    }

    ghost predicate Valid()
      reads this
    {
      headings == Accepted(candidates) && rejected == Rejected(candidates) && last == LastKey(r, candidates)
    }

    constructor (reader: Reader)
      ensures r == reader && Valid() && View() == NOTHING
    {
      r := reader;
      headings, rejected, subdivisions, lists, last, onList, candidates := [], [], {}, [], [], false, [];
    }

    /** Puts a numbered line to the ordering rule. */
    method Consider(page: nat, lines: seq<Line>, i: nat) returns (read: nat)
      requires Valid() && i < |lines| && lines[i].numbered.Some?
      modifies this
      ensures Valid() && subdivisions == old(subdivisions) && lists == old(lists) && onList == old(onList)
      ensures var c := CandidateAt(r, old(candidates), page, lines, i);
              && candidates == old(candidates) + [c]
              && read == if c.heading.Some? then TitleAt(lines, i, lines[i].numbered.value.rest).last else i
    {
      ghost var c := CandidateAt(r, candidates, page, lines, i);
      assert (candidates + [c])[..|candidates|] == candidates;
      var m := lines[i].numbered.value;
      var key := r.Key(m.section);
      read := i;
      if !LexLess(last, key) {
        rejected := rejected + [(page + 1, m.section)];
      } else {
        var t := HeadingTitle(lines, i, m.rest);
        last := key;
        headings := headings + [BodyHeading(m.section, t.text, page, t.at)];
        read := t.last;
      }
      candidates := candidates + [c];
    }

    /** Considers line i as a heading and gives the last line it read. */
    method LineAt(page: nat, lines: seq<Line>, i: nat) returns (read: nat)
      requires Valid() && i < |lines|
      modifies this
      ensures Valid() && onList == old(onList) && (View(), read) == LineScan(r, old(View()), page, onList, lines, i)
    {
      read := i;
      if !r.HeadingSized(lines[i]) {
        return;
      }
      if lines[i].numbered.None? {
        subdivisions := subdivisions + {Point(page, i)};
        return;
      }
      if onList {
        return;
      }
      read := Consider(page, lines, i);
    }

    method PageAt(page: nat, lines: seq<Line>)
      requires Valid()
      modifies this
      ensures Valid() && View() == PageScan(r, WithList(old(View()), page, IsList(r, lines)), page, IsList(r, lines), lines, 0)
    {
      onList := NumberedList(r, lines);
      if onList {
        lists := lists + [page + 1];
      }
      ghost var whole := PageScan(r, View(), page, onList, lines, 0);
      var i := 0;
      while i < |lines|
        invariant Valid() && onList == IsList(r, lines) && whole == PageScan(r, View(), page, onList, lines, i)
        decreases |lines| - i
      {
        PageStep(r, View(), page, onList, lines, i);
        var read := LineAt(page, lines, i);
        i := read + 1;
      }
    }
  }

  /** The scanner over all pages past tocPageMax gives what DocumentScan does. */
  method FindBodyHeadings(r: Reader, pages: seq<seq<Line>>, tocPageMax: int)
    returns (headings: seq<BodyHeading>, rejected: seq<(nat, string)>, subdivisions: set<Point>, lists: seq<nat>)
    ensures var s := DocumentScan(r, pages, tocPageMax, |pages|);
            && headings == Accepted(s.candidates) && rejected == Rejected(s.candidates)
            && subdivisions == s.subdivisions && lists == s.lists
  {
    var scanner := new HeadingScanner(r);
    for page := 0 to |pages|
      invariant scanner.Valid() && scanner.r == r && scanner.View() == DocumentScan(r, pages, tocPageMax, page)
    {
      if page > tocPageMax {
        scanner.PageAt(page, pages[page]);
      }
    }
    headings, rejected, subdivisions, lists := scanner.headings, scanner.rejected, scanner.subdivisions, scanner.lists;
  }
}
