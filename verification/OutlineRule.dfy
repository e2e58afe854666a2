/**
 The declarative rule that emission against placed headings refines: which lines a
 document's blocks hold, in what order and under which section, and where its
 figures are credited. DocumentRun of OutlineEmit is proved to follow it.
 */
module OutlineRule {
  import opened Text
  import opened Sorting
  import opened OutlineEmit

  // ------------------------------------------------------------- the section of a position

  /** p is placed at or before the line; no line is before the page's first. */
  predicate AtOrBefore(p: Placement, page: int, line: Option<int>) {
    0 <= p.page && (p.page < page || (p.page == page && line.Some? && p.line <= line.value))
  }

  /** The j-th placement is no later than the k-th: by page, then line, then as they came. */
  predicate NoLater(ps: seq<Placement>, j: nat, k: nat)
    requires j < |ps| && k < |ps|
  {
    || ps[j].page < ps[k].page
    || (ps[j].page == ps[k].page && ps[j].line < ps[k].line)
    || (ps[j].page == ps[k].page && ps[j].line == ps[k].line && j <= k)
  }

  /** The k-th placement is the last of those at or before the line. */
  ghost predicate LastPlaced(ps: seq<Placement>, page: int, line: Option<int>, k: int) {
    && 0 <= k < |ps| && AtOrBefore(ps[k], page, line)
    && forall j :: 0 <= j < |ps| && AtOrBefore(ps[j], page, line) ==> NoLater(ps, j, k)
  }

  /** The section of the last placement at or before the line, or none. */
  ghost predicate Governs(ps: seq<Placement>, page: int, line: Option<int>, section: Option<string>) {
    match section
    case None => forall j :: 0 <= j < |ps| ==> !AtOrBefore(ps[j], page, line)
    case Some(s) => exists k :: LastPlaced(ps, page, line, k) && ps[k].section == s
  }

  /** At most one section governs a line. */
  lemma GovernsIsUnique(ps: seq<Placement>, page: int, line: Option<int>, a: Option<string>, b: Option<string>)
    requires Governs(ps, page, line, a) && Governs(ps, page, line, b)
    ensures a == b
  {
    if a.Some? && b.Some? {
      var j :| LastPlaced(ps, page, line, j) && ps[j].section == a.value;
      var k :| LastPlaced(ps, page, line, k) && ps[k].section == b.value;
      assert NoLater(ps, j, k) && NoLater(ps, k, j);
    }
  }

  function SectionIn(before: Option<string>, placed: seq<Placement>, n: nat): Option<string>
    requires n <= |placed|
  {
    if n == 0 then before else Some(placed[n - 1].section)
  }

  function SectionAfter(d: Document, n: nat): Option<string> {
    if n == 0 then None else SectionIn(SectionAfter(d, n - 1), PlacedOn(d, n - 1), |PlacedOn(d, n - 1)|)
  }

  function SectionAt(d: Document, page: nat, line: nat): Option<string> {
    SectionIn(SectionAfter(d, page), PlacedOn(d, page), Reached(PlacedOn(d, page), line + 1))
  }

  // -------------------------------------------------------- what the sorted page says of it

  lemma {:induction false} NoTies<T>(s: seq<T>, key: T -> real, k: real)
    requires forall i :: 0 <= i < |s| ==> key(s[i]) > k
    ensures WithKey(s, key, k) == []
  {
    if s != [] {
      NoTies(s[1..], key, k);
    }
  }

  lemma {:induction false} LastOfTies<T>(s: seq<T>, key: T -> real, m: nat)
    requires Ordered(s, key) && 0 < m <= |s| && (m < |s| ==> key(s[m]) > key(s[m - 1]))
    ensures var t := WithKey(s, key, key(s[m - 1])); t != [] && t[|t| - 1] == s[m - 1]
  {
    if m == 1 {
      NoTies(s[1..], key, key(s[0]));
    } else {
      LastOfTies(s[1..], key, m - 1);
    }
  }

  lemma {:induction false} WithKeyConcat<T>(a: seq<T>, b: seq<T>, key: T -> real, k: real)
    ensures WithKey(a + b, key, k) == WithKey(a, key, k) + WithKey(b, key, k)
  {
    if a == [] {
      assert a + b == b;
    } else {
      var head := if key(a[0]) == k then [a[0]] else [];
      assert (a + b)[1..] == a[1..] + b && (a + b)[0] == a[0];
      WithKeyConcat(a[1..], b, key, k);
      assert head + (WithKey(a[1..], key, k) + WithKey(b, key, k)) == head + WithKey(a[1..], key, k) + WithKey(b, key, k);
    }
  }

  /** The last of a page's placements on one line, as they came. */
  lemma {:induction false} LastOnLine(ps: seq<Placement>, page: int, line: int) returns (k: nat)
    requires WithKey(OnPage(ps, page), ByLine(), line as real) != []
    ensures k < |ps| && ps[k].page == page && ps[k].line == line
    ensures var t := WithKey(OnPage(ps, page), ByLine(), line as real); ps[k] == t[|t| - 1]
    ensures forall j :: k < j < |ps| ==> !(ps[j].page == page && ps[j].line == line)
  {
    var n := |ps| - 1;
    var p, earlier := ps[n], OnPage(ps[..n], page);
    WithKeyConcat(earlier, if p.page == page then [p] else [], ByLine(), line as real);
    if p.page == page && p.line == line {
      k := n;
    } else {
      k := LastOnLine(ps[..n], page, line);
    }
  }

  lemma {:induction false} OnPageHolds(ps: seq<Placement>, page: int, j: nat)
    requires j < |ps| && ps[j].page == page
    ensures ps[j] in OnPage(ps, page)
  {
    if j < |ps| - 1 {
      OnPageHolds(ps[..|ps| - 1], page, j);
    }
  }

  /** Every placement on the page is among its first m or after them, as its line is at or below the limit. */
  ghost predicate CutAt(placed: seq<Placement>, m: nat, line: int) {
    && m <= |placed|
    && (forall k :: 0 <= k < m ==> placed[k].line <= line)
    && (forall k :: m <= k < |placed| ==> placed[k].line > line)
  }

  lemma PlacedOnHolds(d: Document, page: int, j: nat)
    requires j < |d.placements| && d.placements[j].page == page
    ensures d.placements[j] in PlacedOn(d, page)
  {
    OnPageHolds(d.placements, page, j);
    SortSorts(OnPage(d.placements, page), ByLine());
    assert d.placements[j] in multiset(PlacedOn(d, page));
  }

  lemma CutGoverns(d: Document, page: nat, m: nat, line: int, before: Option<string>)
    requires CutAt(PlacedOn(d, page), m, line) && Governs(d.placements, page, None, before)
    ensures Governs(d.placements, page, Some(line), SectionIn(before, PlacedOn(d, page), m))
  {
    var ps, placed := d.placements, PlacedOn(d, page);
    forall j | 0 <= j < |ps| && ps[j].page == page
      ensures ps[j].line <= line ==> m > 0 && ps[j].line <= placed[m - 1].line
    {
      PlacedOnHolds(d, page, j);
      SortedByLine(d, page);
    }
    if m == 0 {
      forall j | 0 <= j < |ps|
        ensures AtOrBefore(ps[j], page, Some(line)) <==> AtOrBefore(ps[j], page, None)
      {
      }
      if before.Some? {
        var k :| LastPlaced(ps, page, None, k) && ps[k].section == before.value;
        assert LastPlaced(ps, page, Some(line), k);
      }
    } else {
      CutLast(d, page, m, line);
    }
  }

  lemma CutLast(d: Document, page: nat, m: nat, line: int)
    requires CutAt(PlacedOn(d, page), m, line) && m > 0
    requires forall j :: 0 <= j < |d.placements| && d.placements[j].page == page && d.placements[j].line <= line ==>
                           d.placements[j].line <= PlacedOn(d, page)[m - 1].line
    ensures Governs(d.placements, page, Some(line), Some(PlacedOn(d, page)[m - 1].section))
  {
    var placed, at := OnPage(d.placements, page), PlacedOn(d, page)[m - 1].line;
    SortSorts(placed, ByLine());
    LastOfTies(PlacedOn(d, page), ByLine(), m);
    SortStable(placed, ByLine(), at as real);
    var k := LastOnLine(d.placements, page, at);
    assert LastPlaced(d.placements, page, Some(line), k);
  }

  /** Past the page's last placement is before the next page. */
  lemma NextPage(d: Document, page: nat, line: int, section: Option<string>)
    requires CutAt(PlacedOn(d, page), |PlacedOn(d, page)|, line) && Governs(d.placements, page, Some(line), section)
    ensures Governs(d.placements, page + 1, None, section)
  {
    var ps := d.placements;
    forall j | 0 <= j < |ps|
      ensures AtOrBefore(ps[j], page, Some(line)) <==> AtOrBefore(ps[j], page + 1, None)
    {
      if ps[j].page == page {
        PlacedOnHolds(d, page, j);
      }
    }
    if section.Some? {
      var k :| LastPlaced(ps, page, Some(line), k) && ps[k].section == section.value;
      assert LastPlaced(ps, page + 1, None, k);
    }
  }

  lemma CutAtEnd(placed: seq<Placement>) returns (line: int)
    requires InLineOrder(placed)
    ensures CutAt(placed, |placed|, line)
  {
    line := if placed == [] then 0 else placed[|placed| - 1].line;
  }

  lemma {:induction false} SectionAfterGoverns(d: Document, n: nat)
    ensures Governs(d.placements, n, None, SectionAfter(d, n))
  {
    if n > 0 {
      var page, placed := n - 1, PlacedOn(d, n - 1);
      SectionAfterGoverns(d, page);
      SortedByLine(d, page);
      var line := CutAtEnd(placed);
      CutGoverns(d, page, |placed|, line, SectionAfter(d, page));
      NextPage(d, page, line, SectionAfter(d, n));
    }
  }

  lemma SectionAtGoverns(d: Document, page: nat, line: nat)
    ensures Governs(d.placements, page, Some(line), SectionAt(d, page, line))
  {
    SectionAfterGoverns(d, page);
    SortedByLine(d, page);
    ReachedMeans(PlacedOn(d, page), line + 1);
    CutGoverns(d, page, Reached(PlacedOn(d, page), line + 1), line, SectionAfter(d, page));
  }

  // ----------------------------------------------------------------- the lines held

  /** Every section, or one. */
  datatype Scope = Everything | Under(section: Option<string>) {
    predicate Covers(s: Option<string>) {
      Everything? || section == s
    }
  }

  /** A line as blocks hold it: its section and its text. */
  datatype Held = Held(section: Option<string>, text: string)

  /** A kept line and where it stands. */
  datatype Spot = Spot(page: nat, line: nat, held: Held)

  function Tagged(section: Option<string>, lines: seq<string>): seq<Held> {
    if lines == [] then [] else Tagged(section, lines[..|lines| - 1]) + [Held(section, lines[|lines| - 1])]
  }

  /** The lines of segments, in order, each with its segment's section. */
  function Gathered(segments: seq<Segment>): seq<Held> {
    if segments == [] then []
    else Gathered(segments[..|segments| - 1]) + Tagged(segments[|segments| - 1].section, segments[|segments| - 1].buf.lines)
  }

  /** The images credited to the segments in scope. */
  function Credited(segments: seq<Segment>, under: Scope): nat {
    if segments == [] then 0
    else Credited(segments[..|segments| - 1], under)
         + if under.Covers(segments[|segments| - 1].section) then segments[|segments| - 1].buf.images else 0
  }

  /** What a sink has gathered, credited and entered, its open segment included. */
  function Lines(s: Sink): seq<Held> {
    Gathered(s.closed) + Tagged(s.open.section, s.open.buf.lines)
  }

  function Credits(s: Sink, under: Scope): nat {
    Credited(s.closed, under) + if under.Covers(s.open.section) then s.open.buf.images else 0
  }

  function Sections(s: Sink): seq<Option<string>> {
    SectionsOf(s.closed) + [s.open.section]
  }

  function SectionsOf(segments: seq<Segment>): seq<Option<string>> {
    seq(|segments|, i requires 0 <= i < |segments| => segments[i].section)
  }

  function HeldOf(spots: seq<Spot>): seq<Held> {
    seq(|spots|, i requires 0 <= i < |spots| => spots[i].held)
  }

  /** The kept lines of the first i on a page, under what was open before it. */
  function SpotsOn(before: Option<string>, sh: Sheet, i: nat): seq<Spot>
    requires i <= |sh.lines|
  {
    if i == 0 then []
    else SpotsOn(before, sh, i - 1)
         + if KeptLine(sh, i - 1)
           then [Spot(sh.pno, i - 1, Held(SectionIn(before, sh.placed, Reached(sh.placed, i)), sh.lines[i - 1].text))]
           else []
  }

  /** The kept lines of a page; those of a skipped page are not. */
  function PageSpots(d: Document, pno: nat): seq<Spot>
    requires d.Valid() && pno < |d.pages|
  {
    if pno in d.skip then [] else SpotsOn(SectionAfter(d, pno), SheetOf(d, pno), |d.pages[pno]|)
  }

  /** The kept lines of the first n pages, in order. */
  function Spots(d: Document, n: nat): seq<Spot>
    requires d.Valid() && n <= |d.pages|
  {
    if n == 0 then [] else Spots(d, n - 1) + PageSpots(d, n - 1)
  }

  /** The figures line i, when kept, credits in scope. */
  function CreditAt(before: Option<string>, sh: Sheet, i: nat, under: Scope): nat
    requires i < |sh.lines|
  {
    if KeptLine(sh, i) && under.Covers(SectionIn(before, sh.placed, Reached(sh.placed, i + 1)))
    then CountedBy(sh, i + 1) - CountedBy(sh, i) else 0
  }

  /** The figures of the page credited in scope by the first i lines. */
  function CreditOn(before: Option<string>, sh: Sheet, i: nat, under: Scope): nat
    requires i <= |sh.lines|
  {
    if i == 0 then 0 else CreditOn(before, sh, i - 1, under) + CreditAt(before, sh, i - 1, under)
  }

  /** The figures a page leaves, when the section open at its end is in scope. */
  function LeftOver(sh: Sheet, end: Option<string>, under: Scope): nat {
    if under.Covers(end) then |sh.tops| - CountedBy(sh, |sh.lines|) else 0
  }

  function PageCredit(d: Document, pno: nat, under: Scope): nat
    requires d.Valid() && pno < |d.pages|
  {
    if pno in d.skip then 0
    else CreditOn(SectionAfter(d, pno), SheetOf(d, pno), |d.pages[pno]|, under)
         + LeftOver(SheetOf(d, pno), SectionAfter(d, pno + 1), under)
  }

  /** The figures credited in scope: those a line there met, and those left when a page ends there. */
  function Credit(d: Document, n: nat, under: Scope): nat
    requires d.Valid() && n <= |d.pages|
  {
    if n == 0 then 0 else Credit(d, n - 1, under) + PageCredit(d, n - 1, under)
  }

  function SectionNames(placed: seq<Placement>, m: nat, n: nat): seq<Option<string>>
    requires n <= |placed|
  {
    if n <= m then [] else SectionNames(placed, m, n - 1) + [Some(placed[n - 1].section)]
  }

  function PageNames(d: Document, pno: nat): seq<Option<string>> {
    SectionNames(PlacedOn(d, pno), 0, |PlacedOn(d, pno)|)
  }

  /** The sections entered on the first n pages, in order. */
  function EnteredBy(d: Document, n: nat): seq<Option<string>> {
    if n == 0 then [] else EnteredBy(d, n - 1) + PageNames(d, n - 1)
  }

  // ---------------------------------------------------------- the run follows the rule

  /** From s to t: the lines gathered, the images credited in scope, and the sections entered. */
  ghost predicate Gains(s: Sink, t: Sink, held: seq<Held>, under: Scope, credit: nat, entered: seq<Option<string>>) {
    && Lines(t) == Lines(s) + held
    && Credits(t, under) == Credits(s, under) + credit
    && Sections(t) == Sections(s) + entered
  }

  lemma GainsTwice(s: Sink, t: Sink, u: Sink, under: Scope, h1: seq<Held>, c1: nat, e1: seq<Option<string>>,
                   h2: seq<Held>, c2: nat, e2: seq<Option<string>>)
    requires Gains(s, t, h1, under, c1, e1) && Gains(t, u, h2, under, c2, e2)
    ensures Gains(s, u, h1 + h2, under, c1 + c2, e1 + e2)
  {
    assert Lines(s) + (h1 + h2) == Lines(s) + h1 + h2;
    assert Sections(s) + (e1 + e2) == Sections(s) + e1 + e2;
  }

  lemma GainsNothing(s: Sink, under: Scope)
    ensures Gains(s, s, [], under, 0, [])
  {
    assert Lines(s) + [] == Lines(s);
    assert Sections(s) + [] == Sections(s);
  }

  lemma ClosedOne(closed: seq<Segment>, g: Segment, under: Scope)
    ensures Gathered(closed + [g]) == Gathered(closed) + Tagged(g.section, g.buf.lines)
    ensures Credited(closed + [g], under) == Credited(closed, under) + if under.Covers(g.section) then g.buf.images else 0
    ensures SectionsOf(closed + [g]) == SectionsOf(closed) + [g.section]
  {
    assert (closed + [g])[..|closed|] == closed;
  }

  lemma EnteredGains(s: Sink, section: string, under: Scope)
    ensures Gains(s, Entered(s, section), [], under, 0, [Some(section)])
  {
    ClosedOne(s.closed, s.open, under);
    assert Tagged(Some(section), []) == [];
  }

  lemma LineGains(s: Sink, text: string, pno: nat, under: Scope)
    ensures Gains(s, WithLine(s, text, pno), [Held(s.open.section, text)], under, 0, [])
  {
    assert (s.open.buf.lines + [text])[..|s.open.buf.lines|] == s.open.buf.lines;
    assert Tagged(s.open.section, s.open.buf.lines + [text]) ==
           Tagged(s.open.section, s.open.buf.lines) + [Held(s.open.section, text)];
    assert Gathered(s.closed) + (Tagged(s.open.section, s.open.buf.lines) + [Held(s.open.section, text)]) ==
           Lines(s) + [Held(s.open.section, text)];
    assert Sections(s) + [] == Sections(s);
  }

  lemma FiguresGain(s: Sink, n: nat, under: Scope)
    ensures Gains(s, WithFigures(s, n), [], under, if under.Covers(s.open.section) then n else 0, [])
  {
    GainsNothing(s, under);
  }

  /** Entering the headings from the m-th to the n-th, after the first m have been. */
  lemma {:induction false} EnteringGains(s: Sink, placed: seq<Placement>, m: nat, n: nat, before: Option<string>, under: Scope)
    requires m <= n <= |placed| && s.open.section == SectionIn(before, placed, m)
    ensures EnterRun(s, placed, m, n).open.section == SectionIn(before, placed, n)
    ensures Gains(s, EnterRun(s, placed, m, n), [], under, 0, SectionNames(placed, m, n))
    decreases n
  {
    if n == m {
      GainsNothing(s, under);
    } else {
      EnteringGains(s, placed, m, n - 1, before, under);
      var t := EnterRun(s, placed, m, n - 1);
      EnteredGains(t, placed[n - 1].section, under);
      GainsTwice(s, t, EnterRun(s, placed, m, n), under, [], 0, SectionNames(placed, m, n - 1), [], 0, [Some(placed[n - 1].section)]);
    }
  }

  lemma {:induction false} NamesConcat(placed: seq<Placement>, l: nat, m: nat, n: nat)
    requires l <= m <= n <= |placed|
    ensures SectionNames(placed, l, m) + SectionNames(placed, m, n) == SectionNames(placed, l, n)
    decreases n
  {
    if m < n {
      NamesConcat(placed, l, m, n - 1);
    }
  }

  /** What line i adds to the page's spots. */
  function SpotAt(before: Option<string>, sh: Sheet, i: nat): seq<Held>
    requires i < |sh.lines|
  {
    if KeptLine(sh, i) then [Held(SectionIn(before, sh.placed, Reached(sh.placed, i + 1)), sh.lines[i].text)] else []
  }

  /** Adding a line after the figures above it. */
  lemma KeptGains(t: Sink, count: nat, text: string, pno: nat, under: Scope)
    ensures WithLine(WithFigures(t, count), text, pno).open.section == t.open.section
    ensures Gains(t, WithLine(WithFigures(t, count), text, pno), [Held(t.open.section, text)], under,
                  if under.Covers(t.open.section) then count else 0, [])
  {
    var u := WithFigures(t, count);
    FiguresGain(t, count, under);
    LineGains(u, text, pno, under);
    var credit := if under.Covers(t.open.section) then count else 0;
    GainsTwice(t, u, WithLine(u, text, pno), under, [], credit, [], [Held(t.open.section, text)], 0, []);
    assert [] + [Held(t.open.section, text)] == [Held(t.open.section, text)];
  }

  lemma GainsAfterNames(s: Sink, t: Sink, u: Sink, under: Scope, names: seq<Option<string>>, held: seq<Held>, credit: nat)
    requires Gains(s, t, [], under, 0, names) && Gains(t, u, held, under, credit, [])
    ensures Gains(s, u, held, under, credit, names)
  {
    GainsTwice(s, t, u, under, [], 0, names, held, credit, []);
    assert [] + held == held && names + [] == names;
  }

  /** What reading line i leaves once the headings at or before it are entered. */
  lemma AfterEntering(t: Sink, sh: Sheet, i: nat, before: Option<string>, under: Scope)
    requires i < |sh.lines| && t.open.section == SectionIn(before, sh.placed, Reached(sh.placed, i + 1))
    ensures AddedLine(t, sh, i).open.section == t.open.section
    ensures Gains(t, AddedLine(t, sh, i), SpotAt(before, sh, i), under, CreditAt(before, sh, i, under), [])
  {
    if KeptLine(sh, i) {
      KeptGains(t, CountedBy(sh, i + 1) - CountedBy(sh, i), sh.lines[i].text, sh.pno, under);
    } else {
      GainsNothing(t, under);
    }
  }

  lemma LineRunGains(s: Sink, sh: Sheet, i: nat, before: Option<string>, under: Scope)
    requires i < |sh.lines| && s.open.section == SectionIn(before, sh.placed, Reached(sh.placed, i))
    ensures LineRun(s, sh, i).open.section == SectionIn(before, sh.placed, Reached(sh.placed, i + 1))
    ensures Gains(s, LineRun(s, sh, i), SpotAt(before, sh, i), under, CreditAt(before, sh, i, under),
                  SectionNames(sh.placed, Reached(sh.placed, i), Reached(sh.placed, i + 1)))
  {
    var m, n := Reached(sh.placed, i), Reached(sh.placed, i + 1);
    EnteringGains(s, sh.placed, m, n, before, under);
    var t := EnterRun(s, sh.placed, m, n);
    AfterEntering(t, sh, i, before, under);
    GainsAfterNames(s, t, LineRun(s, sh, i), under, SectionNames(sh.placed, m, n),
                    SpotAt(before, sh, i), CreditAt(before, sh, i, under));
  }

  lemma HeldConcat(a: seq<Spot>, b: seq<Spot>)
    ensures HeldOf(a + b) == HeldOf(a) + HeldOf(b)
  {
  }

  lemma SpotsStep(before: Option<string>, sh: Sheet, i: nat)
    requires i < |sh.lines|
    ensures HeldOf(SpotsOn(before, sh, i + 1)) == HeldOf(SpotsOn(before, sh, i)) + SpotAt(before, sh, i)
  {
    if KeptLine(sh, i) {
      var spot := Spot(sh.pno, i, SpotAt(before, sh, i)[0]);
      HeldConcat(SpotsOn(before, sh, i), [spot]);
      assert HeldOf([spot]) == SpotAt(before, sh, i);
    }
  }

  lemma {:induction false} LinesRunGains(s: Sink, sh: Sheet, i: nat, under: Scope)
    requires i <= |sh.lines|
    ensures LinesRun(s, sh, i).open.section == SectionIn(s.open.section, sh.placed, Reached(sh.placed, i))
    ensures Gains(s, LinesRun(s, sh, i), HeldOf(SpotsOn(s.open.section, sh, i)), under,
                  CreditOn(s.open.section, sh, i, under), SectionNames(sh.placed, 0, Reached(sh.placed, i)))
  {
    if i == 0 {
      GainsNothing(s, under);
    } else {
      var before, k := s.open.section, i - 1;
      var m, n := Reached(sh.placed, k), Reached(sh.placed, i);
      LinesRunGains(s, sh, k, under);
      LineRunGains(LinesRun(s, sh, k), sh, k, before, under);
      SpotsStep(before, sh, k);
      NamesConcat(sh.placed, 0, m, n);
      GainsTwice(s, LinesRun(s, sh, k), LinesRun(s, sh, i), under,
                 HeldOf(SpotsOn(before, sh, k)), CreditOn(before, sh, k, under), SectionNames(sh.placed, 0, m),
                 SpotAt(before, sh, k), CreditAt(before, sh, k, under), SectionNames(sh.placed, m, n));
    }
  }

  lemma PageRunGains(s: Sink, sh: Sheet, under: Scope)
    ensures var end := SectionIn(s.open.section, sh.placed, |sh.placed|);
            && PageRun(s, sh).open.section == end
            && Gains(s, PageRun(s, sh), HeldOf(SpotsOn(s.open.section, sh, |sh.lines|)), under,
                     CreditOn(s.open.section, sh, |sh.lines|, under) + LeftOver(sh, end, under),
                     SectionNames(sh.placed, 0, |sh.placed|))
  {
    var before, n, m, k := s.open.section, |sh.lines|, Reached(sh.placed, |sh.lines|), |sh.placed|;
    var held, credit := HeldOf(SpotsOn(before, sh, n)), CreditOn(before, sh, n, under);
    var left := LeftOver(sh, SectionIn(before, sh.placed, k), under);
    LinesRunGains(s, sh, n, under);
    var t := LinesRun(s, sh, n);
    var u := EnterRun(t, sh.placed, m, k);
    EnteringGains(t, sh.placed, m, k, before, under);
    FiguresGain(u, |sh.tops| - CountedBy(sh, n), under);
    GainsTwice(s, t, u, under, held, credit, SectionNames(sh.placed, 0, m), [], 0, SectionNames(sh.placed, m, k));
    NamesConcat(sh.placed, 0, m, k);
    assert held + [] == held;
    GainsTwice(s, u, PageRun(s, sh), under, held, credit, SectionNames(sh.placed, 0, k), [], left, []);
    assert SectionNames(sh.placed, 0, k) + [] == SectionNames(sh.placed, 0, k);
  }

  lemma OnePageGains(s: Sink, d: Document, pno: nat, under: Scope)
    requires d.Valid() && pno < |d.pages| && s.open.section == SectionAfter(d, pno)
    ensures OnePageRun(s, d, pno).open.section == SectionAfter(d, pno + 1)
    ensures Gains(s, OnePageRun(s, d, pno), HeldOf(PageSpots(d, pno)), under, PageCredit(d, pno, under), PageNames(d, pno))
  {
    if pno in d.skip {
      EnteringGains(s, PlacedOn(d, pno), 0, |PlacedOn(d, pno)|, s.open.section, under);
      assert HeldOf([]) == [];
    } else {
      PageRunGains(s, SheetOf(d, pno), under);
    }
  }

  lemma {:induction false} DocumentRunGains(d: Document, n: nat, under: Scope)
    requires d.Valid() && n <= |d.pages|
    ensures DocumentRun(d, n).open.section == SectionAfter(d, n)
    ensures Gains(START, DocumentRun(d, n), HeldOf(Spots(d, n)), under, Credit(d, n, under), EnteredBy(d, n))
  {
    if n == 0 {
      StartGains(d, under);
    } else {
      DocumentRunGains(d, n - 1, under);
      DocumentStep(d, n, under);
    }
  }

  lemma StartGains(d: Document, under: Scope)
    requires d.Valid()
    ensures Gains(START, DocumentRun(d, 0), HeldOf(Spots(d, 0)), under, Credit(d, 0, under), EnteredBy(d, 0))
  {
    GainsNothing(START, under);
    assert HeldOf(Spots(d, 0)) == [];
  }

  /** One page more, after a sink that has gained so much. */
  lemma OnePageAfter(s: Sink, d: Document, pno: nat, under: Scope, held: seq<Held>, credit: nat, entered: seq<Option<string>>)
    requires d.Valid() && pno < |d.pages| && s.open.section == SectionAfter(d, pno) && Gains(START, s, held, under, credit, entered)
    ensures OnePageRun(s, d, pno).open.section == SectionAfter(d, pno + 1)
    ensures Gains(START, OnePageRun(s, d, pno), held + HeldOf(PageSpots(d, pno)), under,
                  credit + PageCredit(d, pno, under), entered + PageNames(d, pno))
  {
    OnePageGains(s, d, pno, under);
    GainsTwice(START, s, OnePageRun(s, d, pno), under, held, credit, entered,
               HeldOf(PageSpots(d, pno)), PageCredit(d, pno, under), PageNames(d, pno));
  }

  lemma DocumentStep(d: Document, n: nat, under: Scope)
    requires d.Valid() && 0 < n <= |d.pages| && DocumentRun(d, n - 1).open.section == SectionAfter(d, n - 1)
    requires Gains(START, DocumentRun(d, n - 1), HeldOf(Spots(d, n - 1)), under, Credit(d, n - 1, under), EnteredBy(d, n - 1))
    ensures DocumentRun(d, n).open.section == SectionAfter(d, n)
    ensures Gains(START, DocumentRun(d, n), HeldOf(Spots(d, n)), under, Credit(d, n, under), EnteredBy(d, n))
  {
    OnePageAfter(DocumentRun(d, n - 1), d, n - 1, under, HeldOf(Spots(d, n - 1)), Credit(d, n - 1, under), EnteredBy(d, n - 1));
    HeldConcat(Spots(d, n - 1), PageSpots(d, n - 1));
  }

  // --------------------------------------------------------------------- the rule

  /** Spot a comes before spot b in the document. */
  predicate SpotLess(a: Spot, b: Spot) {
    a.page < b.page || (a.page == b.page && a.line < b.line)
  }

  ghost predicate Increasing(spots: seq<Spot>) {
    forall q, r :: 0 <= q < r < |spots| ==> SpotLess(spots[q], spots[r])
  }

  predicate SpotKept(d: Document, spot: Spot)
    requires d.Valid()
  {
    && spot.page < |d.pages| && spot.page !in d.skip && spot.line < |d.pages[spot.page]|
    && KeptLine(SheetOf(d, spot.page), spot.line)
    && spot.held.text == d.pages[spot.page][spot.line].text
    && spot.held.section == SectionAt(d, spot.page, spot.line)
  }

  /** The spots are those kept on the first i lines of a page, in order. */
  ghost predicate SpotsUpTo(kept: Spot -> bool, spots: seq<Spot>, pno: nat, i: nat) {
    && Increasing(spots)
    && forall spot :: spot in spots <==> kept(spot) && spot.page == pno && spot.line < i
  }

  lemma UpToNext(kept: Spot -> bool, spots: seq<Spot>, pno: nat, i: nat, more: seq<Spot>)
    requires SpotsUpTo(kept, spots, pno, i) && |more| <= 1
    requires forall spot :: spot in more <==> kept(spot) && spot.page == pno && spot.line == i
    ensures SpotsUpTo(kept, spots + more, pno, i + 1)
  {
    var all := spots + more;
    forall q, r | 0 <= q < r < |all|
      ensures SpotLess(all[q], all[r])
    {
      if r < |spots| {
        assert all[q] == spots[q] && all[r] == spots[r];
      } else {
        assert all[q] in spots && all[r] in more;
      }
    }
  }

  function KeptIn(d: Document): Spot -> bool
    requires d.Valid()
  {
    (spot: Spot) => SpotKept(d, spot)
  }

  /** The spot line i of a page makes, if it is kept. */
  function SpotOf(d: Document, pno: nat, i: nat): seq<Spot>
    requires d.Valid() && pno < |d.pages| && i < |d.pages[pno]|
  {
    if KeptLine(SheetOf(d, pno), i) then [Spot(pno, i, Held(SectionAt(d, pno, i), d.pages[pno][i].text))] else []
  }

  lemma SpotOfExact(d: Document, pno: nat, i: nat, spot: Spot)
    requires d.Valid() && pno < |d.pages| && pno !in d.skip && i < |d.pages[pno]|
    ensures spot in SpotOf(d, pno, i) <==> KeptIn(d)(spot) && spot.page == pno && spot.line == i
  {
  }

  lemma {:induction false} SpotsOnExact(d: Document, pno: nat, i: nat)
    requires d.Valid() && pno < |d.pages| && pno !in d.skip && i <= |d.pages[pno]|
    ensures SpotsUpTo(KeptIn(d), SpotsOn(SectionAfter(d, pno), SheetOf(d, pno), i), pno, i)
  {
    if i > 0 {
      SpotsOnExact(d, pno, i - 1);
      forall spot
        ensures spot in SpotOf(d, pno, i - 1) <==> KeptIn(d)(spot) && spot.page == pno && spot.line == i - 1
      {
        SpotOfExact(d, pno, i - 1, spot);
      }
      UpToNext(KeptIn(d), SpotsOn(SectionAfter(d, pno), SheetOf(d, pno), i - 1), pno, i - 1, SpotOf(d, pno, i - 1));
    }
  }

  /** The spots are those kept on pages from lo up to hi, in order. */
  ghost predicate SpotsBetween(kept: Spot -> bool, spots: seq<Spot>, lo: nat, hi: nat) {
    && Increasing(spots)
    && forall spot :: spot in spots <==> kept(spot) && lo <= spot.page < hi
  }

  lemma SpotsConcat(kept: Spot -> bool, a: seq<Spot>, b: seq<Spot>, n: nat)
    requires SpotsBetween(kept, a, 0, n) && SpotsBetween(kept, b, n, n + 1)
    ensures SpotsBetween(kept, a + b, 0, n + 1)
  {
    forall q, r | 0 <= q < r < |a + b|
      ensures SpotLess((a + b)[q], (a + b)[r])
    {
      if q < |a| <= r {
        assert a[q] in a && b[r - |a|] in b;
      }
    }
  }

  function Flatten(parts: seq<seq<Spot>>, n: nat): seq<Spot>
    requires n <= |parts|
  {
    if n == 0 then [] else Flatten(parts, n - 1) + parts[n - 1]
  }

  lemma {:induction false} FlattenBetween(kept: Spot -> bool, parts: seq<seq<Spot>>, n: nat)
    requires n <= |parts| && forall p :: 0 <= p < n ==> SpotsBetween(kept, parts[p], p, p + 1)
    ensures SpotsBetween(kept, Flatten(parts, n), 0, n)
  {
    if n > 0 {
      FlattenBetween(kept, parts, n - 1);
      SpotsConcat(kept, Flatten(parts, n - 1), parts[n - 1], n - 1);
    }
  }

  lemma {:induction false} SpotsFlat(d: Document, parts: seq<seq<Spot>>, n: nat)
    requires d.Valid() && n <= |d.pages| == |parts| && forall p :: 0 <= p < n ==> parts[p] == PageSpots(d, p)
    ensures Spots(d, n) == Flatten(parts, n)
  {
    if n > 0 {
      SpotsFlat(d, parts, n - 1);
    }
  }

  lemma PageSpotsExact(d: Document, pno: nat)
    requires d.Valid() && pno < |d.pages|
    ensures SpotsBetween(KeptIn(d), PageSpots(d, pno), pno, pno + 1)
  {
    if pno !in d.skip {
      SpotsOnExact(d, pno, |d.pages[pno]|);
    }
  }

  lemma SpotsExact(d: Document)
    requires d.Valid()
    ensures SpotsBetween(KeptIn(d), Spots(d, |d.pages|), 0, |d.pages|)
  {
    var parts := seq(|d.pages|, p requires 0 <= p < |d.pages| => PageSpots(d, p));
    forall p | 0 <= p < |d.pages|
      ensures SpotsBetween(KeptIn(d), parts[p], p, p + 1)
    {
      PageSpotsExact(d, p);
    }
    FlattenBetween(KeptIn(d), parts, |d.pages|);
    SpotsFlat(d, parts, |d.pages|);
  }

  /**
   The rule: the lines of the segments are exactly the kept lines of the unskipped
   pages, each once and in document order, each under the section of the last
   placement at or before it.
   */
  lemma LinesFollowPlacements(d: Document)
    requires d.Valid()
    ensures Gathered(Segments(d)) == HeldOf(Spots(d, |d.pages|)) && Increasing(Spots(d, |d.pages|))
    ensures forall spot :: spot in Spots(d, |d.pages|) <==> SpotKept(d, spot)
    ensures forall spot :: spot in Spots(d, |d.pages|) ==> Governs(d.placements, spot.page, Some(spot.line), spot.held.section)
  {
    var n := |d.pages|;
    DocumentRunGains(d, n, Everything);
    ClosedOne(DocumentRun(d, n).closed, DocumentRun(d, n).open, Everything);
    assert Lines(START) == [];
    SpotsExact(d);
    forall spot | spot in Spots(d, n)
      ensures Governs(d.placements, spot.page, Some(spot.line), spot.held.section)
    {
      SectionAtGoverns(d, spot.page, spot.line);
    }
  }

  /** One segment before any placement, then one a placement, in document order. */
  lemma SegmentsPerPlacement(d: Document)
    requires d.Valid()
    ensures SectionsOf(Segments(d)) == [None] + EnteredBy(d, |d.pages|)
  {
    DocumentRunGains(d, |d.pages|, Everything);
    ClosedOne(DocumentRun(d, |d.pages|).closed, DocumentRun(d, |d.pages|).open, Everything);
    assert Sections(START) == [None];
  }

  /** Each section is credited with the figures its lines and page ends met, no more. */
  lemma FiguresFollowPlacements(d: Document, under: Scope)
    requires d.Valid()
    ensures Credited(Segments(d), under) == Credit(d, |d.pages|, under)
  {
    var s := DocumentRun(d, |d.pages|);
    DocumentRunGains(d, |d.pages|, under);
    ClosedOne(s.closed, s.open, under);
    assert Credits(START, under) == 0;
  }

  // ------------------------------------------------------------- every figure, once

  /** The figures on the first n pages that are not skipped. */
  function Figures(d: Document, n: nat): nat
    requires d.Valid() && n <= |d.pages|
  {
    if n == 0 then 0 else Figures(d, n - 1) + if n - 1 in d.skip then 0 else |d.figureTops[n - 1]|
  }

  lemma {:induction false} LinesCreditAll(before: Option<string>, sh: Sheet, i: nat)
    requires i <= |sh.lines|
    ensures CreditOn(before, sh, i, Everything) == CountedBy(sh, i)
  {
    if i > 0 {
      LinesCreditAll(before, sh, i - 1);
    }
  }

  lemma PageCreditAll(d: Document, pno: nat)
    requires d.Valid() && pno < |d.pages|
    ensures PageCredit(d, pno, Everything) == if pno in d.skip then 0 else |d.figureTops[pno]|
  {
    LinesCreditAll(SectionAfter(d, pno), SheetOf(d, pno), |d.pages[pno]|);
  }

  lemma {:induction false} PagesCreditAll(d: Document, n: nat)
    requires d.Valid() && n <= |d.pages|
    ensures Credit(d, n, Everything) == Figures(d, n)
  {
    if n > 0 {
      PagesCreditAll(d, n - 1);
      PageCreditAll(d, n - 1);
    }
  }

  /** The images of all segments are as many as the figures on unskipped pages. */
  lemma FiguresCreditedOnce(d: Document)
    requires d.Valid()
    ensures Credited(Segments(d), Everything) == Figures(d, |d.pages|)
  {
    FiguresFollowPlacements(d, Everything);
    PagesCreditAll(d, |d.pages|);
  }

  ghost predicate TopDown(tops: seq<real>) {
    forall f, g :: 0 <= f < g < |tops| ==> tops[f] <= tops[g]
  }

  lemma {:induction false} BelowMeans(tops: seq<real>, next: nat, y: real, f: nat)
    requires TopDown(tops) && next <= |tops| && f < |tops|
    ensures f < Below(tops, next, y) <==> f < next || tops[f] <= y
    decreases |tops| - next
  {
    if next < |tops| && tops[next] <= y {
      BelowMeans(tops, next + 1, y, f);
    }
  }

  /** Line j is kept and starts at or below the figure's top. */
  predicate Meets(sh: Sheet, j: nat, f: nat)
    requires f < |sh.tops|
  {
    j < |sh.lines| && KeptLine(sh, j) && sh.tops[f] <= sh.lines[j].y0
  }

  /** With figures from the top down, one is counted by the first kept line at or below it. */
  lemma {:induction false} CountedMeans(sh: Sheet, i: nat, f: nat)
    requires TopDown(sh.tops) && i <= |sh.lines| && f < |sh.tops|
    ensures f < CountedBy(sh, i) <==> exists j :: 0 <= j < i && Meets(sh, j, f)
  {
    if i > 0 {
      CountedMeans(sh, i - 1, f);
      assert KeptLine(sh, i - 1) && sh.tops[f] <= sh.lines[i - 1].y0 <==> Meets(sh, i - 1, f);
      if KeptLine(sh, i - 1) {
        BelowMeans(sh.tops, CountedBy(sh, i - 1), sh.lines[i - 1].y0, f);
      }
    }
  }

  // ------------------------------------------------------------ from segments to blocks

  /** The texts of the blocks in scope. */
  function BlockTexts(blocks: seq<Block>, under: Scope): seq<string> {
    if blocks == [] then []
    else BlockTexts(blocks[..|blocks| - 1], under)
         + if under.Covers(blocks[|blocks| - 1].section) then [blocks[|blocks| - 1].text] else []
  }

  /** The texts of the held lines in scope. */
  function HeldTexts(held: seq<Held>, under: Scope): seq<string> {
    if held == [] then []
    else HeldTexts(held[..|held| - 1], under)
         + if under.Covers(held[|held| - 1].section) then [held[|held| - 1].text] else []
  }

  lemma {:induction false} HeldTextsConcat(a: seq<Held>, b: seq<Held>, under: Scope)
    ensures HeldTexts(a + b, under) == HeldTexts(a, under) + HeldTexts(b, under)
    decreases |b|
  {
    if b == [] {
      assert a + b == a;
    } else {
      assert (a + b)[..|a + b| - 1] == a + b[..|b| - 1];
      HeldTextsConcat(a, b[..|b| - 1], under);
    }
  }

  lemma HeldTextsSnoc(held: seq<Held>, h: Held, under: Scope)
    ensures HeldTexts(held + [h], under) == HeldTexts(held, under) + if under.Covers(h.section) then [h.text] else []
  {
    assert (held + [h])[..|held|] == held;
  }

  lemma TaggedSnoc(section: Option<string>, lines: seq<string>, last: string)
    ensures Tagged(section, lines + [last]) == Tagged(section, lines) + [Held(section, last)]
  {
    assert (lines + [last])[..|lines|] == lines;
  }

  lemma {:induction false} TaggedTexts(section: Option<string>, lines: seq<string>, under: Scope)
    ensures HeldTexts(Tagged(section, lines), under) == if under.Covers(section) then lines else []
  {
    if lines != [] {
      var init, last := lines[..|lines| - 1], lines[|lines| - 1];
      assert lines == init + [last];
      TaggedTexts(section, init, under);
      TaggedSnoc(section, init, last);
      HeldTextsSnoc(Tagged(section, init), Held(section, last), under);
    }
  }

  lemma {:induction false} NonBlankKeepsSolid(lines: seq<string>)
    ensures SolidAll(NonBlankLines(lines)) == SolidAll(lines)
  {
    if lines != [] {
      var init, last := lines[..|lines| - 1], lines[|lines| - 1];
      NonBlankKeepsSolid(init);
      SolidAllConcat(init, [last]);
      SolidAllConcat(NonBlankLines(init), if Strip(last) != "" then [last] else []);
      StripKeepsSolid(last);
      assert init + [last] == lines && SolidAll([last]) == Solid(last) + SolidAll([last][1..]);
    }
  }

  lemma BufferKeepsSolid(b: Buffer)
    ensures Solid(BufferText(b)) == SolidAll(b.lines)
    ensures BufferText(b) == "" <==> SolidAll(b.lines) == ""
  {
    NonBlankKeepsSolid(b.lines);
    JoinKeepsSolid(NonBlankLines(b.lines), "\n");
    StripKeepsSolid(Join(NonBlankLines(b.lines), "\n"));
  }

  /** A buffer without a page holds no lines. */
  predicate Paged(b: Buffer) {
    b.page == 0 ==> b.lines == []
  }

  ghost predicate AllPaged(segments: seq<Segment>) {
    forall i :: 0 <= i < |segments| ==> Paged(segments[i].buf)
  }

  lemma {:induction false} EnteringPaged(s: Sink, placed: seq<Placement>, m: nat, n: nat)
    requires n <= |placed| && AllPaged(s.closed) && Paged(s.open.buf)
    ensures var t := EnterRun(s, placed, m, n); AllPaged(t.closed) && Paged(t.open.buf)
    decreases n
  {
    if m < n {
      EnteringPaged(s, placed, m, n - 1);
    }
  }

  lemma {:induction false} LinesPaged(s: Sink, sh: Sheet, i: nat)
    requires i <= |sh.lines| && AllPaged(s.closed) && Paged(s.open.buf)
    ensures var t := LinesRun(s, sh, i); AllPaged(t.closed) && Paged(t.open.buf)
  {
    if i > 0 {
      LinesPaged(s, sh, i - 1);
      EnteringPaged(LinesRun(s, sh, i - 1), sh.placed, Reached(sh.placed, i - 1), Reached(sh.placed, i));
    }
  }

  lemma {:induction false} DocumentPaged(d: Document, n: nat)
    requires d.Valid() && n <= |d.pages|
    ensures var t := DocumentRun(d, n); AllPaged(t.closed) && Paged(t.open.buf)
  {
    if n > 0 {
      DocumentPaged(d, n - 1);
      var s, sh := DocumentRun(d, n - 1), SheetOf(d, n - 1);
      if n - 1 in d.skip {
        EnteringPaged(s, sh.placed, 0, |sh.placed|);
      } else {
        LinesPaged(s, sh, |sh.lines|);
        EnteringPaged(LinesRun(s, sh, |sh.lines|), sh.placed, Reached(sh.placed, |sh.lines|), |sh.placed|);
      }
    }
  }

  lemma SegmentKeepsText(blocks: seq<Block>, g: Segment, under: Scope)
    requires Paged(g.buf)
    ensures SolidAll(BlockTexts(blocks + BlocksOf(g), under)) ==
            SolidAll(BlockTexts(blocks, under)) + if under.Covers(g.section) then SolidAll(g.buf.lines) else ""
  {
    BufferKeepsSolid(g.buf);
    if BlocksOf(g) == [] {
      assert blocks + BlocksOf(g) == blocks;
    } else {
      var text := BufferText(g.buf);
      assert (blocks + BlocksOf(g))[..|blocks|] == blocks && BlockTexts(blocks, under) + [] == BlockTexts(blocks, under);
      SolidAllConcat(BlockTexts(blocks, under), [text]);
      assert SolidAll([text]) == Solid(text) + SolidAll([text][1..]);
    }
  }

  lemma {:induction false} RenderKeepsText(segments: seq<Segment>, under: Scope)
    requires AllPaged(segments)
    ensures SolidAll(BlockTexts(Render(segments), under)) == SolidAll(HeldTexts(Gathered(segments), under))
  {
    if segments != [] {
      var init, g := segments[..|segments| - 1], segments[|segments| - 1];
      RenderKeepsText(init, under);
      HeldTextsConcat(Gathered(init), Tagged(g.section, g.buf.lines), under);
      TaggedTexts(g.section, g.buf.lines, under);
      SolidAllConcat(HeldTexts(Gathered(init), under), if under.Covers(g.section) then g.buf.lines else []);
      SegmentKeepsText(Render(init), g, under);
    }
  }

  /** The blocks of a section, or of all, show what the kept lines it governs show, in order. */
  lemma BlocksShowKeptLines(d: Document, under: Scope)
    requires d.Valid()
    ensures SolidAll(BlockTexts(Render(Segments(d)), under)) == SolidAll(HeldTexts(HeldOf(Spots(d, |d.pages|)), under))
  {
    DocumentPaged(d, |d.pages|);
    RenderKeepsText(Segments(d), under);
    LinesFollowPlacements(d);
  }
}
