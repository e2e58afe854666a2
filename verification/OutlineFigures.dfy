/**
 Where each figure of a document is credited. OutlineRule counts what the emission
 credits line by line; here every single figure is given its section, and the counts
 are shown to be the numbers of figures given each one.
 */
module OutlineFigures {
  import opened Text
  import opened OutlineEmit
  import opened OutlineRule

  /** The first line from i on that is kept and starts at or below the figure's top, or the number of lines. */
  function FirstMeet(sh: Sheet, f: nat, i: nat): (j: nat)
    requires f < |sh.tops| && i <= |sh.lines|
    ensures i <= j <= |sh.lines|
    decreases |sh.lines| - i
  {
    if i == |sh.lines| || Meets(sh, i, f) then i else FirstMeet(sh, f, i + 1)
  }

  /** The section of a figure: that of the first line to meet it, else the one open as the page ends. */
  function FigureIn(before: Option<string>, sh: Sheet, f: nat): Option<string>
    requires f < |sh.tops|
  {
    var j := FirstMeet(sh, f, 0);
    if j < |sh.lines| then SectionIn(before, sh.placed, Reached(sh.placed, j + 1)) else SectionIn(before, sh.placed, |sh.placed|)
  }

  function FigureSection(d: Document, page: nat, f: nat): Option<string>
    requires d.Valid() && page < |d.pages| && f < |d.figureTops[page]|
  {
    FigureIn(SectionAfter(d, page), SheetOf(d, page), f)
  }

  /** How many of the first m figures of a page have a section in scope. */
  function CountIn(before: Option<string>, sh: Sheet, m: nat, under: Scope): nat
    requires m <= |sh.tops|
  {
    if m == 0 then 0 else CountIn(before, sh, m - 1, under) + if under.Covers(FigureIn(before, sh, m - 1)) then 1 else 0
  }

  /** How many figures on the unskipped of the first n pages have a section in scope. */
  function FiguresUnder(d: Document, n: nat, under: Scope): nat
    requires d.Valid() && n <= |d.pages|
  {
    if n == 0 then 0
    else FiguresUnder(d, n - 1, under)
         + if n - 1 in d.skip then 0 else CountIn(SectionAfter(d, n - 1), SheetOf(d, n - 1), |d.figureTops[n - 1]|, under)
  }

  // ------------------------------------------------------------------ the line of a figure

  lemma {:induction false} FirstMeetIs(sh: Sheet, f: nat, i: nat, j: nat)
    requires f < |sh.tops| && i <= j <= |sh.lines| && (j < |sh.lines| ==> Meets(sh, j, f))
    requires forall k :: i <= k < j ==> !Meets(sh, k, f)
    ensures FirstMeet(sh, f, i) == j
    decreases j - i
  {
    if i < j {
      FirstMeetIs(sh, f, i + 1, j);
    }
  }

  lemma {:induction false} FirstMeetFirst(sh: Sheet, f: nat, i: nat)
    requires f < |sh.tops| && i <= |sh.lines|
    ensures var j := FirstMeet(sh, f, i); (j < |sh.lines| ==> Meets(sh, j, f)) && forall k :: i <= k < j ==> !Meets(sh, k, f)
    decreases |sh.lines| - i
  {
    if i < |sh.lines| && !Meets(sh, i, f) {
      FirstMeetFirst(sh, f, i + 1);
    }
  }

  /** The figures line i counts are those it is the first to meet. */
  lemma CountedHere(sh: Sheet, i: nat, f: nat)
    requires TopDown(sh.tops) && i < |sh.lines| && CountedBy(sh, i) <= f < CountedBy(sh, i + 1)
    ensures FirstMeet(sh, f, 0) == i
  {
    CountedMeans(sh, i, f);
    CountedMeans(sh, i + 1, f);
    assert Meets(sh, i, f);
    FirstMeetIs(sh, f, 0, i);
  }

  lemma LeftHere(sh: Sheet, f: nat)
    requires TopDown(sh.tops) && CountedBy(sh, |sh.lines|) <= f < |sh.tops|
    ensures FirstMeet(sh, f, 0) == |sh.lines|
  {
    CountedMeans(sh, |sh.lines|, f);
    FirstMeetIs(sh, f, 0, |sh.lines|);
  }

  /** Figures that share a section are counted together. */
  lemma {:induction false} CountRange(before: Option<string>, sh: Sheet, a: nat, b: nat, under: Scope, section: Option<string>)
    requires a <= b <= |sh.tops| && forall f :: a <= f < b ==> FigureIn(before, sh, f) == section
    ensures CountIn(before, sh, b, under) == CountIn(before, sh, a, under) + if under.Covers(section) then b - a else 0
    decreases b - a
  {
    if a < b {
      CountRange(before, sh, a, b - 1, under, section);
    }
  }

  lemma LineCounts(before: Option<string>, sh: Sheet, i: nat, under: Scope)
    requires TopDown(sh.tops) && 0 < i <= |sh.lines|
    ensures CountIn(before, sh, CountedBy(sh, i), under) == CountIn(before, sh, CountedBy(sh, i - 1), under) + CreditAt(before, sh, i - 1, under)
  {
    var section := SectionIn(before, sh.placed, Reached(sh.placed, i));
    forall f | CountedBy(sh, i - 1) <= f < CountedBy(sh, i)
      ensures FigureIn(before, sh, f) == section
    {
      CountedHere(sh, i - 1, f);
    }
    assert CountedBy(sh, i - 1) <= CountedBy(sh, i);
    CountRange(before, sh, CountedBy(sh, i - 1), CountedBy(sh, i), under, section);
  }

  lemma {:induction false} LinesCount(before: Option<string>, sh: Sheet, i: nat, under: Scope)
    requires TopDown(sh.tops) && i <= |sh.lines|
    ensures CreditOn(before, sh, i, under) == CountIn(before, sh, CountedBy(sh, i), under)
  {
    if i > 0 {
      LinesCount(before, sh, i - 1, under);
      LineCounts(before, sh, i, under);
    }
  }

  lemma PageCounts(before: Option<string>, sh: Sheet, under: Scope)
    requires TopDown(sh.tops)
    ensures CreditOn(before, sh, |sh.lines|, under) + LeftOver(sh, SectionIn(before, sh.placed, |sh.placed|), under) ==
            CountIn(before, sh, |sh.tops|, under)
  {
    var m, end := CountedBy(sh, |sh.lines|), SectionIn(before, sh.placed, |sh.placed|);
    LinesCount(before, sh, |sh.lines|, under);
    forall f | m <= f < |sh.tops|
      ensures FigureIn(before, sh, f) == end
    {
      LeftHere(sh, f);
    }
    CountRange(before, sh, m, |sh.tops|, under, end);
  }

  // ------------------------------------------------------------------------- the rule

  ghost predicate AllTopDown(d: Document) {
    forall page :: 0 <= page < |d.figureTops| ==> TopDown(d.figureTops[page])
  }

  /** One page adds as much to what is credited as to the figures in scope. */
  lemma PageStep(d: Document, n: nat, under: Scope)
    requires d.Valid() && AllTopDown(d) && 0 < n <= |d.pages|
    ensures PageCredit(d, n - 1, under) == FiguresUnder(d, n, under) - FiguresUnder(d, n - 1, under)
  {
    PageCounts(SectionAfter(d, n - 1), SheetOf(d, n - 1), under);
  }

  lemma CreditStep(d: Document, n: nat, under: Scope)
    requires d.Valid() && 0 < n <= |d.pages|
    ensures Credit(d, n, under) == Credit(d, n - 1, under) + PageCredit(d, n - 1, under)
  {
  }

  lemma {:induction false} PagesCount(d: Document, n: nat, under: Scope)
    requires d.Valid() && AllTopDown(d) && n <= |d.pages|
    ensures Credit(d, n, under) == FiguresUnder(d, n, under)
  {
    if n > 0 {
      PagesCount(d, n - 1, under);
      CreditStep(d, n, under);
      PageStep(d, n, under);
    }
  }

  /** Each section is credited as many images as there are figures whose section it is. */
  lemma FiguresCredited(d: Document, under: Scope)
    requires d.Valid() && AllTopDown(d)
    ensures Credited(Segments(d), under) == FiguresUnder(d, |d.pages|, under)
  {
    FiguresFollowPlacements(d, under);
    PagesCount(d, |d.pages|, under);
  }

  /** A figure's section governs the first kept line at or below its top, or else the end of its page. */
  lemma FigureSectionGoverns(d: Document, page: nat, f: nat)
    requires d.Valid() && page < |d.pages| && f < |d.figureTops[page]|
    ensures var sh, j := SheetOf(d, page), FirstMeet(SheetOf(d, page), f, 0);
            && (forall k :: 0 <= k < j ==> !Meets(sh, k, f))
            && (j < |sh.lines| ==> Meets(sh, j, f) && Governs(d.placements, page, Some(j), FigureSection(d, page, f)))
            && (j == |sh.lines| ==> Governs(d.placements, page + 1, None, FigureSection(d, page, f)))
  {
    var j := FirstMeet(SheetOf(d, page), f, 0);
    FirstMeetFirst(SheetOf(d, page), f, 0);
    SectionAtGoverns(d, page, j);
    SectionAfterGoverns(d, page + 1);
  }
}
