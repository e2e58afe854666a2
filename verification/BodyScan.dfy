/**
 What the scan for body headings makes of every line: which are put to the ordering rule,
 which are subdivisions, which a title has taken, and what each title reads.
 */
module BodyScan {
  import opened Sequences
  import opened Text
  import opened Numerals
  import opened BodyHeadings
  import Outline

  // ----------------------------------------------------------------------------- titles

  /** A line goes on with the title before it, unless it has a number of its own. */
  predicate GoesOn(ln: Line) {
    ln.carries && ln.numbered.None?
  }

  /** Lines i up to e are a numbered line and all those that go on with its title. */
  predicate WrapsTo(lines: seq<Line>, i: nat, e: nat) {
    i < e <= |lines| && (forall k :: i < k < e ==> GoesOn(lines[k])) && (e < |lines| ==> !GoesOn(lines[e]))
  }

  /** The texts of lines i up to e, each stripped. */
  function StrippedTexts(lines: seq<Line>, i: nat, e: nat): (texts: seq<string>)
    requires i <= e <= |lines|
    ensures |texts| == e - i && forall k :: 0 <= k < e - i ==> texts[k] == Strip(lines[i + k].text)
  {
    seq(e - i, k requires 0 <= k < e - i => Strip(lines[i + k].text))
  }

  /** j is the first line after i with text, or the end. */
  predicate NextWithText(lines: seq<Line>, i: nat, j: nat) {
    i < j <= |lines| && (forall k :: i < k < j ==> Strip(lines[k].text) == "") && (j < |lines| ==> Strip(lines[j].text) != "")
  }

  lemma {:induction false} WrapEndIs(lines: seq<Line>, i: nat, j: nat)
    requires i < j <= |lines| && forall k :: i < k < j ==> GoesOn(lines[k])
    ensures WrapsTo(lines, i, WrapEnd(lines, j))
    decreases |lines| - j
  {
    if j < |lines| && GoesOn(lines[j]) {
      WrapEndIs(lines, i, j + 1);
    }
  }

  lemma {:induction false} NextTextIs(lines: seq<Line>, i: nat, j: nat)
    requires i < j <= |lines| && forall k :: i < k < j ==> Strip(lines[k].text) == ""
    ensures NextWithText(lines, i, NextText(lines, j))
    decreases |lines| - j
  {
    if j < |lines| && Strip(lines[j].text) == "" {
      NextTextIs(lines, i, j + 1);
    }
  }

  /** The first two parts may be joined beforehand. */
  lemma JoinFirstTwo(a: string, b: string, rest: seq<string>, sep: string)
    ensures Join([a + sep + b] + rest, sep) == Join([a, b] + rest, sep)
  {
    assert ([a + sep + b] + rest)[1..] == rest;
    assert ([a, b] + rest)[1..] == [b] + rest && ([b] + rest)[1..] == rest;
    if rest != [] {
      Assoc(a + sep, b, sep + Join(rest, sep));
      Assoc(b, sep, Join(rest, sep));
      Assoc(a + sep + b, sep, Join(rest, sep));
    }
  }

  lemma {:induction false} WrapTextIs(lines: seq<Line>, j: nat, e: nat, title: string)
    requires j <= e <= |lines|
    ensures WrapText(lines, j, e, title) == Join([title] + StrippedTexts(lines, j, e), " ")
    decreases e - j
  {
    if j == e {
      Nothing([title]);
    } else {
      var first, rest := Strip(lines[j].text), StrippedTexts(lines, j + 1, e);
      assert StrippedTexts(lines, j, e) == [first] + rest;
      WrapTextIs(lines, j + 1, e, title + " " + first);
      JoinFirstTwo(title, first, rest, " ");
      Assoc([title], [first], rest);
    }
  }

  /** A title that wraps: its own text and the lines that go on with it, with a space between them. */
  ghost predicate Wraps(lines: seq<Line>, i: nat, rest: string, t: Title, e: nat) {
    && WrapsTo(lines, i, e) && t.last == e - 1
    && t.text == Join([Strip(rest)] + StrippedTexts(lines, i + 1, e), " ")
    && |t.at| == e - i && forall k :: 0 <= k < e - i ==> t.at[k] == i + k
  }

  /** A number alone: the next line with text is its title if of its size, and a line of its own if on its row. */
  ghost predicate Stands(lines: seq<Line>, i: nat, t: Title, j: nat) {
    && i < |lines| && NextWithText(lines, i, j)
    && if j < |lines| && lines[j].size == lines[i].size
       then t.text == Strip(lines[j].text) && t.last == j && t.at == if lines[j].row == lines[i].row then [i, j] else [i]
       else t == Title("", [i], i)
  }

  /** What a numbered line's title is, and which lines it takes. */
  lemma TitleMeans(lines: seq<Line>, i: nat, rest: string) returns (e: nat)
    requires i < |lines|
    ensures if Strip(rest) != "" then Wraps(lines, i, rest, TitleAt(lines, i, rest), e)
            else Stands(lines, i, TitleAt(lines, i, rest), e)
  {
    if Strip(rest) != "" {
      e := WrapEnd(lines, i + 1);
      WrapEndIs(lines, i, i + 1);
      WrapTextIs(lines, i + 1, e, Strip(rest));
      IndicesAre(i, e);
    } else {
      e := NextText(lines, i + 1);
      NextTextIs(lines, i, i + 1);
    }
  }

  // ---------------------------------------------------------------------- what keys read

  /** Where each of its numerals is read as its number, a section's key is its path of numbers. */
  lemma KeyReadsPath(r: Reader, path: Outline.Path)
    requires path != [] && forall i :: 0 <= i < |path| ==> Itoa(path[i]) in r.numbers && r.numbers[Itoa(path[i])] == path[i]
    ensures r.Key(Outline.Render(path)) == path
  {
    Outline.RenderSplits(path);
    Outline.WrittenDotless(path);
  }

  // ------------------------------------------------------------------- what becomes of lines

  /** The candidate is of a numbered line of the page, and any heading it became has the line's title. */
  ghost predicate OfLine(c: Candidate, page: nat, lines: seq<Line>) {
    && c.page == page && c.line < |lines| && lines[c.line].numbered.Some?
    && c.section == lines[c.line].numbered.value.section
    && (c.heading.Some? ==>
          var t := TitleAt(lines, c.line, lines[c.line].numbered.value.rest);
          c.heading.value == BodyHeading(c.section, t.text, page, t.at))
  }

  /** Line k of a page was read for the title of a heading before it. */
  ghost predicate ReadForTitle(cs: seq<Candidate>, page: nat, lines: seq<Line>, k: nat) {
    exists c :: c in cs && OfLine(c, page, lines) && c.heading.Some?
                && c.line < k <= TitleAt(lines, c.line, lines[c.line].numbered.value.rest).last
  }

  /** Line k of a page was put to the ordering rule. */
  ghost predicate PutForward(cs: seq<Candidate>, page: nat, k: nat) {
    exists c :: c in cs && c.page == page && c.line == k
  }

  /** A line that was read for no title is a subdivision if set as a heading without a number, and put forward if with one, unless the page is a list. */
  ghost predicate Told(r: Reader, s: Scan, page: nat, lines: seq<Line>, k: nat)
    requires k < |lines|
  {
    var read := ReadForTitle(s.candidates, page, lines, k);
    && (Point(page, k) in s.subdivisions <==> !read && r.HeadingSized(lines[k]) && lines[k].numbered.None?)
    && (PutForward(s.candidates, page, k) <==>
          !read && r.HeadingSized(lines[k]) && lines[k].numbered.Some? && !IsList(r, lines))
  }

  /** Nothing is said of line k, nor read for a title. */
  ghost predicate Untold(s: Scan, page: nat, lines: seq<Line>, k: nat) {
    Point(page, k) !in s.subdivisions && !PutForward(s.candidates, page, k) && !ReadForTitle(s.candidates, page, lines, k)
  }

  /** The lines before i are told, those from i on are not, and the page's candidates are of its lines. */
  ghost predicate ToldUpTo(r: Reader, s: Scan, page: nat, lines: seq<Line>, i: nat) {
    && (forall k :: 0 <= k < |lines| && k < i ==> Told(r, s, page, lines, k))
    && (forall k: nat :: k >= i ==> Untold(s, page, lines, k))
    && (forall c :: c in s.candidates && c.page == page ==> OfLine(c, page, lines))
  }

  /** Of other pages the two scans say the same. */
  ghost predicate SameElsewhere(s: Scan, t: Scan, page: nat) {
    && (forall c: Candidate :: c.page != page ==> (c in s.candidates <==> c in t.candidates))
    && (forall p: Point :: p.page != page ==> (p in s.subdivisions <==> p in t.subdivisions))
  }

  lemma PassLine(r: Reader, s: Scan, t: Scan, page: nat, lines: seq<Line>, i: nat)
    requires i < |lines| && ToldUpTo(r, s, page, lines, i) && t.candidates == s.candidates
    requires !(r.HeadingSized(lines[i]) && lines[i].numbered.Some? && !IsList(r, lines))
    requires t.subdivisions == s.subdivisions + if r.HeadingSized(lines[i]) && lines[i].numbered.None? then {Point(page, i)} else {}
    ensures ToldUpTo(r, t, page, lines, i + 1) && SameElsewhere(s, t, page)
  {
    assert Untold(s, page, lines, i);
    forall k: nat | k > i
      ensures Untold(t, page, lines, k)
    {
      assert Untold(s, page, lines, k);
    }
    forall k | 0 <= k < i
      ensures Told(r, t, page, lines, k)
    {
      assert Told(r, s, page, lines, k);
    }
  }

  /** What one candidate more changes for a line. */
  lemma OneMoreCandidate(cs: seq<Candidate>, c: Candidate, page: nat, lines: seq<Line>, k: nat)
    requires OfLine(c, page, lines)
    ensures PutForward(cs + [c], page, k) <==> PutForward(cs, page, k) || c.line == k
    ensures ReadForTitle(cs + [c], page, lines, k) <==>
              || ReadForTitle(cs, page, lines, k)
              || (c.heading.Some? && c.line < k <= TitleAt(lines, c.line, lines[c.line].numbered.value.rest).last)
  {
    assert c in cs + [c];
    assert forall d :: d in cs + [c] <==> d in cs || d == c;
  }

  lemma CandidateOfLine(r: Reader, cs: seq<Candidate>, page: nat, lines: seq<Line>, i: nat)
    requires i < |lines| && lines[i].numbered.Some?
    ensures OfLine(CandidateAt(r, cs, page, lines, i), page, lines) && CandidateAt(r, cs, page, lines, i).line == i
  {
  }

  lemma CandidateLine(r: Reader, s: Scan, page: nat, lines: seq<Line>, i: nat, c: Candidate, last: nat)
    requires i < |lines| && ToldUpTo(r, s, page, lines, i)
    requires r.HeadingSized(lines[i]) && lines[i].numbered.Some? && !IsList(r, lines)
    requires OfLine(c, page, lines) && c.line == i
    requires last == if c.heading.Some? then TitleAt(lines, i, lines[i].numbered.value.rest).last else i
    ensures var t := s.(candidates := s.candidates + [c]); ToldUpTo(r, t, page, lines, last + 1) && SameElsewhere(s, t, page)
  {
    var t := s.(candidates := s.candidates + [c]);
    forall k | 0 <= k < |lines| && k <= last
      ensures Told(r, t, page, lines, k)
    {
      OneMoreCandidate(s.candidates, c, page, lines, k);
      if k < i {
        assert Told(r, s, page, lines, k);
      } else {
        assert Untold(s, page, lines, k);
      }
    }
    forall k: nat | k > last
      ensures Untold(t, page, lines, k)
    {
      OneMoreCandidate(s.candidates, c, page, lines, k);
      assert Untold(s, page, lines, k);
    }
  }

  lemma LineTells(r: Reader, s: Scan, page: nat, lines: seq<Line>, i: nat) returns (t: Scan, last: nat)
    requires i < |lines| && ToldUpTo(r, s, page, lines, i)
    ensures (t, last) == LineScan(r, s, page, IsList(r, lines), lines, i)
    ensures ToldUpTo(r, t, page, lines, last + 1) && SameElsewhere(s, t, page) && t.lists == s.lists
  {
    var told := LineScan(r, s, page, IsList(r, lines), lines, i);
    t, last := told.0, told.1;
    if r.HeadingSized(lines[i]) && lines[i].numbered.Some? && !IsList(r, lines) {
      CandidateOfLine(r, s.candidates, page, lines, i);
      CandidateLine(r, s, page, lines, i, CandidateAt(r, s.candidates, page, lines, i), last);
    } else {
      PassLine(r, s, t, page, lines, i);
    }
  }

  lemma SameTwice(s: Scan, t: Scan, u: Scan, page: nat)
    requires SameElsewhere(s, t, page) && SameElsewhere(t, u, page)
    ensures SameElsewhere(s, u, page)
  {
  }

  lemma {:induction false} PageTells(r: Reader, s: Scan, page: nat, lines: seq<Line>, i: nat)
    requires i <= |lines| && ToldUpTo(r, s, page, lines, i)
    ensures var t := PageScan(r, s, page, IsList(r, lines), lines, i);
            ToldUpTo(r, t, page, lines, |lines|) && SameElsewhere(s, t, page) && t.lists == s.lists
    decreases |lines| - i
  {
    if i < |lines| {
      var t, last := LineTells(r, s, page, lines, i);
      PageTells(r, t, page, lines, last + 1);
      SameTwice(s, t, PageScan(r, s, page, IsList(r, lines), lines, i), page);
    }
  }

  // ------------------------------------------------------------------------ the document

  /** Nothing is said of a page. */
  ghost predicate Unread(s: Scan, page: nat) {
    (forall c :: c in s.candidates ==> c.page != page) && (forall p :: p in s.subdivisions ==> p.page != page)
  }

  /** A page past the printed contents is told line by line, and of any other nothing is said. */
  ghost predicate PageToldIn(r: Reader, s: Scan, pages: seq<seq<Line>>, tocPageMax: int, page: nat)
    requires page < |pages|
  {
    if page > tocPageMax then ToldUpTo(r, s, page, pages[page], |pages[page]|) else Unread(s, page)
  }

  lemma UnreadStarts(r: Reader, s: Scan, page: nat, lines: seq<Line>)
    requires Unread(s, page)
    ensures ToldUpTo(r, s, page, lines, 0)
  {
  }

  lemma StillTold(r: Reader, s: Scan, t: Scan, q: nat, lines: seq<Line>, page: nat)
    requires q != page && SameElsewhere(s, t, page) && ToldUpTo(r, s, q, lines, |lines|)
    ensures ToldUpTo(r, t, q, lines, |lines|)
  {
    forall k: nat
      ensures PutForward(t.candidates, q, k) <==> PutForward(s.candidates, q, k)
      ensures ReadForTitle(t.candidates, q, lines, k) <==> ReadForTitle(s.candidates, q, lines, k)
    {
    }
    forall k | 0 <= k < |lines|
      ensures Told(r, t, q, lines, k)
    {
      assert Told(r, s, q, lines, k);
    }
    forall k: nat | k >= |lines|
      ensures Untold(t, q, lines, k)
    {
      assert Untold(s, q, lines, k);
    }
  }

  lemma StillUnread(s: Scan, t: Scan, q: nat, page: nat)
    requires q != page && SameElsewhere(s, t, page) && Unread(s, q)
    ensures Unread(t, q)
  {
  }

  lemma StillToldIn(r: Reader, s: Scan, t: Scan, pages: seq<seq<Line>>, tocPageMax: int, q: nat, page: nat)
    requires q < |pages| && q != page && SameElsewhere(s, t, page) && PageToldIn(r, s, pages, tocPageMax, q)
    ensures PageToldIn(r, t, pages, tocPageMax, q)
  {
    if q > tocPageMax {
      StillTold(r, s, t, q, pages[q], page);
    } else {
      StillUnread(s, t, q, page);
    }
  }

  lemma ListAside(r: Reader, s: Scan, page: nat, lines: seq<Line>, list: bool)
    requires Unread(s, page)
    ensures ToldUpTo(r, WithList(s, page, list), page, lines, 0)
    ensures SameElsewhere(s, WithList(s, page, list), page)
  {
    UnreadStarts(r, WithList(s, page, list), page, lines);
  }

  /** One page's scan, whatever was listed. */
  lemma PageScanTells(r: Reader, s: Scan, page: nat, lines: seq<Line>) returns (t: Scan)
    requires Unread(s, page)
    ensures t == PageScan(r, WithList(s, page, IsList(r, lines)), page, IsList(r, lines), lines, 0)
    ensures ToldUpTo(r, t, page, lines, |lines|) && SameElsewhere(s, t, page)
    ensures t.lists == s.lists + if IsList(r, lines) then [page + 1] else []
  {
    ListAside(r, s, page, lines, IsList(r, lines));
    var u := WithList(s, page, IsList(r, lines));
    PageTells(r, u, page, lines, 0);
    t := PageScan(r, u, page, IsList(r, lines), lines, 0);
    SameTwice(s, u, t, page);
    Nothing(s.lists);
  }

  ghost predicate DocumentTold(r: Reader, s: Scan, pages: seq<seq<Line>>, tocPageMax: int, n: nat)
    requires n <= |pages|
  {
    && (forall q: nat :: q < n ==> PageToldIn(r, s, pages, tocPageMax, q))
    && (forall q: nat :: q >= n ==> Unread(s, q))
    && (forall q :: q in s.lists <==> 0 < q <= n && q - 1 > tocPageMax && IsList(r, pages[q - 1]))
  }

  lemma DocumentStep(r: Reader, s: Scan, t: Scan, pages: seq<seq<Line>>, tocPageMax: int, n: nat)
    requires 0 < n <= |pages| && DocumentTold(r, s, pages, tocPageMax, n - 1)
    requires PageToldIn(r, t, pages, tocPageMax, n - 1) && SameElsewhere(s, t, n - 1)
    requires t.lists == s.lists + if n - 1 > tocPageMax && IsList(r, pages[n - 1]) then [n] else []
    ensures DocumentTold(r, t, pages, tocPageMax, n)
  {
    forall q: nat | q < n - 1
      ensures PageToldIn(r, t, pages, tocPageMax, q)
    {
      StillToldIn(r, s, t, pages, tocPageMax, q, n - 1);
    }
    forall q: nat | q >= n
      ensures Unread(t, q)
    {
      StillUnread(s, t, q, n - 1);
    }
  }

  /**
   What the scan makes of every line of a document: a line past the printed contents that
   was read for no title is a subdivision if it is set as a heading and has no number, and
   is put to the ordering rule if it has one and its page is no list; candidates and
   subdivisions are nothing else, and every list is listed.
   */
  lemma {:induction false} ScanTells(r: Reader, pages: seq<seq<Line>>, tocPageMax: int, n: nat)
    requires n <= |pages|
    ensures DocumentTold(r, DocumentScan(r, pages, tocPageMax, n), pages, tocPageMax, n)
  {
    if n > 0 {
      var s, page := DocumentScan(r, pages, tocPageMax, n - 1), n - 1;
      ScanTells(r, pages, tocPageMax, page);
      if page > tocPageMax {
        var t := PageScanTells(r, s, page, pages[page]);
        DocumentStep(r, s, t, pages, tocPageMax, n);
      } else {
        Nothing(s.lists);
        DocumentStep(r, s, s, pages, tocPageMax, n);
      }
    }
  }

  /** The headings and rejections of a scan are its candidates', one or the other of each. */
  lemma {:induction false} AnswersAre(cs: seq<Candidate>)
    ensures |Accepted(cs)| + |Rejected(cs)| == |cs|
    ensures forall h :: h in Accepted(cs) <==> exists c :: c in cs && c.heading == Some(h)
    ensures forall x :: x in Rejected(cs) <==> exists c :: c in cs && c.heading.None? && x == (c.page + 1, c.section)
  {
    if cs != [] {
      var init, last := cs[..|cs| - 1], cs[|cs| - 1];
      AnswersAre(init);
      assert forall c :: c in cs <==> c in init || c == last;
    }
  }
}
