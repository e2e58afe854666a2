/**
 Telling page furniture by how often it repeats at one height
 (internal/adapter/pdf/fonts.go). A window slides over the positions in order of
 height; what it finds is proved to be the best over every share of the positions
 that lie within SPREAD of each other.
 */
module Furniture {
  import opened Sorting

  datatype PageTop = PageTop(page: int, y: real)

  const SPREAD := 6.0
  const MIN_PAGES := 8

  function Height(): PageTop -> real {
    (p: PageTop) => p.y
  }

  function Positions(at: seq<PageTop>): set<PageTop> {
    set p | p in at
  }

  function PagesOf(share: set<PageTop>): set<int> {
    set p | p in share :: p.page
  }

  /** All of the share lie within SPREAD of each other. */
  ghost predicate Level(share: set<PageTop>) {
    forall a, b :: a in share && b in share ==> a.y - b.y <= SPREAD
  }

  // -------------------------------------------------------------- windows of a sorted run

  ghost predicate InHeightOrder(s: seq<PageTop>) {
    forall i, j :: 0 <= i < j < |s| ==> s[i].y <= s[j].y
  }

  function PagesIn(s: seq<PageTop>, a: nat, b: nat): set<int>
    requires b <= |s|
  {
    set k | a <= k < b :: s[k].page
  }

  predicate Within(s: seq<PageTop>, j: nat, i: nat) {
    j <= i < |s| && s[i].y - s[j].y <= SPREAD
  }

  ghost predicate AllFar(s: seq<PageTop>, start: nat, i: nat) {
    forall j :: 0 <= j < start ==> !Within(s, j, i)
  }

  /** No window over the first n positions has more pages than best. */
  ghost predicate Bounds(s: seq<PageTop>, n: nat, best: nat)
    requires n <= |s|
  {
    forall j: nat, i: nat :: i < n && Within(s, j, i) ==> |PagesIn(s, j, i + 1)| <= best
  }

  ghost predicate Attains(s: seq<PageTop>, best: nat) {
    best == 0 || exists j: nat, i: nat :: Within(s, j, i) && |PagesIn(s, j, i + 1)| == best
  }

  lemma Smaller(a: set<int>, b: set<int>)
    requires a <= b
    ensures |a| <= |b|
  {
    assert b == a + (b - a);
    assert |b| == |a| + |b - a|;
  }

  /** The widest window ending at i bounds the others. */
  lemma WidestBounds(s: seq<PageTop>, start: nat, i: nat, best: nat, better: nat)
    requires InHeightOrder(s) && i < |s| && Bounds(s, i, best)
    requires Within(s, start, i) && AllFar(s, start, i)
    requires better == if best < |PagesIn(s, start, i + 1)| then |PagesIn(s, start, i + 1)| else best
    ensures Bounds(s, i + 1, better)
  {
    forall j: nat, k: nat | k < i + 1 && Within(s, j, k)
      ensures |PagesIn(s, j, k + 1)| <= better
    {
      if k == i {
        Smaller(PagesIn(s, j, i + 1), PagesIn(s, start, i + 1));
      }
    }
  }

  /** A level share fits in one window. */
  lemma ShareFits(s: seq<PageTop>, share: set<PageTop>, best: nat)
    requires InHeightOrder(s) && Bounds(s, |s|, best) && Level(share) && share <= Positions(s)
    ensures |PagesOf(share)| <= best
  {
    if share == {} {
      assert PagesOf(share) == {};
    } else {
      var first, last := Ends(s, share);
      assert Within(s, first, last);
      forall page | page in PagesOf(share)
        ensures page in PagesIn(s, first, last + 1)
      {
        var p :| p in share && p.page == page;
        var k :| 0 <= k < |s| && s[k] == p;
      }
      Smaller(PagesOf(share), PagesIn(s, first, last + 1));
    }
  }

  /** The first and last indices of a share. */
  lemma Ends(s: seq<PageTop>, share: set<PageTop>) returns (first: nat, last: nat)
    requires share != {} && share <= Positions(s)
    ensures first <= last < |s| && s[first] in share && s[last] in share
    ensures forall k :: 0 <= k < |s| && s[k] in share ==> first <= k <= last
  {
    var p :| p in share;
    assert p in Positions(s);
    first, last := 0, |s| - 1;
    while s[first] !in share
      invariant first < |s| && (forall k :: 0 <= k < first ==> s[k] !in share) && exists k :: first <= k < |s| && s[k] in share
      decreases |s| - first
    {
      first := first + 1;
    }
    while s[last] !in share
      invariant first <= last < |s| && forall k :: last < k < |s| ==> s[k] !in share
      decreases last
    {
      last := last - 1;
    }
  }

  /** A window is a level share. */
  lemma WindowIsLevel(s: seq<PageTop>, best: nat) returns (share: set<PageTop>)
    requires InHeightOrder(s) && Attains(s, best)
    ensures share <= Positions(s) && Level(share) && |PagesOf(share)| == best
  {
    if best == 0 {
      share := {};
      assert PagesOf(share) == {};
    } else {
      var j: nat, i: nat :| Within(s, j, i) && |PagesIn(s, j, i + 1)| == best;
      share := WindowShare(s, j, i + 1);
      WindowPages(s, j, i + 1);
      WindowLevel(s, j, i);
    }
  }

  lemma WindowLevel(s: seq<PageTop>, j: nat, i: nat)
    requires InHeightOrder(s) && Within(s, j, i)
    ensures Level(WindowShare(s, j, i + 1))
  {
    var share := WindowShare(s, j, i + 1);
    forall a, b | a in share && b in share
      ensures a.y - b.y <= SPREAD
    {
      var k :| j <= k < i + 1 && s[k] == a;
      var l :| j <= l < i + 1 && s[l] == b;
      assert s[k].y <= s[i].y && s[j].y <= s[l].y;
    }
  }

  function WindowShare(s: seq<PageTop>, a: nat, b: nat): set<PageTop>
    requires b <= |s|
  {
    set k | a <= k < b :: s[k]
  }

  lemma WindowPages(s: seq<PageTop>, a: nat, b: nat)
    requires b <= |s|
    ensures PagesOf(WindowShare(s, a, b)) == PagesIn(s, a, b)
  {
    forall page | page in PagesIn(s, a, b)
      ensures page in PagesOf(WindowShare(s, a, b))
    {
      var k :| a <= k < b && s[k].page == page;
      assert s[k] in WindowShare(s, a, b);
    }
  }

  // ------------------------------------------------------------------ the sliding window

  function Count(s: seq<PageTop>, a: nat, b: nat, page: int): nat
    requires b <= |s|
  {
    if b <= a then 0 else Count(s, a, b - 1, page) + if s[b - 1].page == page then 1 else 0
  }

  lemma {:induction false} CountFront(s: seq<PageTop>, a: nat, b: nat, page: int)
    requires a < b <= |s|
    ensures Count(s, a, b, page) == Count(s, a + 1, b, page) + if s[a].page == page then 1 else 0
  {
    if a + 1 < b {
      CountFront(s, a, b - 1, page);
    }
  }

  lemma {:induction false} CountMeans(s: seq<PageTop>, a: nat, b: nat, page: int)
    requires b <= |s|
    ensures Count(s, a, b, page) > 0 <==> page in PagesIn(s, a, b)
  {
    if a < b {
      CountMeans(s, a, b - 1, page);
      if page in PagesIn(s, a, b) {
        var k :| a <= k < b && s[k].page == page;
        assert k < b - 1 ==> page in PagesIn(s, a, b - 1);
      }
    }
  }

  /** The map holds how often each page occurs in the window, and no page that does not. */
  ghost predicate Tallies(inWindow: map<int, int>, s: seq<PageTop>, a: nat, b: nat)
    requires b <= |s|
  {
    forall page :: (page in inWindow <==> Count(s, a, b, page) > 0) && (page in inWindow ==> inWindow[page] == Count(s, a, b, page))
  }

  lemma TalliesPages(inWindow: map<int, int>, s: seq<PageTop>, a: nat, b: nat)
    requires b <= |s| && Tallies(inWindow, s, a, b)
    ensures inWindow.Keys == PagesIn(s, a, b)
  {
    forall page
      ensures page in inWindow <==> page in PagesIn(s, a, b)
    {
      CountMeans(s, a, b, page);
    }
  }

  /** Takes one position out of the window, and its page with the last of it. */
  method Leave(inWindow: map<int, int>, s: seq<PageTop>, start: nat, b: nat) returns (left: map<int, int>)
    requires start < b <= |s| && Tallies(inWindow, s, start, b)
    ensures Tallies(left, s, start + 1, b)
  {
    var page := s[start].page;
    forall other
      ensures Count(s, start, b, other) == Count(s, start + 1, b, other) + if page == other then 1 else 0
    {
      CountFront(s, start, b, other);
    }
    left := inWindow[page := inWindow[page] - 1];
    if left[page] == 0 {
      left := left - {page};
    }
  }

  /** Takes position i into the window, and out those now too far above it. */
  method Slide(inWindow: map<int, int>, s: seq<PageTop>, start: nat, i: nat) returns (slid: map<int, int>, next: nat)
    requires start <= i < |s| && Tallies(inWindow, s, start, i) && AllFar(s, start, i)
    ensures Within(s, next, i) && Tallies(slid, s, next, i + 1) && AllFar(s, next, i)
  {
    var page := s[i].page;
    slid, next := inWindow[page := (if page in inWindow then inWindow[page] else 0) + 1], start;
    while s[i].y - s[next].y > SPREAD
      invariant next <= i && AllFar(s, next, i) && Tallies(slid, s, next, i + 1)
      decreases i - next
    {
      slid := Leave(slid, s, next, i + 1);
      next := next + 1;
    }
  }

  lemma StillFar(s: seq<PageTop>, start: nat, i: nat)
    requires InHeightOrder(s) && start <= i < |s| && AllFar(s, start, i)
    ensures AllFar(s, start, i + 1)
  {
    var next := i + 1;
    forall j | 0 <= j < start
      ensures !Within(s, j, next)
    {
      if next < |s| {
        assert !Within(s, j, i) && s[i].y <= s[next].y;
      }
    }
  }

  /** The most pages of any window of a run in height order. */
  method WidestWindow(s: seq<PageTop>) returns (best: nat)
    requires InHeightOrder(s)
    ensures Bounds(s, |s|, best) && Attains(s, best)
  {
    var inWindow: map<int, int> := map[];
    var start: nat := 0;
    best := 0;
    for i := 0 to |s|
      invariant start <= i && AllFar(s, start, i)
      invariant Tallies(inWindow, s, start, i) && Bounds(s, i, best) && Attains(s, best)
    {
      inWindow, start := Slide(inWindow, s, start, i);
      TalliesPages(inWindow, s, start, i + 1);
      ghost var before := best;
      best := if best < |inWindow.Keys| then |inWindow.Keys| else best;
      WidestBounds(s, start, i, before, best);
      StillFar(s, start, i);
    }
  }

  /** The sliding window, over sorted heights, finds the most pages any level share has. */
  method PagesAtOneHeight(at: seq<PageTop>) returns (best: nat)
    ensures forall share :: share <= Positions(at) && Level(share) ==> |PagesOf(share)| <= best
    ensures exists share :: share <= Positions(at) && Level(share) && |PagesOf(share)| == best
  {
    var s := SortBy(at, Height());
    SortedByHeight(at);
    best := WidestWindow(s);
    var share := WindowIsLevel(s, best);
    forall other | other <= Positions(at) && Level(other)
      ensures |PagesOf(other)| <= best
    {
      ShareFits(s, other, best);
    }
  }

  lemma SortedByHeight(at: seq<PageTop>)
    ensures InHeightOrder(SortBy(at, Height())) && Positions(SortBy(at, Height())) == Positions(at)
  {
    var s := SortBy(at, Height());
    SortSorts(at, Height());
    forall i, j | 0 <= i < j < |s|
      ensures s[i].y <= s[j].y
    {
      assert Height()(s[i]) <= Height()(s[j]);
    }
    forall p
      ensures p in s <==> p in at
    {
      assert p in s <==> p in multiset(s);
      assert p in at <==> p in multiset(at);
    }
  }

  // ------------------------------------------------------------------ what is furniture

  method DistinctPages(at: seq<PageTop>) returns (n: nat)
    ensures n == |PagesOf(Positions(at))|
  {
    var pages: set<int> := {};
    for i := 0 to |at|
      invariant pages == PagesIn(at, 0, i)
    {
      pages := pages + {at[i].page};
    }
    assert PagesIn(at, 0, |at|) == PagesOf(Positions(at)) by {
      forall page | page in PagesIn(at, 0, |at|)
        ensures page in PagesOf(Positions(at))
      {
        var k :| 0 <= k < |at| && at[k].page == page;
        assert at[k] in Positions(at);
      }
    }
    n := |pages|;
  }

  /** A line's normalized form: whether it has a letter, and where the lines below heading size with it sit. */
  datatype Repeat = Repeat(lettered: bool, at: seq<PageTop>)

  function Threshold(pages: nat): nat {
    if pages / 4 < 3 then 3 else pages / 4
  }

  /** Some share of the repeats covers the threshold: any share with a letter, a level one without. */
  ghost predicate Repeats(r: Repeat, threshold: nat) {
    exists share :: share <= Positions(r.at) && (r.lettered || Level(share)) && |PagesOf(share)| >= threshold
  }

  lemma AllPages(at: seq<PageTop>, share: set<PageTop>)
    requires share <= Positions(at)
    ensures |PagesOf(share)| <= |PagesOf(Positions(at))|
  {
    Smaller(PagesOf(share), PagesOf(Positions(at)));
  }

  method IsFurniture(r: Repeat, threshold: nat) returns (found: bool)
    ensures found <==> Repeats(r, threshold)
  {
    var onPages := DistinctPages(r.at);
    if !r.lettered {
      onPages := PagesAtOneHeight(r.at);
    } else {
      forall share | share <= Positions(r.at)
        ensures |PagesOf(share)| <= onPages
      {
        AllPages(r.at, share);
      }
    }
    found := onPages >= threshold;
  }

  /** The keys whose repeats cover enough pages; none in a document under MIN_PAGES. */
  method DetectBoilerplate(pages: nat, lines: map<string, Repeat>) returns (found: set<string>)
    ensures found == set key | key in lines && pages >= MIN_PAGES && Repeats(lines[key], Threshold(pages))
  {
    found := {};
    if pages < MIN_PAGES {
      return;
    }
    var left := lines.Keys;
    while left != {}
      invariant left <= lines.Keys
      invariant forall key :: key in found <==> key in lines && key !in left && Repeats(lines[key], Threshold(pages))
    {
      var key :| key in left;
      var repeats := IsFurniture(lines[key], Threshold(pages));
      if repeats {
        found := found + {key};
      }
      left := left - {key};
    }
  }
}
