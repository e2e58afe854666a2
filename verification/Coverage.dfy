/**
 The gaps a gutter is looked for in (coverage, gaps, middle and stretches of
 internal/adapter/pdf/columns.go): a count of lines for every point across
 the page, and the runs of points whose count is low enough.
 */
module Coverage {
  import opened Columns

  /** The points from start up to, but not at, end. */
  datatype Gap = Gap(start: int, end: int)

  // ------------------------------------------------------------------------ stretches

  ghost predicate AllKept(cover: seq<int>, keep: int -> bool, a: int, b: int) {
    0 <= a <= b <= |cover| && forall x :: a <= x < b ==> keep(cover[x])
  }

  /** A longest run of accepted points within g: it cannot be extended at either end. */
  ghost predicate IsRun(cover: seq<int>, g: Gap, keep: int -> bool, r: Gap)
    requires 0 <= g.start <= g.end <= |cover|
  {
    && g.start <= r.start < r.end <= g.end
    && AllKept(cover, keep, r.start, r.end)
    && (r.start == g.start || !keep(cover[r.start - 1]))
    && (r.end == g.end || !keep(cover[r.end]))
  }

  /** Runs in order, each apart from the next. */
  ghost predicate Apart(runs: seq<Gap>) {
    forall i, j :: 0 <= i < j < |runs| ==> runs[i].end < runs[j].start
  }

  /** The runs listed are those that end before x, x being outside any run. */
  ghost predicate RunsBefore(cover: seq<int>, g: Gap, keep: int -> bool, runs: seq<Gap>, x: int)
    requires 0 <= g.start <= g.end <= |cover|
  {
    && Apart(runs)
    && (forall i :: 0 <= i < |runs| ==> runs[i].end < x)
    && forall r :: r in runs <==> IsRun(cover, g, keep, r) && r.end < x
  }

  /** A run closes at x, the first point past those accepted from start on. */
  lemma CloseRun(cover: seq<int>, g: Gap, keep: int -> bool, runs: seq<Gap>, start: int, x: int)
    requires 0 <= g.start <= start < x <= g.end <= |cover| && RunsBefore(cover, g, keep, runs, start)
    requires AllKept(cover, keep, start, x) && (start == g.start || !keep(cover[start - 1]))
    requires x == g.end || !keep(cover[x])
    ensures RunsBefore(cover, g, keep, runs + [Gap(start, x)], x + 1)
  {
    var longer := runs + [Gap(start, x)];
    assert IsRun(cover, g, keep, Gap(start, x));
    forall r
      ensures r in longer <==> IsRun(cover, g, keep, r) && r.end < x + 1
    {
      if IsRun(cover, g, keep, r) && start <= r.end <= x {
        RunEnds(cover, g, keep, start, x, r);
      }
    }
  }

  /** A run that ends from start to x ends at x, and is the one from start. */
  lemma RunEnds(cover: seq<int>, g: Gap, keep: int -> bool, start: int, x: int, r: Gap)
    requires 0 <= g.start <= start < x <= g.end <= |cover|
    requires AllKept(cover, keep, start, x) && (start == g.start || !keep(cover[start - 1]))
    requires IsRun(cover, g, keep, r) && start <= r.end <= x
    ensures r == Gap(start, x)
  {
  }

  /** Nothing ends at a point whose own predecessor is not accepted. */
  lemma NoRunEnds(cover: seq<int>, g: Gap, keep: int -> bool, runs: seq<Gap>, x: int)
    requires 0 <= g.start <= x <= g.end <= |cover| && RunsBefore(cover, g, keep, runs, x)
    requires x == g.start || !keep(cover[x - 1])
    ensures RunsBefore(cover, g, keep, runs, x + 1)
  {
    forall r
      ensures IsRun(cover, g, keep, r) && r.end < x + 1 <==> IsRun(cover, g, keep, r) && r.end < x
    {
    }
  }

  /** What the scan knows on reaching x: the runs closed, and where an open one starts. */
  ghost predicate Scanned(cover: seq<int>, g: Gap, keep: int -> bool, runs: seq<Gap>, start: int, x: int)
    requires 0 <= g.start <= g.end <= |cover|
  {
    if start < 0 then
      RunsBefore(cover, g, keep, runs, x) && g.start <= x && (g.start < x <= g.end ==> !keep(cover[x - 1]))
    else
      && g.start <= start < x <= g.end && RunsBefore(cover, g, keep, runs, start)
      && AllKept(cover, keep, start, x) && (start == g.start || !keep(cover[start - 1]))
  }

  /** One pass with an open start finds every IsRun of g, in order. */
  method Stretches(cover: seq<int>, g: Gap, keep: int -> bool) returns (out: seq<Gap>)
    requires 0 <= g.start <= g.end <= |cover|
    ensures Apart(out) && forall r :: r in out <==> IsRun(cover, g, keep, r)
  {
    out := [];
    var start := -1;
    var x := g.start;
    while x <= g.end
      invariant g.start <= x <= g.end + 1 && (x == g.end + 1 ==> start < 0)
      invariant Scanned(cover, g, keep, out, start, x)
      decreases g.end - x
    {
      var inside := x < g.end && keep(cover[x]);
      if inside && start < 0 {
        start := x;
      } else if !inside && start >= 0 {
        CloseRun(cover, g, keep, out, start, x);
        out := out + [Gap(start, x)];
        start := -1;
      } else if start < 0 {
        NoRunEnds(cover, g, keep, out, x);
      }
      x := x + 1;
    }
  }

  // ---------------------------------------------------------------------------- gaps

  function AtMost(crossing: int): int -> bool {
    n => n <= crossing
  }

  function Exactly(least: int): int -> bool {
    n => n == least
  }

  ghost predicate IsGap(cover: seq<int>, crossing: int, g: Gap) {
    IsRun(cover, Gap(0, |cover|), AtMost(crossing), g) && g.start != 0 && g.end != |cover|
  }

  function Inner(gaps: seq<Gap>, width: int): seq<Gap> {
    if gaps == [] then []
    else Inner(gaps[..|gaps| - 1], width)
         + if gaps[|gaps| - 1].start == 0 || gaps[|gaps| - 1].end == width then [] else [gaps[|gaps| - 1]]
  }

  lemma {:induction false} InnerMeans(gaps: seq<Gap>, width: int)
    requires Apart(gaps)
    ensures Apart(Inner(gaps, width))
    ensures forall g :: g in Inner(gaps, width) <==> g in gaps && g.start != 0 && g.end != width
  {
    if gaps != [] {
      var init, last := gaps[..|gaps| - 1], gaps[|gaps| - 1];
      InnerMeans(init, width);
      assert gaps == init + [last];
      var kept := Inner(init, width);
      forall i | 0 <= i < |kept|
        ensures kept[i].end < last.start
      {
        assert kept[i] in init;
      }
    }
  }

  /** The runs of low count, less any that touches the first or last point. */
  method Gaps(cover: seq<int>, crossing: int) returns (out: seq<Gap>)
    ensures Apart(out) && forall g :: g in out <==> IsGap(cover, crossing, g)
  {
    var all := Stretches(cover, Gap(0, |cover|), AtMost(crossing));
    InnerMeans(all, |cover|);
    out := Inner(all, |cover|);
  }

  /** The least count over a stretch: some point has it and none has less. */
  ghost predicate IsLeast(cover: seq<int>, g: Gap, least: int)
    requires 0 <= g.start <= g.end <= |cover|
  {
    && (exists x :: g.start <= x < g.end && cover[x] == least)
    && forall x :: g.start <= x < g.end ==> least <= cover[x]
  }

  method Least(cover: seq<int>, g: Gap) returns (least: int)
    requires 0 <= g.start < g.end <= |cover|
    ensures IsLeast(cover, g, least)
  {
    least := cover[g.start];
    ghost var at := g.start;
    for x := g.start + 1 to g.end
      invariant g.start <= at < x && cover[at] == least && forall y :: g.start <= y < x ==> least <= cover[y]
    {
      if cover[x] < least {
        least, at := cover[x], x;
      }
    }
  }

  lemma {:induction false} RunFrom(cover: seq<int>, g: Gap, keep: int -> bool, a: int, b: int) returns (r: Gap)
    requires 0 <= g.start <= a < b <= g.end <= |cover| && AllKept(cover, keep, a, b)
    ensures IsRun(cover, g, keep, r) && r.start <= a && b <= r.end
    decreases a - g.start + g.end - b
  {
    if a > g.start && keep(cover[a - 1]) {
      r := RunFrom(cover, g, keep, a - 1, b);
    } else if b < g.end && keep(cover[b]) {
      r := RunFrom(cover, g, keep, a, b + 1);
    } else {
      r := Gap(a, b);
    }
  }

  function Width(g: Gap): int {
    g.end - g.start
  }

  /** w is the first of the widest runs of the points of g that the fewest lines cover. */
  ghost predicate IsWidest(cover: seq<int>, g: Gap, least: int, w: Gap)
    requires 0 <= g.start <= g.end <= |cover|
  {
    && IsRun(cover, g, Exactly(least), w)
    && forall r :: IsRun(cover, g, Exactly(least), r) ==> Width(r) < Width(w) || (Width(r) == Width(w) && w.start <= r.start)
  }

  ghost predicate IsMiddle(cover: seq<int>, g: Gap, mid: real)
    requires 0 <= g.start <= g.end <= |cover|
  {
    exists least, w :: IsWidest(cover, g, least, w) && IsLeast(cover, g, least) && mid == (w.start + w.end) as real / 2.0
  }

  /** The first widest of runs, of which there is one. */
  method WidestOf(runs: seq<Gap>) returns (w: Gap)
    requires runs != [] && Apart(runs) && forall i :: 0 <= i < |runs| ==> runs[i].start < runs[i].end
    ensures w in runs && forall r :: r in runs ==> Width(r) < Width(w) || (Width(r) == Width(w) && w.start <= r.start)
  {
    w := runs[0];
    for i := 1 to |runs|
      invariant exists j :: 0 <= j < i && runs[j] == w
      invariant forall j :: 0 <= j < i ==> Width(runs[j]) < Width(w) || (Width(runs[j]) == Width(w) && w.start <= runs[j].start)
    {
      if Width(runs[i]) > Width(w) {
        w := runs[i];
      }
    }
  }

  /**
   Halfway across the first widest run of least count. The least count is some point's,
   so the list of runs is never empty.
   */
  method Middle(cover: seq<int>, g: Gap) returns (mid: real)
    requires 0 <= g.start < g.end <= |cover|
    ensures IsMiddle(cover, g, mid)
  {
    var fewest := Least(cover, g);
    ghost var at: int :| g.start <= at < g.end && cover[at] == fewest;
    var runs := Stretches(cover, g, Exactly(fewest));
    ghost var some := RunFrom(cover, g, Exactly(fewest), at, at + 1);
    assert some in runs;
    forall i | 0 <= i < |runs|
      ensures runs[i].start < runs[i].end
    {
      assert IsRun(cover, g, Exactly(fewest), runs[i]);
    }
    var widest := WidestOf(runs);
    assert IsWidest(cover, g, fewest, widest);
    mid := (widest.start + widest.end) as real / 2.0;
  }

  // ------------------------------------------------------------------------- coverage

  function Ceil(r: real): int {
    -((-r).Floor)
  }

  /** The points a line covers, from the leftmost edge, as the loop bounds them. */
  function From(ln: LaidLine, left: real): int {
    var x := (ln.x0 - left).Floor;
    if x < 0 then 0 else x
  }

  function To(ln: LaidLine, left: real, width: int): int {
    var x := Ceil(ln.right - left);
    if x < width then x else width
  }

  predicate Covers(ln: LaidLine, left: real, width: int, x: int) {
    From(ln, left) <= x < To(ln, left, width)
  }

  /** How many of the first n lines cover a point. */
  function Count(lines: seq<LaidLine>, n: nat, left: real, width: int, x: int): nat
    requires n <= |lines|
  {
    if n == 0 then 0 else Count(lines, n - 1, left, width, x) + if Covers(lines[n - 1], left, width, x) then 1 else 0
  }

  method Edges(lines: seq<LaidLine>) returns (left: real, right: real)
    requires lines != [] && forall i :: 0 <= i < |lines| ==> lines[i].x0 <= lines[i].right
    ensures left <= right && forall i :: 0 <= i < |lines| ==> left <= lines[i].x0 && lines[i].right <= right
    ensures (exists i :: 0 <= i < |lines| && lines[i].x0 == left) && exists i :: 0 <= i < |lines| && lines[i].right == right
  {
    left, right := lines[0].x0, lines[0].right;
    for i := 1 to |lines|
      invariant left <= right && forall j :: 0 <= j < i ==> left <= lines[j].x0 && lines[j].right <= right
      invariant (exists j :: 0 <= j < i && lines[j].x0 == left) && exists j :: 0 <= j < i && lines[j].right == right
    {
      left := if lines[i].x0 < left then lines[i].x0 else left;
      right := if lines[i].right > right then lines[i].right else right;
    }
  }

  /** Point x of the result is Count there; the points start at the least x0 of the lines. */
  method CoverageOf(lines: seq<LaidLine>) returns (cover: seq<int>, left: real)
    requires lines != [] && forall i :: 0 <= i < |lines| ==> lines[i].x0 <= lines[i].right
    ensures forall i :: 0 <= i < |lines| ==> left <= lines[i].x0 && Ceil(lines[i].right - left) <= |cover|
    ensures exists i :: 0 <= i < |lines| && lines[i].x0 == left
    ensures exists i :: 0 <= i < |lines| && Ceil(lines[i].right - left) == |cover|
    ensures forall x :: 0 <= x < |cover| ==> cover[x] == Count(lines, |lines|, left, |cover|, x)
  {
    var right;
    left, right := Edges(lines);
    var width := Ceil(right - left);
    var counts := new int[width](_ => 0);
    for i := 0 to |lines|
      invariant forall x :: 0 <= x < width ==> counts[x] == Count(lines, i, left, width, x)
    {
      CoverOne(counts, lines, i, left);
    }
    cover := counts[..];
  }

  /** Adds one line to the counts. */
  method CoverOne(counts: array<int>, lines: seq<LaidLine>, i: nat, left: real)
    requires i < |lines|
    requires forall x :: 0 <= x < counts.Length ==> counts[x] == Count(lines, i, left, counts.Length, x)
    modifies counts
    ensures forall x :: 0 <= x < counts.Length ==> counts[x] == Count(lines, i + 1, left, counts.Length, x)
  {
    var from, to := From(lines[i], left), To(lines[i], left, counts.Length);
    var x := from;
    while x < to
      invariant from <= x && (x <= to || x == from)
      invariant forall y :: 0 <= y < counts.Length ==>
        counts[y] == Count(lines, i, left, counts.Length, y) + if from <= y < x then 1 else 0
    {
      counts[x] := counts[x] + 1;
      x := x + 1;
    }
    forall y | 0 <= y < counts.Length
      ensures counts[y] == Count(lines, i + 1, left, counts.Length, y)
    {
      assert Covers(lines[i], left, counts.Length, y) <==> from <= y < x;
    }
  }

  // --------------------------------------------------------- what the middle of a gap means

  /** How many of the first n lines cross a gutter at mid. */
  function CrossingCount(lines: seq<LaidLine>, n: nat, mid: real): nat
    requires n <= |lines|
  {
    if n == 0 then 0 else CrossingCount(lines, n - 1, mid) + if Crosses(lines[n - 1], mid) then 1 else 0
  }

  /** A line that crosses a gutter covers the point the gutter is at. */
  lemma CrossingCovers(ln: LaidLine, left: real, width: int, x: int, mid: real)
    requires left <= ln.x0 && Ceil(ln.right - left) <= width && 0 <= x
    requires left + x as real <= mid < left + x as real + 1.0 && Crosses(ln, mid)
    ensures Covers(ln, left, width, x)
  {
    var from, to := (ln.x0 - left).Floor, Ceil(ln.right - left);
    assert from as real <= ln.x0 - left < x as real + 1.0;
    assert to as real >= ln.right - left > x as real;
  }

  lemma {:induction false} CrossingsCovered(lines: seq<LaidLine>, n: nat, left: real, width: int, x: int, mid: real)
    requires n <= |lines| && 0 <= x
    requires forall i :: 0 <= i < n ==> left <= lines[i].x0 && Ceil(lines[i].right - left) <= width
    requires left + x as real <= mid < left + x as real + 1.0
    ensures CrossingCount(lines, n, mid) <= Count(lines, n, left, width, x)
  {
    if n > 0 {
      CrossingsCovered(lines, n - 1, left, width, x, mid);
      if Crosses(lines[n - 1], mid) {
        CrossingCovers(lines[n - 1], left, width, x, mid);
      }
    }
  }

  lemma GapIsLow(cover: seq<int>, crossing: int, g: Gap, x: int)
    requires IsGap(cover, crossing, g) && g.start <= x < g.end
    ensures 0 <= x < |cover| && cover[x] <= crossing
  {
    assert AtMost(crossing)(cover[x]);
  }

  /** The centre of a run falls on one of its points. */
  lemma MiddleCell(w: Gap, mid: real) returns (x: int)
    requires w.start < w.end && mid == (w.start + w.end) as real / 2.0
    ensures w.start <= x < w.end && x as real <= mid < x as real + 1.0
  {
    x := (w.start + w.end) / 2;
  }

  lemma MiddleInside(cover: seq<int>, g: Gap, mid: real) returns (x: int)
    requires 0 <= g.start <= g.end <= |cover| && IsMiddle(cover, g, mid)
    ensures g.start <= x < g.end && x as real <= mid < x as real + 1.0
  {
    var least, w :| IsWidest(cover, g, least, w) && IsLeast(cover, g, least) && mid == (w.start + w.end) as real / 2.0;
    x := MiddleCell(w, mid);
  }

  /** At the middle of a gap at most as many lines cross as the gap was found for. */
  lemma MiddleCrossings(lines: seq<LaidLine>, cover: seq<int>, left: real, crossing: int, g: Gap, mid: real)
    requires forall i :: 0 <= i < |lines| ==> left <= lines[i].x0 && Ceil(lines[i].right - left) <= |cover|
    requires forall x :: 0 <= x < |cover| ==> cover[x] == Count(lines, |lines|, left, |cover|, x)
    requires IsGap(cover, crossing, g) && IsMiddle(cover, g, mid)
    ensures CrossingCount(lines, |lines|, left + mid) <= crossing
  {
    var x := MiddleInside(cover, g, mid);
    GapIsLow(cover, crossing, g, x);
    CrossingsCovered(lines, |lines|, left, |cover|, x, left + mid);
  }
}
