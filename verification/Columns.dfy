/**
 Reading a page in columns (internal/adapter/pdf/columns.go): the order its lines
 are read in once a gutter is known. Where the gutters are is an oracle here;
 Coverage models the gaps they are looked for in.
 */
module Columns {

  datatype LaidLine = LaidLine(x0: real, right: real, text: string)

  datatype Side = Crossing | Left | Right

  /** Left or right of mid when all of the line is, and else crossing. */
  function SideOf(ln: LaidLine, mid: real): Side {
    if ln.right <= mid then Left else if ln.x0 >= mid then Right else Crossing
  }

  /** The middle of the gutter dividing some lines, for those lines that have one. */
  type Gutters = map<seq<LaidLine>, real>

  const MAX_DEPTH: nat := 2

  // ---------------------------------------------------------------- the reading order

  /** What a gutter divides lines into: columns, and lines across them. */
  datatype Piece = Column(lines: seq<LaidLine>) | Across(ln: LaidLine)

  /** The pieces closed so far, and the two columns open since. */
  datatype Sweep = Sweep(closed: seq<Piece>, left: seq<LaidLine>, right: seq<LaidLine>)

  function Flushed(s: Sweep): seq<Piece> {
    s.closed + [Column(s.left), Column(s.right)]
  }

  /** A line joins its column, or closes both and stands after them. */
  function Swept(s: Sweep, ln: LaidLine, mid: real): Sweep {
    match SideOf(ln, mid)
    case Left => s.(left := s.left + [ln])
    case Right => s.(right := s.right + [ln])
    case Crossing => Sweep(Flushed(s) + [Across(ln)], [], [])
  }

  function SweepRun(lines: seq<LaidLine>, n: nat, mid: real): Sweep
    requires n <= |lines|
  {
    if n == 0 then Sweep([], [], []) else Swept(SweepRun(lines, n - 1, mid), lines[n - 1], mid)
  }

  function Pieces(lines: seq<LaidLine>, mid: real): seq<Piece> {
    Flushed(SweepRun(lines, |lines|, mid))
  }

  /** The reading order: as they came, unless a gutter divides the lines. */
  function InColumns(lines: seq<LaidLine>, depth: nat, gutters: Gutters): seq<LaidLine>
    decreases depth, 0, 0
  {
    if depth == 0 || lines !in gutters then lines else ReadPieces(Pieces(lines, gutters[lines]), depth - 1, gutters)
  }

  /** The pieces in turn, each column in its own order. */
  function ReadPieces(pieces: seq<Piece>, depth: nat, gutters: Gutters): seq<LaidLine>
    decreases depth, 2, |pieces|
  {
    if pieces == [] then []
    else ReadPieces(pieces[..|pieces| - 1], depth, gutters) + ReadPiece(pieces[|pieces| - 1], depth, gutters)
  }

  function ReadPiece(piece: Piece, depth: nat, gutters: Gutters): seq<LaidLine>
    decreases depth, 1, 0
  {
    match piece
    case Column(lines) => InColumns(lines, depth, gutters)
    case Across(ln) => [ln]
  }

  lemma ReadSnoc(pieces: seq<Piece>, piece: Piece, depth: nat, gutters: Gutters)
    ensures ReadPieces(pieces + [piece], depth, gutters) == ReadPieces(pieces, depth, gutters) + ReadPiece(piece, depth, gutters)
  {
    assert (pieces + [piece])[..|pieces|] == pieces;
  }

  lemma ReadFlushed(s: Sweep, depth: nat, gutters: Gutters)
    ensures ReadPieces(Flushed(s), depth, gutters) ==
            ReadPieces(s.closed, depth, gutters) + (InColumns(s.left, depth, gutters) + InColumns(s.right, depth, gutters))
  {
    ReadSnoc(s.closed, Column(s.left), depth, gutters);
    ReadSnoc(s.closed + [Column(s.left)], Column(s.right), depth, gutters);
    assert s.closed + [Column(s.left)] + [Column(s.right)] == Flushed(s);
  }

  // ----------------------------------------------------------------- a permutation

  /** The first n lines, as a bag. */
  function Bag(lines: seq<LaidLine>, n: nat): multiset<LaidLine>
    requires n <= |lines|
  {
    if n == 0 then multiset{} else Bag(lines, n - 1) + multiset{lines[n - 1]}
  }

  lemma {:induction false} BagIs(lines: seq<LaidLine>, n: nat)
    requires n <= |lines|
    ensures Bag(lines, n) == multiset(lines[..n])
  {
    if n > 0 {
      BagIs(lines, n - 1);
      assert lines[..n] == lines[..n - 1] + [lines[n - 1]];
    }
  }

  /** What is closed and what is open, as a bag. */
  function SweepBag(s: Sweep, depth: nat, gutters: Gutters): multiset<LaidLine> {
    multiset(ReadPieces(s.closed, depth, gutters)) + multiset(s.left) + multiset(s.right)
  }

  /** Flushing orders what is open and loses none of it. */
  lemma FlushPermutes(s: Sweep, depth: nat, gutters: Gutters)
    ensures multiset(ReadPieces(Flushed(s), depth, gutters)) == SweepBag(s, depth, gutters)
    decreases depth, 0, 1
  {
    InColumnsPermutes(s.left, depth, gutters);
    InColumnsPermutes(s.right, depth, gutters);
    ReadFlushed(s, depth, gutters);
  }

  lemma SweptBag(s: Sweep, ln: LaidLine, mid: real, depth: nat, gutters: Gutters)
    ensures SweepBag(Swept(s, ln, mid), depth, gutters) == SweepBag(s, depth, gutters) + multiset{ln}
    decreases depth, 1
  {
    assert multiset([ln]) == multiset{ln};
    if SideOf(ln, mid) == Crossing {
      FlushPermutes(s, depth, gutters);
      ReadSnoc(Flushed(s), Across(ln), depth, gutters);
    }
  }

  lemma {:induction false} SweepRunBag(lines: seq<LaidLine>, n: nat, mid: real, depth: nat, gutters: Gutters)
    requires n <= |lines|
    ensures SweepBag(SweepRun(lines, n, mid), depth, gutters) == Bag(lines, n)
    decreases depth, 2, n
  {
    if n > 0 {
      SweepRunBag(lines, n - 1, mid, depth, gutters);
      SweptBag(SweepRun(lines, n - 1, mid), lines[n - 1], mid, depth, gutters);
    }
  }

  /** The first n lines, flushed, are a permutation of themselves. */
  lemma FlushedPermutes(lines: seq<LaidLine>, n: nat, mid: real, depth: nat, gutters: Gutters)
    requires n <= |lines|
    ensures var read := ReadPieces(Flushed(SweepRun(lines, n, mid)), depth, gutters);
            multiset(read) == multiset(lines[..n]) && |read| == n
    decreases depth, 3
  {
    SweepRunBag(lines, n, mid, depth, gutters);
    FlushPermutes(SweepRun(lines, n, mid), depth, gutters);
    BagIs(lines, n);
    SameSize(ReadPieces(Flushed(SweepRun(lines, n, mid)), depth, gutters), lines[..n]);
  }

  lemma SameSize(a: seq<LaidLine>, b: seq<LaidLine>)
    requires multiset(a) == multiset(b)
    ensures |a| == |b|
  {
    assert |multiset(a)| == |a| && |multiset(b)| == |b|;
  }

  /** The reading order is a permutation of the page's lines. */
  lemma {:induction false} InColumnsPermutes(lines: seq<LaidLine>, depth: nat, gutters: Gutters)
    ensures multiset(InColumns(lines, depth, gutters)) == multiset(lines)
    decreases depth, 0, 0
  {
    if depth > 0 && lines in gutters {
      FlushedPermutes(lines, |lines|, gutters[lines], depth - 1, gutters);
      assert lines[..|lines|] == lines;
    }
  }

  // ------------------------------------------------------------- lines across the gutter

  /** The line lies on both sides of mid. */
  predicate Crosses(ln: LaidLine, mid: real) {
    ln.x0 < mid < ln.right
  }

  /** Line c is read at its own place, after just the lines above it. */
  ghost predicate Stays(out: seq<LaidLine>, lines: seq<LaidLine>, c: nat) {
    c < |out| && c < |lines| && out[c] == lines[c] && multiset(out[..c]) == multiset(lines[..c])
  }

  lemma StaysLonger(out: seq<LaidLine>, more: seq<LaidLine>, lines: seq<LaidLine>, c: nat)
    requires Stays(out, lines, c)
    ensures Stays(out + more, lines, c)
  {
    assert (out + more)[..c] == out[..c];
  }

  lemma StaysFlushed(s: Sweep, lines: seq<LaidLine>, c: nat, depth: nat, gutters: Gutters)
    requires Stays(ReadPieces(s.closed, depth, gutters), lines, c)
    ensures Stays(ReadPieces(Flushed(s), depth, gutters), lines, c)
  {
    ReadFlushed(s, depth, gutters);
    StaysLonger(ReadPieces(s.closed, depth, gutters),
                InColumns(s.left, depth, gutters) + InColumns(s.right, depth, gutters), lines, c);
  }

  /** What is read up to a crossing line is what stands above it, and the line keeps its place. */
  lemma {:induction false} CrossingStays(lines: seq<LaidLine>, n: nat, mid: real, depth: nat, gutters: Gutters, c: nat)
    requires c < n <= |lines| && SideOf(lines[c], mid) == Crossing
    ensures Stays(ReadPieces(SweepRun(lines, n, mid).closed, depth, gutters), lines, c)
    decreases n
  {
    var s, ln := SweepRun(lines, n - 1, mid), lines[n - 1];
    if SideOf(ln, mid) == Crossing {
      ReadSnoc(Flushed(s), Across(ln), depth, gutters);
    }
    if c == n - 1 {
      FlushedPermutes(lines, c, mid, depth, gutters);
    } else {
      CrossingStays(lines, n - 1, mid, depth, gutters, c);
      if SideOf(ln, mid) == Crossing {
        StaysFlushed(s, lines, c, depth, gutters);
        StaysLonger(ReadPieces(Flushed(s), depth, gutters), [ln], lines, c);
      }
    }
  }

  /** On a page with a gutter: a line crossing it keeps its place, and no line moves past it. */
  lemma ReadingKeepsCrossings(lines: seq<LaidLine>, gutters: Gutters, depth: nat, c: nat)
    requires depth > 0 && c < |lines| && lines in gutters && Crosses(lines[c], gutters[lines])
    ensures Stays(InColumns(lines, depth, gutters), lines, c)
  {
    CrossingStays(lines, |lines|, gutters[lines], depth - 1, gutters, c);
    StaysFlushed(SweepRun(lines, |lines|, gutters[lines]), lines, c, depth - 1, gutters);
  }

  /** The first n lines are swept the same whatever follows them. */
  lemma {:induction false} SweepSoFar(a: seq<LaidLine>, rest: seq<LaidLine>, n: nat, mid: real)
    requires n <= |a|
    ensures SweepRun(a + rest, n, mid) == SweepRun(a, n, mid)
  {
    if n > 0 {
      SweepSoFar(a, rest, n - 1, mid);
    }
  }

  /** After lines that end with a crossing one, the lines b are swept as on their own. */
  lemma {:induction false} SweepPast(a: seq<LaidLine>, b: seq<LaidLine>, n: nat, mid: real)
    requires n <= |b| && a != [] && SideOf(a[|a| - 1], mid) == Crossing
    ensures var s, t := SweepRun(b, n, mid), SweepRun(a + b, |a| + n, mid);
            t.left == s.left && t.right == s.right && t.closed == SweepRun(a, |a|, mid).closed + s.closed
  {
    if n == 0 {
      SweepSoFar(a, b, |a|, mid);
    } else {
      SweepPast(a, b, n - 1, mid);
      assert (a + b)[|a| + n - 1] == b[n - 1];
    }
  }

  /** A crossing line parts the page: what is above it is divided on its own, and so is what is below. */
  lemma CrossingParts(a: seq<LaidLine>, c: LaidLine, b: seq<LaidLine>, mid: real)
    requires Crosses(c, mid)
    ensures Pieces(a + [c] + b, mid) == Pieces(a, mid) + [Across(c)] + Pieces(b, mid)
  {
    SweepSoFar(a, [c], |a|, mid);
    SweepPast(a + [c], b, |b|, mid);
  }

  /** Of the first n lines those that end by mid, or those that do not. */
  function Ending(lines: seq<LaidLine>, n: nat, mid: real, byMid: bool): seq<LaidLine>
    requires n <= |lines|
  {
    if n == 0 then [] else Ending(lines, n - 1, mid, byMid) + if (lines[n - 1].right <= mid) == byMid then [lines[n - 1]] else []
  }

  lemma {:induction false} NothingCloses(lines: seq<LaidLine>, n: nat, mid: real)
    requires n <= |lines| && forall i :: 0 <= i < n ==> !Crosses(lines[i], mid)
    ensures SweepRun(lines, n, mid) == Sweep([], Ending(lines, n, mid, true), Ending(lines, n, mid, false))
  {
    if n > 0 {
      NothingCloses(lines, n - 1, mid);
    }
  }

  /** Where no line crosses, those that end by the gutter are read before the others, each in their own order. */
  lemma LeftBeforeRight(lines: seq<LaidLine>, mid: real)
    requires forall i :: 0 <= i < |lines| ==> !Crosses(lines[i], mid)
    ensures Pieces(lines, mid) == [Column(Ending(lines, |lines|, mid, true)), Column(Ending(lines, |lines|, mid, false))]
  {
    NothingCloses(lines, |lines|, mid);
  }

  /** On a page with a gutter that no line crosses, the left column is read, divided in turn, and then the right. */
  lemma ColumnsInTurn(lines: seq<LaidLine>, depth: nat, gutters: Gutters)
    requires depth > 0 && lines in gutters && forall i :: 0 <= i < |lines| ==> !Crosses(lines[i], gutters[lines])
    ensures InColumns(lines, depth, gutters) ==
            InColumns(Ending(lines, |lines|, gutters[lines], true), depth - 1, gutters)
            + InColumns(Ending(lines, |lines|, gutters[lines], false), depth - 1, gutters)
  {
    var s := SweepRun(lines, |lines|, gutters[lines]);
    NothingCloses(lines, |lines|, gutters[lines]);
    ReadFlushed(s, depth - 1, gutters);
    assert ReadPieces(s.closed, depth - 1, gutters) == [];
  }

  lemma {:induction false} ReadConcat(a: seq<Piece>, b: seq<Piece>, depth: nat, gutters: Gutters)
    ensures ReadPieces(a + b, depth, gutters) == ReadPieces(a, depth, gutters) + ReadPieces(b, depth, gutters)
    decreases |b|
  {
    if b == [] {
      assert a + b == a;
    } else {
      var init, last := b[..|b| - 1], b[|b| - 1];
      assert a + b == a + init + [last] && b == init + [last];
      ReadConcat(a, init, depth, gutters);
      ReadSnoc(a + init, last, depth, gutters);
      ReadSnoc(init, last, depth, gutters);
    }
  }

  /** A crossing line is read between what is above it and what is below, each divided on its own. */
  lemma CrossingBetween(a: seq<LaidLine>, c: LaidLine, b: seq<LaidLine>, mid: real, depth: nat, gutters: Gutters)
    requires Crosses(c, mid)
    ensures ReadPieces(Pieces(a + [c] + b, mid), depth, gutters) ==
            ReadPieces(Pieces(a, mid), depth, gutters) + [c] + ReadPieces(Pieces(b, mid), depth, gutters)
  {
    CrossingParts(a, c, b, mid);
    ReadSnoc(Pieces(a, mid), Across(c), depth, gutters);
    ReadConcat(Pieces(a, mid) + [Across(c)], Pieces(b, mid), depth, gutters);
  }

  // ------------------------------------------------------------------- as the loop does it

  /** The loop keeps two open columns and flushes them at each crossing line; its result is InColumns. */
  method ColumnOrder(lines: seq<LaidLine>, depth: nat, gutters: Gutters) returns (out: seq<LaidLine>)
    ensures out == InColumns(lines, depth, gutters)
    decreases depth, 1
  {
    if depth == 0 || lines !in gutters {
      return lines;
    }
    var mid := gutters[lines];
    out := [];
    var left, right := [], [];
    for i := 0 to |lines|
      invariant var s := SweepRun(lines, i, mid); left == s.left && right == s.right && out == ReadPieces(s.closed, depth - 1, gutters)
    {
      ghost var s := SweepRun(lines, i, mid);
      match SideOf(lines[i], mid) {
        case Left =>
          left := left + [lines[i]];
        case Right =>
          right := right + [lines[i]];
        case Crossing =>
          out := Flush(s, out, left, right, depth - 1, gutters);
          ReadSnoc(Flushed(s), Across(lines[i]), depth - 1, gutters);
          out := out + [lines[i]];
          left, right := [], [];
      }
    }
    out := Flush(SweepRun(lines, |lines|, mid), out, left, right, depth - 1, gutters);
  }

  /** Reads the columns gathered after what is out already, the left one first. */
  method Flush(ghost s: Sweep, out: seq<LaidLine>, left: seq<LaidLine>, right: seq<LaidLine>, depth: nat, gutters: Gutters)
    returns (more: seq<LaidLine>)
    requires out == ReadPieces(s.closed, depth, gutters) && left == s.left && right == s.right
    ensures more == ReadPieces(Flushed(s), depth, gutters)
    decreases depth, 2
  {
    var leftRead := ColumnOrder(left, depth, gutters);
    var rightRead := ColumnOrder(right, depth, gutters);
    ReadFlushed(s, depth, gutters);
    more := out + (leftRead + rightRead);
  }

  /** A page's lines for reading, to the depth the source splits columns to: each line once. */
  method ReadingOrder(lines: seq<LaidLine>, gutters: Gutters) returns (out: seq<LaidLine>)
    ensures out == InColumns(lines, MAX_DEPTH, gutters) && multiset(out) == multiset(lines)
    ensures lines !in gutters ==> out == lines
  {
    InColumnsPermutes(lines, MAX_DEPTH, gutters);
    out := ColumnOrder(lines, MAX_DEPTH, gutters);
  }
}
