/**
 A PDF's outline: flattening the bookmark tree (flattenOutline of
 internal/adapter/pdf/engine.go), renumbering it by nesting (outlineEntries of
 toc.go), and rendering a section's heading path (ancestors of text.go, outlinePath
 of emit.go). Every bookmark gets its child-index path from the root back.
 */
module Outline {
  import opened Text
  import opened Numerals
  import opened SectionKeys

  /** A bookmark; dest is the 0-based page it points at, if any. */
  datatype Mark = Mark(title: string, dest: Option<nat>, kids: seq<Mark>)

  datatype OutlineEntry = OutlineEntry(title: string, level: nat, page: int)

  datatype TocEntry = TocEntry(section: string, title: string, page: int)

  type Path = seq<nat>

  function PageOf(m: Mark): int {
    if m.dest.Some? then m.dest.value + 1 else -1
  }

  // ------------------------------------------------------------------ flattening

  function Flat(marks: seq<Mark>, level: nat): seq<OutlineEntry>
    decreases marks
  {
    if marks == [] then []
    else [OutlineEntry(marks[0].title, level, PageOf(marks[0]))] + Flat(marks[0].kids, level + 1) + Flat(marks[1..], level)
  }

  /** The recursion with an accumulator computes Flat. */
  method FlattenOutline(marks: seq<Mark>, level: nat, before: seq<OutlineEntry>) returns (out: seq<OutlineEntry>)
    ensures out == before + Flat(marks, level)
    decreases marks
  {
    out := before;
    ghost var goal := before + Flat(marks, level);
    assert marks[0..] == marks;
    for i := 0 to |marks|
      invariant goal == out + Flat(marks[i..], level)
    {
      var m := marks[i];
      var page := -1;
      if m.dest.Some? {
        page := m.dest.value + 1;
      }
      assert marks[i..][1..] == marks[i + 1..];
      ghost var rest := Flat(marks[i + 1..], level);
      var entry := OutlineEntry(m.title, level, page);
      assert out + ([entry] + Flat(m.kids, level + 1) + rest) == ((out + [entry]) + Flat(m.kids, level + 1)) + rest;
      out := out + [entry];
      out := FlattenOutline(m.kids, level + 1, out);
    }
    assert marks[|marks|..] == [];
  }

  // ----------------------------------------------------------------- renumbering

  function Render(path: Path): string {
    Join(Written(path), ".")
  }

  function Written(path: Path): seq<string> {
    if path == [] then [] else [Itoa(path[0])] + Written(path[1..])
  }

  function Zeros(n: nat): Path {
    seq(n, _ => 0)
  }

  /** The counters after an entry at a level, from one: cut or padded to it, and the last up by one. */
  function Counted(counters: Path, level: nat): Path {
    if level == 0 then counters else
    var cut := if |counters| > level then counters[..level] else counters + Zeros(level - |counters|);
    cut[level - 1 := cut[level - 1] + 1]
  }

  function Renumber(outline: seq<OutlineEntry>, counters: Path): seq<Path>
    decreases |outline|
  {
    if outline == [] then []
    else
      var c := Counted(counters, outline[0].level);
      [c] + Renumber(outline[1..], c)
  }

  function Entries(outline: seq<OutlineEntry>, paths: seq<Path>): seq<TocEntry>
    requires |outline| == |paths|
  {
    if outline == [] then []
    else [TocEntry(Render(paths[0]), Strip(outline[0].title), outline[0].page)] + Entries(outline[1..], paths[1..])
  }

  lemma {:induction false} RenumberLength(outline: seq<OutlineEntry>, counters: Path)
    ensures |Renumber(outline, counters)| == |outline|
    decreases |outline|
  {
    if outline != [] {
      RenumberLength(outline[1..], Counted(counters, outline[0].level));
    }
  }

  method RenderCounters(counters: Path) returns (section: string)
    ensures section == Render(counters)
  {
    var parts: seq<string> := [];
    assert counters[0..] == counters;
    for i := 0 to |counters|
      invariant Written(counters) == parts + Written(counters[i..])
    {
      assert counters[i..][1..] == counters[i + 1..];
      parts := parts + [Itoa(counters[i])];
    }
    assert counters[|counters|..] == [];
    assert parts == Written(counters);
    section := Join(parts, ".");
  }

  method Count(counters: Path, level: nat) returns (c: Path)
    requires level >= 1
    ensures c == Counted(counters, level)
  {
    c := counters;
    if |c| > level {
      c := c[..level];
    }
    ghost var start := c;
    while |c| < level
      invariant |start| <= |c| <= level || c == start
      invariant c == start + Zeros(|c| - |start|)
    {
      c := c + [0];
    }
    c := c[level - 1 := c[level - 1] + 1];
  }

  lemma EntriesStep(outline: seq<OutlineEntry>, paths: seq<Path>, i: nat)
    requires i < |outline| == |paths|
    ensures Entries(outline[i..], paths[i..]) ==
            [TocEntry(Render(paths[i]), Strip(outline[i].title), outline[i].page)] + Entries(outline[i + 1..], paths[i + 1..])
  {
    assert outline[i..][1..] == outline[i + 1..] && paths[i..][1..] == paths[i + 1..];
  }

  lemma RenumberStep(outline: seq<OutlineEntry>, paths: seq<Path>, counters: Path, i: nat)
    requires i < |outline| == |paths| && paths[i..] == Renumber(outline[i..], counters)
    ensures paths[i] == Counted(counters, outline[i].level) && paths[i + 1..] == Renumber(outline[i + 1..], paths[i])
  {
    assert outline[i..][1..] == outline[i + 1..] && paths[i..][1..] == paths[i + 1..] && paths[i..][0] == paths[i];
  }

  /** Each entry takes the counters its level leaves. */
  method OutlineEntries(outline: seq<OutlineEntry>) returns (entries: seq<TocEntry>)
    requires forall e :: e in outline ==> e.level >= 1
    ensures |Renumber(outline, [])| == |outline|
    ensures entries == Entries(outline, Renumber(outline, []))
  {
    RenumberLength(outline, []);
    entries := [];
    var counters: Path := [];
    ghost var paths := Renumber(outline, []);
    assert outline[0..] == outline && paths[0..] == paths;
    for i := 0 to |outline|
      invariant |paths| == |outline| && paths[i..] == Renumber(outline[i..], counters)
      invariant Entries(outline, paths) == entries + Entries(outline[i..], paths[i..])
    {
      var e := outline[i];
      assert e in outline;
      RenumberStep(outline, paths, counters, i);
      EntriesStep(outline, paths, i);
      counters := Count(counters, e.level);
      var section := RenderCounters(counters);
      entries := entries + [TocEntry(section, Strip(e.title), e.page)];
    }
    assert outline[|outline|..] == [];
  }

  // ------------------------------------------------ what the numbers are meant to be

  /** A bookmark and where it stands: its child indices from the root, each from one. */
  datatype Placed = Placed(path: Path, mark: Mark)

  /** The tree's bookmarks depth first, those before marks being n siblings under prefix. */
  function Positions(marks: seq<Mark>, prefix: Path, n: nat): seq<Placed>
    decreases marks
  {
    if marks == [] then []
    else
      var here := prefix + [n + 1];
      [Placed(here, marks[0])] + Positions(marks[0].kids, here, 0) + Positions(marks[1..], prefix, n + 1)
  }

  function PathsOf(placed: seq<Placed>): seq<Path> {
    if placed == [] then [] else [placed[0].path] + PathsOf(placed[1..])
  }

  lemma {:induction false} PathsConcat(a: seq<Placed>, b: seq<Placed>)
    ensures PathsOf(a + b) == PathsOf(a) + PathsOf(b)
  {
    if a == [] {
      assert a + b == b;
    } else {
      assert (a + b)[1..] == a[1..] + b;
      PathsConcat(a[1..], b);
    }
  }

  /** Where the counters stand before the (n+1)-th child under prefix. */
  predicate CountersAt(counters: Path, prefix: Path, n: nat) {
    if n == 0 then counters == prefix else prefix + [n] <= counters
  }

  function CountersAfter(outline: seq<OutlineEntry>, counters: Path): Path
    decreases |outline|
  {
    if outline == [] then counters else CountersAfter(outline[1..], Counted(counters, outline[0].level))
  }

  lemma {:induction false} RenumberConcat(a: seq<OutlineEntry>, b: seq<OutlineEntry>, counters: Path)
    ensures Renumber(a + b, counters) == Renumber(a, counters) + Renumber(b, CountersAfter(a, counters))
    ensures CountersAfter(a + b, counters) == CountersAfter(b, CountersAfter(a, counters))
    decreases |a|
  {
    if a == [] {
      assert a + b == b;
    } else {
      var c := Counted(counters, a[0].level);
      assert (a + b)[1..] == a[1..] + b && (a + b)[0] == a[0];
      RenumberConcat(a[1..], b, c);
      var tail := Renumber(b, CountersAfter(a[1..], c));
      assert [c] + (Renumber(a[1..], c) + tail) == ([c] + Renumber(a[1..], c)) + tail;
    }
  }

  lemma CountedHere(counters: Path, prefix: Path, n: nat)
    requires CountersAt(counters, prefix, n)
    ensures Counted(counters, |prefix| + 1) == prefix + [n + 1]
  {
    var level := |prefix| + 1;
    if n == 0 {
      assert counters + Zeros(1) == prefix + [0];
    } else {
      assert counters[..level] == prefix + [n];
      assert counters + Zeros(0) == counters;
    }
  }

  /** One bookmark, then its children, then its later siblings. */
  lemma RenumberMark(first: OutlineEntry, kids: seq<OutlineEntry>, rest: seq<OutlineEntry>, counters: Path, here: Path)
    requires Counted(counters, first.level) == here
    ensures var between := CountersAfter(kids, here);
            && Renumber([first] + kids + rest, counters) == [here] + Renumber(kids, here) + Renumber(rest, between)
            && CountersAfter([first] + kids + rest, counters) == CountersAfter(rest, between)
  {
    RenumberConcat([first] + kids, rest, counters);
    RenumberConcat([first], kids, counters);
    assert CountersAfter([first], counters) == here && Renumber([first], counters) == [here];
  }

  lemma PathsOfMark(here: Placed, kids: seq<Placed>, rest: seq<Placed>)
    ensures PathsOf([here] + kids + rest) == [here.path] + PathsOf(kids) + PathsOf(rest)
  {
    PathsConcat([here] + kids, rest);
    PathsConcat([here], kids);
  }

  /** Counting through a forest is counting its first bookmark, what is below it, then the rest. */
  lemma CountersOfMark(marks: seq<Mark>, prefix: Path, n: nat, counters: Path)
    requires marks != [] && CountersAt(counters, prefix, n)
    ensures var level, here := |prefix| + 1, prefix + [n + 1];
            CountersAfter(Flat(marks, level), counters) ==
            CountersAfter(Flat(marks[1..], level), CountersAfter(Flat(marks[0].kids, level + 1), here))
  {
    var level := |prefix| + 1;
    CountedHere(counters, prefix, n);
    RenumberMark(OutlineEntry(marks[0].title, level, PageOf(marks[0])), Flat(marks[0].kids, level + 1), Flat(marks[1..], level),
                 counters, prefix + [n + 1]);
  }

  lemma BelowKeeps(counters: Path, prefix: Path, n: nat, kids: nat)
    requires CountersAt(counters, prefix + [n + 1], kids)
    ensures CountersAt(counters, prefix, n + 1)
  {
    if kids > 0 {
      assert prefix + [n + 1] <= prefix + [n + 1] + [kids] <= counters;
    }
  }

  /** Counting through a bookmark and all below it leaves the counters at the bookmark's own. */
  lemma {:induction false} CountersEnd(marks: seq<Mark>, prefix: Path, n: nat, counters: Path) returns (after: Path)
    requires CountersAt(counters, prefix, n)
    ensures after == CountersAfter(Flat(marks, |prefix| + 1), counters) && CountersAt(after, prefix, n + |marks|)
    decreases marks
  {
    after := counters;
    if marks != [] {
      var here := prefix + [n + 1];
      var below := CountersEnd(marks[0].kids, here, 0, here);
      BelowKeeps(below, prefix, n, |marks[0].kids|);
      CountersOfMark(marks, prefix, n, counters);
      after := CountersEnd(marks[1..], prefix, n + 1, below);
    }
  }

  lemma RenumberOfMark(marks: seq<Mark>, prefix: Path, n: nat, counters: Path, below: Path)
    requires marks != [] && CountersAt(counters, prefix, n)
    requires below == CountersAfter(Flat(marks[0].kids, |prefix| + 2), prefix + [n + 1])
    ensures Renumber(Flat(marks, |prefix| + 1), counters) ==
            [prefix + [n + 1]] + Renumber(Flat(marks[0].kids, |prefix| + 2), prefix + [n + 1]) + Renumber(Flat(marks[1..], |prefix| + 1), below)
  {
    var level := |prefix| + 1;
    CountedHere(counters, prefix, n);
    RenumberMark(OutlineEntry(marks[0].title, level, PageOf(marks[0])), Flat(marks[0].kids, level + 1), Flat(marks[1..], level),
                 counters, prefix + [n + 1]);
  }

  lemma PathsOfFirst(marks: seq<Mark>, prefix: Path, n: nat)
    requires marks != []
    ensures PathsOf(Positions(marks, prefix, n)) ==
            [prefix + [n + 1]] + PathsOf(Positions(marks[0].kids, prefix + [n + 1], 0)) + PathsOf(Positions(marks[1..], prefix, n + 1))
  {
    PathsOfMark(Placed(prefix + [n + 1], marks[0]), Positions(marks[0].kids, prefix + [n + 1], 0), Positions(marks[1..], prefix, n + 1));
  }

  /** Renumbering a flattened forest gives every bookmark its child-index path. */
  lemma {:induction false} RenumberPositions(marks: seq<Mark>, prefix: Path, n: nat, counters: Path)
    requires CountersAt(counters, prefix, n)
    ensures Renumber(Flat(marks, |prefix| + 1), counters) == PathsOf(Positions(marks, prefix, n))
    decreases marks
  {
    if marks != [] {
      var here := prefix + [n + 1];
      var below := CountersEnd(marks[0].kids, here, 0, here);
      BelowKeeps(below, prefix, n, |marks[0].kids|);
      RenumberPositions(marks[0].kids, here, 0, here);
      RenumberPositions(marks[1..], prefix, n + 1, below);
      RenumberOfMark(marks, prefix, n, counters, below);
      PathsOfFirst(marks, prefix, n);
    }
  }

  // ----------------------------------------------------------- what positions mean

  /** The bookmark a child-index path leads to among marks, the first being number n+1. */
  function MarkFrom(marks: seq<Mark>, n: nat, path: Path): Option<Mark>
    decreases |path|
  {
    if path == [] || !(n < path[0] <= n + |marks|) then None
    else
      var m := marks[path[0] - n - 1];
      if |path| == 1 then Some(m) else MarkFrom(m.kids, 0, path[1..])
  }

  function MarkAt(marks: seq<Mark>, path: Path): Option<Mark> {
    MarkFrom(marks, 0, path)
  }

  predicate LeadsTo(marks: seq<Mark>, prefix: Path, n: nat, x: Placed) {
    prefix <= x.path && MarkFrom(marks, n, x.path[|prefix|..]) == Some(x.mark)
  }

  /** The first bookmark, one below it, or one of its later siblings. */
  lemma LeadsToSplits(marks: seq<Mark>, prefix: Path, n: nat, x: Placed)
    requires marks != []
    ensures LeadsTo(marks, prefix, n, x) <==>
              || x == Placed(prefix + [n + 1], marks[0])
              || LeadsTo(marks[0].kids, prefix + [n + 1], 0, x)
              || LeadsTo(marks[1..], prefix, n + 1, x)
  {
    var here := prefix + [n + 1];
    if prefix <= x.path && |x.path| > |prefix| {
      var tail := x.path[|prefix|..];
      assert here <= x.path <==> tail[0] == n + 1;
      if tail[0] == n + 1 {
        assert x.path[|here|..] == tail[1..];
        assert x.path == here + tail[1..];
        assert |tail| == 1 <==> x.path == here;
      }
    }
  }

  /** The positions are exactly the child-index paths of the forest's bookmarks. */
  lemma {:induction false} PositionsLead(marks: seq<Mark>, prefix: Path, n: nat, x: Placed)
    ensures x in Positions(marks, prefix, n) <==> LeadsTo(marks, prefix, n, x)
    decreases marks
  {
    if marks != [] {
      LeadsToSplits(marks, prefix, n, x);
      PositionsLead(marks[0].kids, prefix + [n + 1], 0, x);
      PositionsLead(marks[1..], prefix, n + 1, x);
    }
  }

  /** A bookmark's parent is its position less the last index, which says which child it is. */
  lemma {:induction false} ParentHoldsChild(marks: seq<Mark>, n: nat, path: Path)
    requires |path| > 1
    ensures var parent, last := MarkFrom(marks, n, path[..|path| - 1]), path[|path| - 1];
            MarkFrom(marks, n, path) ==
            if parent.Some? && 1 <= last <= |parent.value.kids| then Some(parent.value.kids[last - 1]) else None
    decreases |path|
  {
    if n < path[0] <= n + |marks| {
      var m := marks[path[0] - n - 1];
      if |path| == 2 {
        assert path[1..] == [path[1]] && path[..1] == [path[0]];
      } else {
        assert path[..|path| - 1][1..] == path[1..][..|path| - 2];
        ParentHoldsChild(m.kids, 0, path[1..]);
      }
    }
  }

  // ------------------------------------------------------------ in document order

  ghost predicate Increasing(placed: seq<Placed>) {
    forall i, j :: 0 <= i < j < |placed| ==> LexLess(placed[i].path, placed[j].path)
  }

  lemma IncreasingConcat(a: seq<Placed>, b: seq<Placed>)
    requires Increasing(a) && Increasing(b)
    requires forall x, y :: x in a && y in b ==> LexLess(x.path, y.path)
    ensures Increasing(a + b)
  {
    var all := a + b;
    forall i, j | 0 <= i < j < |all|
      ensures LexLess(all[i].path, all[j].path)
    {
      if i < |a| <= j {
        assert all[i] in a && all[j] in b;
      }
    }
  }

  /** Under prefix, a smaller child index comes first, and a bookmark before what is below it. */
  lemma UnderPrefix(prefix: Path, p: Path, q: Path)
    requires prefix <= p && prefix <= q && |q| > |prefix|
    ensures p == prefix ==> LexLess(p, q)
    ensures |p| > |prefix| && p[|prefix|] < q[|prefix|] ==> LexLess(p, q)
  {
    var n := |prefix|;
    assert p == prefix + p[n..] && q == prefix + q[n..];
    LexPrefix(prefix, p[n..], q[n..]);
  }

  lemma PositionsSpan(marks: seq<Mark>, prefix: Path, n: nat, x: Placed)
    requires x in Positions(marks, prefix, n)
    ensures prefix <= x.path && |x.path| > |prefix| && n < x.path[|prefix|]
  {
    PositionsLead(marks, prefix, n, x);
  }

  /** Section numbers only advance down the outline. */
  lemma {:induction false} PositionsIncrease(marks: seq<Mark>, prefix: Path, n: nat)
    ensures Increasing(Positions(marks, prefix, n))
    decreases marks
  {
    if marks != [] {
      var here := prefix + [n + 1];
      var first, kids, rest := [Placed(here, marks[0])], Positions(marks[0].kids, here, 0), Positions(marks[1..], prefix, n + 1);
      PositionsIncrease(marks[0].kids, here, 0);
      PositionsIncrease(marks[1..], prefix, n + 1);
      forall y | y in kids
        ensures LexLess(here, y.path) && here <= y.path
      {
        PositionsSpan(marks[0].kids, here, 0, y);
        UnderPrefix(here, here, y.path);
      }
      IncreasingConcat(first, kids);
      forall x, y | x in first + kids && y in rest
        ensures LexLess(x.path, y.path)
      {
        PositionsSpan(marks[1..], prefix, n + 1, y);
        assert here <= x.path;
        UnderPrefix(prefix, x.path, y.path);
      }
      IncreasingConcat(first + kids, rest);
    }
  }

  // ------------------------------------------------------------------ the entries

  function EntryOf(x: Placed): TocEntry {
    TocEntry(Render(x.path), Strip(x.mark.title), PageOf(x.mark))
  }

  function EntriesOf(placed: seq<Placed>): seq<TocEntry> {
    if placed == [] then [] else [EntryOf(placed[0])] + EntriesOf(placed[1..])
  }

  /** The flattened outline these positions come from: a bookmark's level is how deep it stands. */
  function FlatOf(placed: seq<Placed>): seq<OutlineEntry> {
    if placed == [] then []
    else [OutlineEntry(placed[0].mark.title, |placed[0].path|, PageOf(placed[0].mark))] + FlatOf(placed[1..])
  }

  lemma {:induction false} FlatOfConcat(a: seq<Placed>, b: seq<Placed>)
    ensures FlatOf(a + b) == FlatOf(a) + FlatOf(b)
  {
    if a == [] {
      assert a + b == b;
    } else {
      assert (a + b)[1..] == a[1..] + b;
      FlatOfConcat(a[1..], b);
    }
  }

  lemma {:induction false} FlatPositions(marks: seq<Mark>, prefix: Path, n: nat)
    ensures Flat(marks, |prefix| + 1) == FlatOf(Positions(marks, prefix, n))
    decreases marks
  {
    if marks != [] {
      var here := Placed(prefix + [n + 1], marks[0]);
      var kids, rest := Positions(marks[0].kids, here.path, 0), Positions(marks[1..], prefix, n + 1);
      FlatPositions(marks[0].kids, here.path, 0);
      FlatPositions(marks[1..], prefix, n + 1);
      FlatOfConcat([here] + kids, rest);
      FlatOfConcat([here], kids);
      assert FlatOf([here]) == [OutlineEntry(marks[0].title, |prefix| + 1, PageOf(marks[0]))];
    }
  }

  lemma {:induction false} EntriesArePlaced(placed: seq<Placed>)
    ensures |PathsOf(placed)| == |placed| == |FlatOf(placed)|
    ensures Entries(FlatOf(placed), PathsOf(placed)) == EntriesOf(placed)
  {
    if placed != [] {
      EntriesArePlaced(placed[1..]);
    }
  }

  /** The entries of a bookmark forest: each bookmark in turn, numbered by its child-index path. */
  lemma OutlineNumbersByPosition(marks: seq<Mark>)
    ensures |Renumber(Flat(marks, 1), [])| == |Flat(marks, 1)|
    ensures Entries(Flat(marks, 1), Renumber(Flat(marks, 1), [])) == EntriesOf(Positions(marks, [], 0))
  {
    RenumberPositions(marks, [], 0, []);
    FlatPositions(marks, [], 0);
    EntriesArePlaced(Positions(marks, [], 0));
  }

  lemma {:induction false} EntriesAt(placed: seq<Placed>, i: nat)
    requires i < |placed|
    ensures |EntriesOf(placed)| == |placed| && EntriesOf(placed)[i] == EntryOf(placed[i])
  {
    if i > 0 {
      EntriesAt(placed[1..], i - 1);
    } else if |placed| > 1 {
      EntriesAt(placed[1..], 0);
    }
  }

  /** The i-th entry has the i-th bookmark's title, stripped, and the page it points at, from 1, or -1 when it points nowhere. */
  lemma EntryOfBookmark(marks: seq<Mark>, i: nat)
    requires i < |Positions(marks, [], 0)|
    ensures |Renumber(Flat(marks, 1), [])| == |Flat(marks, 1)|
    ensures |Entries(Flat(marks, 1), Renumber(Flat(marks, 1), []))| == |Positions(marks, [], 0)|
    ensures var e, x := Entries(Flat(marks, 1), Renumber(Flat(marks, 1), []))[i], Positions(marks, [], 0)[i];
            && Split(e.section, ".") == Written(x.path) && e.title == Strip(x.mark.title)
            && (x.mark.dest.Some? ==> e.page == x.mark.dest.value + 1) && (x.mark.dest.None? ==> e.page == -1)
  {
    OutlineNumbersByPosition(marks);
    EntriesAt(Positions(marks, [], 0), i);
    PositionsNumbered(marks, [], 0, i);
    RenderSplits(Positions(marks, [], 0)[i].path);
  }

  lemma {:induction false} PositionsNumbered(marks: seq<Mark>, prefix: Path, n: nat, i: nat)
    requires i < |Positions(marks, prefix, n)|
    ensures Positions(marks, prefix, n)[i].path != []
    decreases marks
  {
    var path := prefix + [n + 1];
    var kids := Positions(marks[0].kids, path, 0);
    if 0 < i <= |kids| {
      PositionsNumbered(marks[0].kids, path, 0, i - 1);
    } else if i > 0 {
      PositionsNumbered(marks[1..], prefix, n + 1, i - 1 - |kids|);
    }
  }

  // ------------------------------------------------------- sections name one bookmark

  lemma {:induction false} WrittenDotless(path: Path)
    ensures |Written(path)| == |path|
    ensures forall i :: 0 <= i < |path| ==> Written(path)[i] == Itoa(path[i]) && '.' !in Written(path)[i]
  {
    if path != [] {
      NumeralReads(path[0]);
      WrittenDotless(path[1..]);
    }
  }

  /** Splitting a section at its dots gives its numbers back. */
  lemma RenderSplits(path: Path)
    requires path != []
    ensures Split(Render(path), ".") == Written(path)
  {
    WrittenDotless(path);
    JoinRoundTrip(Written(path), '.');
  }

  /** Two bookmarks never share a section. */
  lemma RenderInjective(p: Path, q: Path)
    requires p != [] && q != []
    ensures Render(p) == Render(q) <==> p == q
  {
    RenderSplits(p);
    RenderSplits(q);
    if Written(p) == Written(q) {
      WrittenDotless(p);
      WrittenDotless(q);
      forall i | 0 <= i < |p|
        ensures p[i] == q[i]
      {
        NumeralsDiffer(p[i], q[i]);
      }
    }
  }

  // ---------------------------------------------------------------- heading paths

  function Prefixes(parts: seq<string>, n: nat): seq<string>
    requires n <= |parts|
  {
    if n == 0 then [] else Prefixes(parts, n - 1) + [Join(parts[..n], ".")]
  }

  /** The dotted prefixes of a section, shortest first. */
  method Ancestors(section: string) returns (out: seq<string>)
    ensures var parts := Split(section, "."); out == Prefixes(parts, |parts|)
  {
    var parts := Split(section, ".");
    out := [];
    for i := 0 to |parts|
      invariant out == Prefixes(parts, i)
    {
      out := out + [Join(parts[..i + 1], ".")];
    }
  }

  lemma {:induction false} WrittenPrefix(path: Path, n: nat)
    requires n <= |path|
    ensures |Written(path)| == |path| && Written(path[..n]) == Written(path)[..n]
  {
    WrittenDotless(path);
    WrittenDotless(path[..n]);
  }

  type Titles = map<string, string>

  function TitleFor(titles: Titles, section: string): string {
    if section in titles then titles[section] else ""
  }

  function NonBlank(titles: Titles, sections: seq<string>): seq<string> {
    if sections == [] then []
    else
      var t := Strip(TitleFor(titles, sections[|sections| - 1]));
      NonBlank(titles, sections[..|sections| - 1]) + if t != "" then [t] else []
  }

  /** The non-blank titles along the dotted prefixes of a section. */
  method OutlinePath(titles: Titles, section: string) returns (out: seq<string>)
    ensures var parts := Split(section, "."); out == NonBlank(titles, Prefixes(parts, |parts|))
  {
    var sections := Ancestors(section);
    out := [];
    for i := 0 to |sections|
      invariant out == NonBlank(titles, sections[..i])
    {
      assert sections[..i + 1][..i] == sections[..i];
      var t := Strip(TitleFor(titles, sections[i]));
      if t != "" {
        out := out + [t];
      }
    }
    assert sections[..|sections|] == sections;
  }

  /** The titles by section: a later entry of the same section would win. */
  function TitlesOf(entries: seq<TocEntry>): Titles {
    if entries == [] then map[]
    else TitlesOf(entries[..|entries| - 1])[entries[|entries| - 1].section := entries[|entries| - 1].title]
  }

  lemma {:induction false} TitlesHold(entries: seq<TocEntry>, e: TocEntry)
    requires e in entries
    requires forall f :: f in entries && f.section == e.section ==> f.title == e.title
    ensures e.section in TitlesOf(entries) && TitlesOf(entries)[e.section] == e.title
  {
    var last, front := entries[|entries| - 1], entries[..|entries| - 1];
    assert last in entries && forall f :: f in front ==> f in entries;
    if last.section != e.section {
      TitlesHold(front, e);
    }
  }

  lemma {:induction false} EntriesOfAre(placed: seq<Placed>)
    ensures forall e :: e in EntriesOf(placed) ==> exists x :: x in placed && e == EntryOf(x)
    ensures forall x :: x in placed ==> EntryOf(x) in EntriesOf(placed)
  {
    if placed != [] {
      EntriesOfAre(placed[1..]);
    }
  }

  /** Every bookmark's title is found under the section its position renders to. */
  lemma TitleAt(marks: seq<Mark>, path: Path)
    requires MarkAt(marks, path).Some?
    ensures TitleFor(TitlesOf(EntriesOf(Positions(marks, [], 0))), Render(path)) == Strip(MarkAt(marks, path).value.title)
  {
    var placed := Positions(marks, [], 0);
    var x := Placed(path, MarkAt(marks, path).value);
    assert x.path[0..] == path;
    PositionsLead(marks, [], 0, x);
    EntriesOfAre(placed);
    forall f | f in EntriesOf(placed) && f.section == EntryOf(x).section
      ensures f.title == EntryOf(x).title
    {
      var y :| y in placed && f == EntryOf(y);
      PositionsLead(marks, [], 0, y);
      assert y.path[0..] == y.path;
      RenderInjective(x.path, y.path);
    }
    TitlesHold(EntriesOf(placed), EntryOf(x));
  }

  /** The titles of the bookmarks from the root down to a position, blank ones left out. */
  function TitleChain(marks: seq<Mark>, path: Path, n: nat): seq<string>
    requires n <= |path|
  {
    if n == 0 then []
    else
      var t := ChainTitle(marks, path, n);
      TitleChain(marks, path, n - 1) + if t != "" then [t] else []
  }

  lemma {:induction false} AncestorExists(marks: seq<Mark>, n: nat, path: Path, k: nat)
    requires 1 <= k <= |path| && MarkFrom(marks, n, path).Some?
    ensures MarkFrom(marks, n, path[..k]).Some?
    decreases |path|
  {
    if |path| > 1 && k > 1 {
      assert path[..k][1..] == path[1..][..k - 1];
      AncestorExists(marks[path[0] - n - 1].kids, 0, path[1..], k - 1);
    }
  }

  lemma StripTwice(s: string)
    ensures Strip(Strip(s)) == Strip(s)
  {
    var a, b := StripSplits(s);
  }

  /** The title of a position's n-th ancestor, as the heading path reads it. */
  function ChainTitle(marks: seq<Mark>, path: Path, n: nat): string
    requires n <= |path|
  {
    var m := MarkAt(marks, path[..n]);
    if m.Some? then Strip(m.value.title) else ""
  }

  lemma ChainTitleRenders(marks: seq<Mark>, path: Path, n: nat)
    requires 1 <= n <= |path| && MarkAt(marks, path).Some?
    ensures |Written(path)| == |path|
    ensures Strip(TitleFor(TitlesOf(EntriesOf(Positions(marks, [], 0))), Join(Written(path)[..n], "."))) == ChainTitle(marks, path, n)
  {
    AncestorExists(marks, 0, path, n);
    WrittenPrefix(path, n);
    TitleAt(marks, path[..n]);
    StripTwice(MarkAt(marks, path[..n]).value.title);
  }

  lemma NonBlankSnoc(titles: Titles, sections: seq<string>, section: string)
    ensures var t := Strip(TitleFor(titles, section));
            NonBlank(titles, sections + [section]) == NonBlank(titles, sections) + if t != "" then [t] else []
  {
    assert (sections + [section])[..|sections|] == sections;
  }

  lemma {:induction false} ChainRenders(marks: seq<Mark>, path: Path, n: nat)
    requires n <= |path| && MarkAt(marks, path).Some?
    ensures |Written(path)| == |path|
    ensures NonBlank(TitlesOf(EntriesOf(Positions(marks, [], 0))), Prefixes(Written(path), n)) == TitleChain(marks, path, n)
  {
    WrittenDotless(path);
    if n > 0 {
      ChainRenders(marks, path, n - 1);
      ChainTitleRenders(marks, path, n);
      NonBlankSnoc(TitlesOf(EntriesOf(Positions(marks, [], 0))), Prefixes(Written(path), n - 1), Join(Written(path)[..n], "."));
    }
  }

  /**
   The heading path rendered for a bookmark's section is the chain of its
   ancestors' titles, outermost first, itself last, the blank ones left out.
   */
  lemma HeadingPathIsAncestry(marks: seq<Mark>, path: Path)
    requires MarkAt(marks, path).Some?
    ensures var parts := Split(Render(path), ".");
            && |parts| == |path|
            && NonBlank(TitlesOf(EntriesOf(Positions(marks, [], 0))), Prefixes(parts, |parts|)) == TitleChain(marks, path, |path|)
  {
    RenderSplits(path);
    ChainRenders(marks, path, |path|);
  }
}
