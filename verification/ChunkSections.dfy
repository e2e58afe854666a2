/**
 Section integrity: what a chunk's section says about the blocks in it, and that
 chunking never scatters a section (ScatteredSections of internal/domain/structure.go,
 ordinalGaps of internal/domain/measure.go).
 */
module Sections {
  import opened Text
  import opened Tokens
  import opened Chunking
  import opened Conservation

  // ------------------------------------------------ blocks belong to their section

  /** A block of section b may stand under section s: its own, or a dotted ancestor of it. */
  predicate BelongsTo(b: Option<string>, s: Option<string>) {
    b == s || IsDescendant(s, b)
  }

  ghost predicate AllBelong(blocks: seq<Block>, s: Option<string>) {
    forall b :: b in blocks ==> BelongsTo(b.section, s)
  }

  ghost predicate AllOf(blocks: seq<Block>, s: Option<string>) {
    forall b :: b in blocks ==> b.section == s
  }

  ghost predicate UnitsUniform(units: seq<Unit>) {
    forall i :: 0 <= i < |units| ==> AllOf(units[i].blocks, units[i].section)
  }

  ghost predicate UnitsBelong(units: seq<Unit>) {
    forall i :: 0 <= i < |units| ==> AllBelong(units[i].blocks, units[i].section)
  }

  lemma {:induction false} GroupUniform(blocks: seq<Block>)
    ensures UnitsUniform(Group(blocks))
  {
    if blocks != [] {
      GroupUniform(blocks[..|blocks| - 1]);
    }
  }

  /** Merging never crosses a section boundary. */
  lemma {:induction false} MergeUniform(e: Estimator, cur: Unit, rest: seq<Unit>)
    requires AllOf(cur.blocks, cur.section) && UnitsUniform(rest)
    ensures UnitsUniform(MergeFrom(e, cur, rest))
    decreases |rest|
  {
    if rest != [] {
      assert AllOf(rest[0].blocks, rest[0].section) && UnitsUniform(rest[1..]);
      if Absorbs(e, cur, rest[0]) {
        MergeUniform(e, Merged(cur, rest[0]), rest[1..]);
      } else {
        MergeUniform(e, rest[0], rest[1..]);
      }
    }
  }

  lemma BelongsTransitive(a: Option<string>, b: Option<string>, c: Option<string>)
    requires BelongsTo(a, b) && BelongsTo(b, c)
    ensures BelongsTo(a, c)
  {
    if a != b && b != c {
      assert c.value[..|a.value| + 1] == b.value[..|a.value| + 1];
    }
  }

  lemma {:induction false} FoldBelong(e: Estimator, units: seq<Unit>)
    requires UnitsBelong(units)
    ensures UnitsBelong(FoldStubs(e, units))
    decreases |units|
  {
    if |units| > 1 {
      var u0, u1 := units[0], units[1];
      assert AllBelong(u0.blocks, u0.section) && AllBelong(u1.blocks, u1.section);
      if IsStub(e, u0, u1) {
        forall b | b in u0.blocks
          ensures BelongsTo(b.section, u1.section)
        {
          BelongsTransitive(b.section, u0.section, u1.section);
        }
        assert UnitsBelong(units[2..]);
        FoldBelong(e, [FoldedInto(u0, u1)] + units[2..]);
      } else {
        assert UnitsBelong(units[1..]);
        FoldBelong(e, units[1..]);
      }
    }
  }

  lemma UnitsKeepSections(e: Estimator, blocks: seq<Block>)
    ensures UnitsBelong(Units(e, blocks))
  {
    var grouped := Group(blocks);
    GroupUniform(blocks);
    if grouped != [] {
      assert AllOf(grouped[0].blocks, grouped[0].section) && UnitsUniform(grouped[1..]);
      MergeUniform(e, grouped[0], grouped[1..]);
    }
    assert UnitsBelong(MergeSmall(e, grouped));
    FoldBelong(e, MergeSmall(e, grouped));
  }

  ghost predicate PartsBelong(parts: seq<Part>, s: Option<string>) {
    forall p :: p in parts ==> AllBelong(p.blocks, s)
  }

  lemma {:induction false} FlattenedBelong(parts: seq<Part>, s: Option<string>)
    requires AllBelong(FlattenParts(parts), s)
    ensures PartsBelong(parts, s)
  {
    if parts != [] {
      FlattenedBelong(parts[1..], s);
      assert FlattenParts(parts) == parts[0].blocks + FlattenParts(parts[1..]);
    }
  }

  lemma {:induction false} PiecesKeepSection(b: Block, groups: seq<seq<string>>)
    ensures forall x :: x in PieceBlocks(b, groups) ==> x.section == b.section
  {
    if groups != [] {
      PiecesKeepSection(b, groups[1..]);
    }
  }

  lemma {:induction false} SplitBlocksBelong(e: Estimator, blocks: seq<Block>, s: Option<string>)
    requires AllBelong(blocks, s)
    ensures AllBelong(SplitBlocks(e, blocks), s)
  {
    if blocks != [] {
      SplitBlocksBelong(e, blocks[1..], s);
      PiecesKeepSection(blocks[0], Pack(Pieces(blocks[0].text), TextAtoms(e)));
      assert blocks[0] in blocks;
    }
  }

  lemma CapPartBelong(e: Estimator, p: Part, s: Option<string>)
    requires AllBelong(p.blocks, s)
    ensures PartsBelong(CapPart(e, p), s)
  {
    if e.Tokens(JoinTexts(p.blocks)) > MAX_TOKENS {
      var expanded := SplitBlocks(e, p.blocks);
      var groups := Pack(expanded, BlockAtoms(e));
      SplitBlocksBelong(e, p.blocks, s);
      Packing.PackIsGreedy(expanded, BlockAtoms(e));
      BlockPartsFlatten(p.path, groups);
      FlattenedBelong(BlockParts(p.path, groups), s);
    }
  }

  lemma {:induction false} CapBelong(e: Estimator, parts: seq<Part>, s: Option<string>)
    requires PartsBelong(parts, s)
    ensures PartsBelong(CapAtBlocks(e, parts), s)
  {
    if parts != [] {
      assert parts[0] in parts;
      CapPartBelong(e, parts[0], s);
      CapBelong(e, parts[1..], s);
    }
  }

  lemma UnitPartsBelong(e: Estimator, u: Unit)
    requires AllBelong(u.blocks, u.section)
    ensures PartsBelong(UnitParts(e, u), u.section)
  {
    var divided := SubdivideAtHeadings(e, u);
    SubdivideFlattens(e, u);
    FlattenedBelong(divided, u.section);
    CapBelong(e, divided, u.section);
    WithTextAmong(CapAtBlocks(e, divided));
  }

  lemma {:induction false} FiledBelong(e: Estimator, units: seq<Unit>)
    requires UnitsBelong(units)
    ensures forall f :: f in FiledParts(e, units) ==> AllBelong(f.part.blocks, f.section)
  {
    if units != [] {
      assert AllBelong(units[0].blocks, units[0].section) && UnitsBelong(units[1..]);
      FiledBelong(e, units[1..]);
      UnitPartsBelong(e, units[0]);
      FileUnderParts(units[0].section, UnitParts(e, units[0]));
    }
  }

  /**
   Every block in a chunk carries the chunk's own section or a dotted ancestor of
   it, through any cascade of folds; a chunk without a section holds only blocks
   without one.
   */
  lemma ChunkBlocksBelong(e: Estimator, blocks: seq<Block>, i: nat)
    requires i < |Chunks(e, blocks)|
    ensures |Chunks(e, blocks)| == |Filing(e, blocks)|
    ensures var f := Filing(e, blocks)[i];
            && Chunks(e, blocks)[i] == Emit(i, f)
            && (forall b :: b in f.part.blocks ==> BelongsTo(b.section, Chunks(e, blocks)[i].section))
            && (Chunks(e, blocks)[i].section.None? ==> forall b :: b in f.part.blocks ==> b.section.None?)
  {
    EmitAllAt(0, Filing(e, blocks));
    UnitsKeepSections(e, blocks);
    FiledBelong(e, Units(e, blocks));
    var f := Filing(e, blocks)[i];
    assert f in Filing(e, blocks);
    assert AllBelong(f.part.blocks, f.section);
  }

  // ------------------------------------------------------- sections stay together

  type Section = Option<string>

  /** A section a document declared: one that is there and not empty. */
  predicate Declared(s: Section) {
    s.Some? && s.value != ""
  }

  /** Nothing stands between two entries of one declared section but more of it. */
  ghost predicate Together(ss: seq<Section>) {
    forall i, j, k :: 0 <= i < j < k < |ss| && ss[i] == ss[k] && Declared(ss[i]) ==> ss[j] == ss[i]
  }

  /** t is read off s in order, each entry any number of times or not at all. */
  predicate DrawnFrom(t: seq<Section>, s: seq<Section>)
    decreases |t| + |s|
  {
    t == [] || (s != [] && (DrawnFrom(t, s[1..]) || (t[0] == s[0] && DrawnFrom(t[1..], s))))
  }

  /** Where in s each entry of t was read, never going back. */
  ghost predicate Reading(t: seq<Section>, s: seq<Section>, at: seq<nat>) {
    && |at| == |t|
    && (forall i :: 0 <= i < |t| ==> at[i] < |s| && t[i] == s[at[i]])
    && (forall i, j :: 0 <= i < j < |t| ==> at[i] <= at[j])
  }

  lemma {:induction false} DrawnReads(t: seq<Section>, s: seq<Section>) returns (at: seq<nat>)
    requires DrawnFrom(t, s)
    ensures Reading(t, s, at)
    decreases |t| + |s|
  {
    if t == [] {
      at := [];
    } else if DrawnFrom(t, s[1..]) {
      var rest := DrawnReads(t, s[1..]);
      at := seq(|rest|, i requires 0 <= i < |rest| => rest[i] + 1);
    } else {
      var rest := DrawnReads(t[1..], s);
      at := [0] + rest;
    }
  }

  lemma DrawnTogether(t: seq<Section>, s: seq<Section>)
    requires DrawnFrom(t, s) && Together(s)
    ensures Together(t)
  {
    var at := DrawnReads(t, s);
    forall i, j, k | 0 <= i < j < k < |t| && t[i] == t[k] && Declared(t[i])
      ensures t[j] == t[i]
    {
      assert at[i] <= at[j] <= at[k];
      assert s[at[i]] == s[at[k]];
    }
  }

  lemma {:induction false} DrawnConcat(t: seq<Section>, s: seq<Section>, t': seq<Section>, s': seq<Section>)
    requires DrawnFrom(t, s) && DrawnFrom(t', s')
    ensures DrawnFrom(t + t', s + s')
    decreases |t| + |s|
  {
    if s == [] {
      assert t + t' == t' && s + s' == s';
    } else if t == [] {
      DrawnConcat(t, s[1..], t', s');
      assert (s + s')[1..] == s[1..] + s' && t + t' == t';
    } else if DrawnFrom(t, s[1..]) {
      DrawnConcat(t, s[1..], t', s');
      assert (s + s')[1..] == s[1..] + s';
    } else {
      DrawnConcat(t[1..], s, t', s');
      assert (t + t')[1..] == t[1..] + t';
    }
  }

  lemma {:induction false} DrawnTransitive(a: seq<Section>, b: seq<Section>, c: seq<Section>)
    requires DrawnFrom(a, b) && DrawnFrom(b, c)
    ensures DrawnFrom(a, c)
    decreases |a| + |b| + |c|
  {
    if a != [] {
      if DrawnFrom(b, c[1..]) {
        DrawnTransitive(a, b, c[1..]);
      } else if DrawnFrom(a, b[1..]) {
        DrawnTransitive(a, b[1..], c);
      } else {
        DrawnTransitive(a[1..], b, c);
      }
    }
  }

  function BlockSections(blocks: seq<Block>): seq<Section> {
    if blocks == [] then [] else BlockSections(blocks[..|blocks| - 1]) + [blocks[|blocks| - 1].section]
  }

  function UnitSections(units: seq<Unit>): seq<Section> {
    if units == [] then [] else [units[0].section] + UnitSections(units[1..])
  }

  function FiledSections(filed: seq<Filed>): seq<Section> {
    if filed == [] then [] else [filed[0].section] + FiledSections(filed[1..])
  }

  lemma {:induction false} UnitSectionsConcat(a: seq<Unit>, b: seq<Unit>)
    ensures UnitSections(a + b) == UnitSections(a) + UnitSections(b)
  {
    if a == [] {
      assert a + b == b;
    } else {
      assert (a + b)[1..] == a[1..] + b;
      UnitSectionsConcat(a[1..], b);
    }
  }

  lemma AddBlockSections(units: seq<Unit>, b: Block)
    ensures UnitSections(AddBlock(units, b)) == UnitSections(units)
         || UnitSections(AddBlock(units, b)) == UnitSections(units) + [b.section]
  {
    var n := |units|;
    if units != [] && SameKey(units[n - 1], b) {
      var grown := units[n - 1].(blocks := units[n - 1].blocks + [b]);
      assert AddBlock(units, b) == units[..n - 1] + [grown] && units == units[..n - 1] + [units[n - 1]];
      UnitSectionsConcat(units[..n - 1], [grown]);
      UnitSectionsConcat(units[..n - 1], [units[n - 1]]);
    } else {
      UnitSectionsConcat(units, [Unit(b.section, b.headingPath, [b])]);
    }
  }

  lemma {:induction false} GroupDrawn(blocks: seq<Block>)
    ensures DrawnFrom(UnitSections(Group(blocks)), BlockSections(blocks))
  {
    if blocks != [] {
      var n := |blocks| - 1;
      var before, b := Group(blocks[..n]), blocks[n];
      GroupDrawn(blocks[..n]);
      AddBlockSections(before, b);
      assert DrawnFrom([], [b.section]) && DrawnFrom([b.section], [b.section]);
      DrawnConcat(UnitSections(before), BlockSections(blocks[..n]), [], [b.section]);
      DrawnConcat(UnitSections(before), BlockSections(blocks[..n]), [b.section], [b.section]);
      assert UnitSections(before) + [] == UnitSections(before);
    }
  }

  lemma {:induction false} MergeDrawn(e: Estimator, cur: Unit, rest: seq<Unit>)
    ensures DrawnFrom(UnitSections(MergeFrom(e, cur, rest)), [cur.section] + UnitSections(rest))
    decreases |rest|
  {
    var tail := UnitSections(rest);
    assert ([cur.section] + tail)[1..] == tail;
    if rest == [] {
      assert UnitSections([cur]) == [cur.section];
    } else if Absorbs(e, cur, rest[0]) {
      MergeDrawn(e, Merged(cur, rest[0]), rest[1..]);
    } else {
      MergeDrawn(e, rest[0], rest[1..]);
      DrawnConcat([cur.section], [cur.section], UnitSections(MergeFrom(e, rest[0], rest[1..])), tail);
    }
  }

  lemma {:induction false} FoldDrawn(e: Estimator, units: seq<Unit>)
    ensures DrawnFrom(UnitSections(FoldStubs(e, units)), UnitSections(units))
    decreases |units|
  {
    if |units| <= 1 {
      if units != [] {
        assert UnitSections(units) == [units[0].section];
      }
    } else if IsStub(e, units[0], units[1]) {
      var shorter := [FoldedInto(units[0], units[1])] + units[2..];
      FoldDrawn(e, shorter);
      assert shorter[1..] == units[1..][1..];
      assert UnitSections(shorter) == UnitSections(units)[1..];
    } else {
      FoldDrawn(e, units[1..]);
      DrawnConcat([units[0].section], [units[0].section], UnitSections(FoldStubs(e, units[1..])), UnitSections(units[1..]));
    }
  }

  lemma {:induction false} FileUnderDrawn(s: Section, parts: seq<Part>)
    ensures DrawnFrom(FiledSections(FileUnder(s, parts)), [s])
  {
    if parts != [] {
      FileUnderDrawn(s, parts[1..]);
    }
  }

  lemma {:induction false} FiledSectionsConcat(a: seq<Filed>, b: seq<Filed>)
    ensures FiledSections(a + b) == FiledSections(a) + FiledSections(b)
  {
    if a == [] {
      assert a + b == b;
    } else {
      assert (a + b)[1..] == a[1..] + b;
      FiledSectionsConcat(a[1..], b);
    }
  }

  lemma {:induction false} FiledDrawn(e: Estimator, units: seq<Unit>)
    ensures DrawnFrom(FiledSections(FiledParts(e, units)), UnitSections(units))
  {
    if units != [] {
      var here := FileUnder(units[0].section, UnitParts(e, units[0]));
      FiledDrawn(e, units[1..]);
      FileUnderDrawn(units[0].section, UnitParts(e, units[0]));
      FiledSectionsConcat(here, FiledParts(e, units[1..]));
      DrawnConcat(FiledSections(here), [units[0].section], FiledSections(FiledParts(e, units[1..])), UnitSections(units[1..]));
    }
  }

  lemma FilingDrawn(e: Estimator, blocks: seq<Block>)
    ensures DrawnFrom(FiledSections(Filing(e, blocks)), BlockSections(blocks))
  {
    var grouped := Group(blocks);
    var merged := MergeSmall(e, grouped);
    GroupDrawn(blocks);
    if grouped != [] {
      MergeDrawn(e, grouped[0], grouped[1..]);
    }
    FoldDrawn(e, merged);
    FiledDrawn(e, Units(e, blocks));
    DrawnTransitive(FiledSections(Filing(e, blocks)), UnitSections(Units(e, blocks)), UnitSections(merged));
    DrawnTransitive(FiledSections(Filing(e, blocks)), UnitSections(merged), UnitSections(grouped));
    DrawnTransitive(FiledSections(Filing(e, blocks)), UnitSections(grouped), BlockSections(blocks));
  }

  lemma {:induction false} FiledSectionAt(filed: seq<Filed>)
    ensures |FiledSections(filed)| == |filed|
    ensures forall i :: 0 <= i < |filed| ==> FiledSections(filed)[i] == filed[i].section
  {
    if filed != [] {
      FiledSectionAt(filed[1..]);
    }
  }

  // -------------------------------------------------------------- what is measured

  /** The ordinals of a section's chunks, in chunk order. */
  function OrdinalsOf(chunks: seq<Chunk>, s: string): seq<int> {
    if chunks == [] then []
    else
      var last := chunks[|chunks| - 1];
      OrdinalsOf(chunks[..|chunks| - 1], s) + if last.section == Some(s) then [last.ordinal] else []
  }

  predicate Contiguous(ordinals: seq<int>) {
    forall i :: 0 <= i < |ordinals| ==> ordinals[i] == ordinals[0] + i
  }

  /** The declared sections whose chunks leave gaps. */
  ghost predicate Scattered(chunks: seq<Chunk>, s: string) {
    s != "" && OrdinalsOf(chunks, s) != [] && !Contiguous(OrdinalsOf(chunks, s))
  }

  method IsContiguous(ordinals: seq<int>) returns (ok: bool)
    ensures ok == Contiguous(ordinals)
  {
    for i := 0 to |ordinals|
      invariant forall j :: 0 <= j < i ==> ordinals[j] == ordinals[0] + j
    {
      if ordinals[i] != ordinals[0] + i {
        return false;
      }
    }
    return true;
  }

  /** The ordinals of every declared section. */
  method OrdinalsBySection(chunks: seq<Chunk>) returns (ordinals: map<string, seq<int>>)
    ensures forall s :: s in ordinals <==> s != "" && OrdinalsOf(chunks, s) != []
    ensures forall s :: s in ordinals ==> ordinals[s] == OrdinalsOf(chunks, s)
  {
    ordinals := map[];
    for i := 0 to |chunks|
      invariant forall s :: s in ordinals <==> s != "" && OrdinalsOf(chunks[..i], s) != []
      invariant forall s :: s in ordinals ==> ordinals[s] == OrdinalsOf(chunks[..i], s)
    {
      var c := chunks[i];
      assert chunks[..i + 1][..i] == chunks[..i];
      if c.section.Some? && c.section.value != "" {
        var s := c.section.value;
        var seen := if s in ordinals then ordinals[s] else [];
        ordinals := ordinals[s := seen + [c.ordinal]];
      }
    }
    assert chunks[..|chunks|] == chunks;
  }

  /** The sections whose chunks are not contiguous, as a set: the source lists it sorted. */
  method ScatteredSections(chunks: seq<Chunk>) returns (out: set<string>)
    ensures forall s :: s in out <==> Scattered(chunks, s)
  {
    var ordinals := OrdinalsBySection(chunks);
    var todo := ordinals.Keys;
    out := {};
    while todo != {}
      invariant todo <= ordinals.Keys
      invariant forall s :: s in out <==> s in ordinals && s !in todo && !Contiguous(ordinals[s])
      decreases todo
    {
      var s :| s in todo;
      var ok := IsContiguous(ordinals[s]);
      if !ok {
        out := out + {s};
      }
      todo := todo - {s};
    }
  }

  function GapsOf(chunks: seq<Chunk>): seq<int> {
    if |chunks| <= 1 then []
    else
      var n := |chunks| - 1;
      GapsOf(chunks[..n]) + if chunks[n].ordinal != chunks[n - 1].ordinal + 1 then [chunks[n - 1].ordinal + 1] else []
  }

  method OrdinalGaps(chunks: seq<Chunk>) returns (out: seq<int>)
    ensures out == GapsOf(chunks)
  {
    out := [];
    if |chunks| == 0 {
      return;
    }
    for i := 1 to |chunks|
      invariant out == GapsOf(chunks[..i])
    {
      assert chunks[..i + 1][..i] == chunks[..i];
      if chunks[i].ordinal != chunks[i - 1].ordinal + 1 {
        out := out + [chunks[i - 1].ordinal + 1];
      }
    }
    assert chunks[..|chunks|] == chunks;
  }

  ghost predicate Numbered(chunks: seq<Chunk>) {
    forall i :: 0 <= i < |chunks| ==> chunks[i].ordinal == i
  }

  lemma {:induction false} NumberedHasNoGaps(chunks: seq<Chunk>)
    requires Numbered(chunks)
    ensures GapsOf(chunks) == []
  {
    if |chunks| > 1 {
      NumberedHasNoGaps(chunks[..|chunks| - 1]);
    }
  }

  /** The chunks carrying section s run from some ordinal up to some other. */
  ghost predicate InOneRun(chunks: seq<Chunk>, s: string) {
    forall i, j, k :: 0 <= i < j < k < |chunks| && chunks[i].section == Some(s) && chunks[k].section == Some(s)
      ==> chunks[j].section == Some(s)
  }

  /** The ordinals of s, each the index of a chunk that carries it, and all of them. */
  lemma {:induction false} OrdinalsAre(chunks: seq<Chunk>, s: string)
    requires Numbered(chunks)
    ensures forall o :: o in OrdinalsOf(chunks, s) <==> 0 <= o < |chunks| && chunks[o].section == Some(s)
    ensures forall a, b :: 0 <= a < b < |OrdinalsOf(chunks, s)| ==> OrdinalsOf(chunks, s)[a] < OrdinalsOf(chunks, s)[b]
  {
    if chunks != [] {
      var shorter := chunks[..|chunks| - 1];
      OrdinalsAre(shorter, s);
      var os := OrdinalsOf(shorter, s);
      assert forall a :: 0 <= a < |os| ==> os[a] in os;
    }
  }

  /** Strictly increasing ordinals that skip none between two of them are contiguous. */
  lemma {:induction false} NoSkipContiguous(os: seq<int>)
    requires forall a, b :: 0 <= a < b < |os| ==> os[a] < os[b]
    requires forall a, c, x :: 0 <= a < c < |os| && os[a] < x < os[c] ==> x in os
    ensures Contiguous(os)
  {
    if |os| > 1 {
      var n := |os| - 1;
      var shorter := os[..n];
      forall a, c, x | 0 <= a < c < |shorter| && shorter[a] < x < shorter[c]
        ensures x in shorter
      {
        assert os[a] < x < os[c];
        assert x in os;
      }
      NoSkipContiguous(shorter);
      assert os[n - 1] + 1 !in os || os[n - 1] + 1 == os[n];
      assert forall i :: 0 <= i < n ==> os[i] == shorter[i];
    }
  }

  lemma ContiguousHoldsBetween(os: seq<int>, a: nat, c: nat, x: int)
    requires a < |os| && c < |os| && os[a] < x < os[c]
    ensures Contiguous(os) ==> x in os
  {
    if Contiguous(os) {
      assert os[a] == os[0] + a && os[c] == os[0] + c;
      assert os[a + (x - os[a])] == x;
    }
  }

  /** Where no other chunk stands between two of a section, its ordinals skip none. */
  lemma RunIsContiguous(chunks: seq<Chunk>, s: string)
    requires Numbered(chunks) && InOneRun(chunks, s)
    ensures Contiguous(OrdinalsOf(chunks, s))
  {
    var os := OrdinalsOf(chunks, s);
    OrdinalsAre(chunks, s);
    forall a, c, x | 0 <= a < c < |os| && os[a] < x < os[c]
      ensures x in os
    {
      assert os[a] in os && os[c] in os;
    }
    NoSkipContiguous(os);
  }

  /** Where another chunk does, they skip its own. */
  lemma GapIsNotContiguous(chunks: seq<Chunk>, s: string, i: nat, j: nat, k: nat)
    requires Numbered(chunks) && i < j < k < |chunks|
    requires chunks[i].section == Some(s) && chunks[k].section == Some(s) && chunks[j].section != Some(s)
    ensures OrdinalsOf(chunks, s) != [] && !Contiguous(OrdinalsOf(chunks, s))
  {
    var os := OrdinalsOf(chunks, s);
    OrdinalsAre(chunks, s);
    assert i in os && k in os && j !in os;
    var a :| 0 <= a < |os| && os[a] == i;
    var c :| 0 <= c < |os| && os[c] == k;
    ContiguousHoldsBetween(os, a, c, j);
  }

  /** A section measures as scattered exactly when another chunk stands among its own. */
  lemma ScatteredMeans(chunks: seq<Chunk>, s: string)
    requires Numbered(chunks) && s != ""
    ensures Scattered(chunks, s) <==> !InOneRun(chunks, s)
  {
    if InOneRun(chunks, s) {
      RunIsContiguous(chunks, s);
    } else {
      var i, j, k :| 0 <= i < j < k < |chunks| && chunks[i].section == Some(s) && chunks[k].section == Some(s)
                     && chunks[j].section != Some(s);
      GapIsNotContiguous(chunks, s, i, j, k);
    }
  }

  lemma ChunksNumbered(e: Estimator, blocks: seq<Block>)
    ensures Numbered(Chunks(e, blocks))
  {
    EmitAllAt(0, Filing(e, blocks));
  }

  /** Chunk numbering never skips. */
  lemma ChunksHaveNoGaps(e: Estimator, blocks: seq<Block>)
    ensures GapsOf(Chunks(e, blocks)) == []
  {
    ChunksNumbered(e, blocks);
    NumberedHasNoGaps(Chunks(e, blocks));
  }

  /** If each section's blocks are consecutive in the extraction, no section is scattered. */
  lemma ChunksNeverScatter(e: Estimator, blocks: seq<Block>, s: string)
    requires Together(BlockSections(blocks))
    ensures !Scattered(Chunks(e, blocks), s)
  {
    var filed, chunks := Filing(e, blocks), Chunks(e, blocks);
    FilingDrawn(e, blocks);
    DrawnTogether(FiledSections(filed), BlockSections(blocks));
    FiledSectionAt(filed);
    EmitAllAt(0, filed);
    ChunksNumbered(e, blocks);
    if s != "" {
      forall i, j, k | 0 <= i < j < k < |chunks| && chunks[i].section == Some(s) && chunks[k].section == Some(s)
        ensures chunks[j].section == Some(s)
      {
        assert chunks[i].section == FiledSections(filed)[i];
        assert chunks[j].section == FiledSections(filed)[j];
        assert chunks[k].section == FiledSections(filed)[k];
      }
      ScatteredMeans(chunks, s);
    }
  }
}
