/**
 Chunking conserves text: nothing is lost, duplicated or reordered by grouping,
 merging, folding, subdividing, splitting or packing.
 */
module Conservation {
  import opened Sequences
  import opened Text
  import opened Tokens
  import opened Chunking
  import opened Packing

  // ------------------------------------- units hold the blocks, in document order

  lemma {:induction false} FlattenUnitsConcat(a: seq<Unit>, b: seq<Unit>)
    ensures FlattenUnits(a + b) == FlattenUnits(a) + FlattenUnits(b)
  {
    if a == [] {
      assert a + b == b;
    } else {
      assert (a + b)[1..] == a[1..] + b;
      FlattenUnitsConcat(a[1..], b);
    }
  }

  lemma AddBlockFlattens(units: seq<Unit>, b: Block)
    ensures FlattenUnits(AddBlock(units, b)) == FlattenUnits(units) + [b]
  {
    var n := |units|;
    if units != [] && SameKey(units[n - 1], b) {
      var grown := units[n - 1].(blocks := units[n - 1].blocks + [b]);
      assert AddBlock(units, b) == units[..n - 1] + [grown] && units == units[..n - 1] + [units[n - 1]];
      FlattenUnitsConcat(units[..n - 1], [grown]);
      FlattenUnitsConcat(units[..n - 1], [units[n - 1]]);
      assert FlattenUnits([grown]) == grown.blocks && FlattenUnits([units[n - 1]]) == units[n - 1].blocks;
    } else {
      var started := Unit(b.section, b.headingPath, [b]);
      FlattenUnitsConcat(units, [started]);
      assert FlattenUnits([started]) == [b] + FlattenUnits([]);
    }
  }

  lemma {:induction false} GroupFlattens(blocks: seq<Block>)
    ensures FlattenUnits(Group(blocks)) == blocks
  {
    if blocks != [] {
      var n := |blocks| - 1;
      GroupFlattens(blocks[..n]);
      AddBlockFlattens(Group(blocks[..n]), blocks[n]);
    }
  }

  /**
   What grouping promises: the units hold the blocks in order, every block shares
   its unit's section and heading path, and two units in a row never share both.
   */
  ghost predicate IsGrouping(blocks: seq<Block>, units: seq<Unit>) {
    FlattenUnits(units) == blocks && Keyed(units)
  }

  predicate SameUnit(u: Unit, v: Unit) {
    u.section == v.section && u.headingPath == v.headingPath
  }

  lemma {:induction false} GroupGroups(blocks: seq<Block>)
    ensures IsGrouping(blocks, Group(blocks))
  {
    GroupFlattens(blocks);
    if blocks != [] {
      var n := |blocks| - 1;
      GroupGroups(blocks[..n]);
      AddBlockGroups(blocks[..n], Group(blocks[..n]), blocks[n]);
    }
  }

  lemma AddBlockGroups(blocks: seq<Block>, units: seq<Unit>, b: Block)
    requires IsGrouping(blocks, units)
    ensures IsGrouping(blocks + [b], AddBlock(units, b))
  {
    AddBlockFlattens(units, b);
    if units != [] && SameKey(units[|units| - 1], b) {
      LastUnitGrows(units, b);
    } else {
      NextUnitOpens(units, b);
    }
  }

  /** Every unit holds blocks, all of its own key, and no unit has the key of the one before. */
  ghost predicate Keyed(units: seq<Unit>) {
    && (forall i :: 0 <= i < |units| ==> units[i].blocks != [])
    && (forall i, b :: 0 <= i < |units| && b in units[i].blocks ==> SameKey(units[i], b))
    && (forall i :: 0 <= i < |units| - 1 ==> !SameUnit(units[i], units[i + 1]))
  }

  lemma LastUnitGrows(units: seq<Unit>, b: Block)
    requires Keyed(units) && units != [] && SameKey(units[|units| - 1], b)
    ensures Keyed(AddBlock(units, b))
  {
    var n, out := |units|, AddBlock(units, b);
    assert out[n - 1].blocks == units[n - 1].blocks + [b];
    assert forall i :: 0 <= i < n ==> SameUnit(out[i], units[i]);
  }

  lemma NextUnitOpens(units: seq<Unit>, b: Block)
    requires Keyed(units) && (units != [] ==> !SameKey(units[|units| - 1], b))
    ensures Keyed(AddBlock(units, b))
  {
    var n, out := |units|, AddBlock(units, b);
    assert out[n] == Unit(b.section, b.headingPath, [b]);
    forall i | 0 <= i < |out| - 1
      ensures !SameUnit(out[i], out[i + 1])
    {
      assert i + 1 < n ==> out[i] == units[i] && out[i + 1] == units[i + 1];
    }
  }

  lemma NextUnitStarts(blocks: seq<Block>, us: seq<Unit>)
    requires |us| > 1 && FlattenUnits(us) == blocks && us[1].blocks != []
    ensures |us[0].blocks| < |blocks| && blocks[|us[0].blocks|] in us[1].blocks
  {
    assert us[1..][0] == us[1] && us[1].blocks[0] in us[1].blocks;
    assert FlattenUnits(us[1..]) == us[1].blocks + FlattenUnits(us[1..][1..]);
    assert blocks == us[0].blocks + FlattenUnits(us[1..]);
  }

  lemma GroupingTail(blocks: seq<Block>, us: seq<Unit>)
    requires us != [] && IsGrouping(blocks, us)
    ensures |us[0].blocks| <= |blocks| && us[0].blocks == blocks[..|us[0].blocks|]
    ensures blocks != [] && us[0] == Unit(blocks[0].section, blocks[0].headingPath, us[0].blocks)
    ensures IsGrouping(blocks[|us[0].blocks|..], us[1..])
  {
    assert blocks == us[0].blocks + FlattenUnits(us[1..]);
    assert us[0].blocks[0] in us[0].blocks;
    var tail := us[1..];
    forall i | 0 <= i < |tail| - 1
      ensures !SameUnit(tail[i], tail[i + 1])
    {
      assert tail[i] == us[i + 1] && tail[i + 1] == us[i + 2];
    }
  }

  lemma FirstUnitLongest(blocks: seq<Block>, us: seq<Unit>, vs: seq<Unit>)
    requires blocks != [] && IsGrouping(blocks, us) && IsGrouping(blocks, vs)
    ensures us != [] && vs != [] && |us[0].blocks| >= |vs[0].blocks|
  {
    GroupingTail(blocks, us);
    GroupingTail(blocks, vs);
    if |us[0].blocks| < |vs[0].blocks| {
      var next := blocks[|us[0].blocks|];
      assert next in vs[0].blocks;
      assert |us| > 1;
      NextUnitStarts(blocks, us);
      assert false;
    }
  }

  lemma {:induction false} GroupingsAgree(blocks: seq<Block>, us: seq<Unit>, vs: seq<Unit>)
    requires IsGrouping(blocks, us) && IsGrouping(blocks, vs)
    ensures us == vs
    decreases |blocks|
  {
    if blocks != [] {
      FirstUnitLongest(blocks, us, vs);
      FirstUnitLongest(blocks, vs, us);
      GroupingTail(blocks, us);
      GroupingTail(blocks, vs);
      GroupingsAgree(blocks[|us[0].blocks|..], us[1..], vs[1..]);
      assert us == [us[0]] + us[1..] && vs == [vs[0]] + vs[1..];
    }
  }

  /** There is one such grouping, so the grouping loop makes exactly it. */
  lemma GroupingIsUnique(blocks: seq<Block>, units: seq<Unit>)
    ensures IsGrouping(blocks, units) <==> units == Group(blocks)
  {
    GroupGroups(blocks);
    if IsGrouping(blocks, units) {
      GroupingsAgree(blocks, units, Group(blocks));
    }
  }

  lemma FlattenUnitsCons(u: Unit, units: seq<Unit>)
    ensures FlattenUnits([u] + units) == u.blocks + FlattenUnits(units)
  {
    assert ([u] + units)[1..] == units;
  }

  lemma {:induction false} MergeFlattens(e: Estimator, cur: Unit, rest: seq<Unit>)
    ensures FlattenUnits(MergeFrom(e, cur, rest)) == cur.blocks + FlattenUnits(rest)
    decreases |rest|
  {
    if rest == [] {
      FlattenUnitsCons(cur, []);
      Nothing([cur]);
    } else {
      var tail := FlattenUnits(rest[1..]);
      assert FlattenUnits(rest) == rest[0].blocks + tail;
      if Absorbs(e, cur, rest[0]) {
        MergeFlattens(e, Merged(cur, rest[0]), rest[1..]);
        Assoc(cur.blocks, rest[0].blocks, tail);
      } else {
        MergeFlattens(e, rest[0], rest[1..]);
        FlattenUnitsCons(cur, MergeFrom(e, rest[0], rest[1..]));
      }
    }
  }

  lemma {:induction false} FoldFlattens(e: Estimator, units: seq<Unit>)
    ensures FlattenUnits(FoldStubs(e, units)) == FlattenUnits(units)
    decreases |units|
  {
    if |units| > 1 {
      if IsStub(e, units[0], units[1]) {
        var folded := FoldedInto(units[0], units[1]);
        FoldFlattens(e, [folded] + units[2..]);
        assert ([folded] + units[2..])[1..] == units[1..][1..];
      } else {
        FoldFlattens(e, units[1..]);
        FlattenUnitsConcat([units[0]], FoldStubs(e, units[1..]));
        assert FlattenUnits([units[0]]) == units[0].blocks + FlattenUnits([]);
      }
    }
  }

  /** The units the first three stages make hold exactly the extraction's blocks, in order. */
  lemma UnitsHoldBlocks(e: Estimator, blocks: seq<Block>)
    ensures FlattenUnits(Units(e, blocks)) == blocks
  {
    GroupFlattens(blocks);
    var grouped := Group(blocks);
    if grouped != [] {
      MergeFlattens(e, grouped[0], grouped[1..]);
    }
    FoldFlattens(e, MergeSmall(e, grouped));
  }

  // ------------------------------------------- subdividing keeps the unit's blocks

  lemma {:induction false} FlattenRunsConcat(a: seq<Run>, b: seq<Run>)
    ensures FlattenRuns(a + b) == FlattenRuns(a) + FlattenRuns(b)
  {
    if a == [] {
      assert a + b == b;
    } else {
      assert (a + b)[1..] == a[1..] + b;
      FlattenRunsConcat(a[1..], b);
    }
  }

  lemma AddToRunsFlattens(runs: seq<Run>, b: Block)
    ensures FlattenRuns(AddToRuns(runs, b)) == FlattenRuns(runs) + [b]
  {
    var n := |runs|;
    if !StartsRun(b) && runs != [] {
      var grown := runs[n - 1].(blocks := runs[n - 1].blocks + [b]);
      assert AddToRuns(runs, b) == runs[..n - 1] + [grown] && runs == runs[..n - 1] + [runs[n - 1]];
      FlattenRunsConcat(runs[..n - 1], [grown]);
      FlattenRunsConcat(runs[..n - 1], [runs[n - 1]]);
      assert FlattenRuns([grown]) == grown.blocks && FlattenRuns([runs[n - 1]]) == runs[n - 1].blocks;
    } else {
      var started := AddToRuns(runs, b)[n];
      FlattenRunsConcat(runs, [started]);
      assert FlattenRuns([started]) == [b] + FlattenRuns([]);
    }
  }

  lemma {:induction false} RunsFlatten(blocks: seq<Block>)
    ensures FlattenRuns(SubheadingRuns(blocks)) == blocks
  {
    if blocks != [] {
      var n := |blocks| - 1;
      RunsFlatten(blocks[..n]);
      AddToRunsFlattens(SubheadingRuns(blocks[..n]), blocks[n]);
    }
  }

  lemma {:induction false} PartsOfFlatten(path: seq<string>, packs: seq<seq<Run>>)
    ensures FlattenParts(PartsOf(path, packs)) == FlattenRuns(Flatten(packs))
  {
    if packs != [] {
      PartsOfFlatten(path, packs[1..]);
      FlattenRunsConcat(packs[0], Flatten(packs[1..]));
    }
  }

  /** The parts an oversized unit is divided into hold its blocks, in order. */
  lemma SubdivideFlattens(e: Estimator, u: Unit)
    ensures FlattenParts(SubdivideAtHeadings(e, u)) == u.blocks
  {
    var runs := SubheadingRuns(u.blocks);
    RunsFlatten(u.blocks);
    PartsOfFlatten(u.headingPath, Pack(runs, RunAtoms(e)));
    PackIsGreedy(runs, RunAtoms(e));
    assert FlattenParts([Part(u.headingPath, u.blocks)]) == u.blocks + FlattenParts([]);
  }

  // -------------------------------------------- capping and splitting keep the text

  /** The solid text of blocks, one after the other. */
  function SolidBlocks(blocks: seq<Block>): string {
    if blocks == [] then "" else Solid(blocks[0].text) + SolidBlocks(blocks[1..])
  }

  lemma {:induction false} SolidBlocksConcat(a: seq<Block>, b: seq<Block>)
    ensures SolidBlocks(a + b) == SolidBlocks(a) + SolidBlocks(b)
  {
    if a == [] {
      assert a + b == b;
    } else {
      assert (a + b)[1..] == a[1..] + b;
      SolidBlocksConcat(a[1..], b);
    }
  }

  lemma {:induction false} JoinedTextSolid(blocks: seq<Block>)
    ensures SolidAll(TextsOf(blocks)) == SolidBlocks(blocks)
    ensures Solid(JoinTexts(blocks)) == SolidBlocks(blocks)
  {
    JoinKeepsSolid(TextsOf(blocks), BLANK_LINE);
    if blocks != [] {
      JoinedTextSolid(blocks[1..]);
      assert TextsOf(blocks)[1..] == TextsOf(blocks[1..]);
    }
  }

  lemma {:induction false} PieceBlocksSolid(b: Block, groups: seq<seq<string>>)
    ensures SolidBlocks(PieceBlocks(b, groups)) == SolidAll(Flatten(groups))
  {
    if groups != [] {
      PieceBlocksSolid(b, groups[1..]);
      JoinKeepsSolid(groups[0], "\n");
      SolidAllConcat(groups[0], Flatten(groups[1..]));
    }
  }

  lemma PiecesSolid(text: string)
    ensures SolidAll(Pieces(text)) == Solid(text)
  {
    LinesKeepSolid(text);
    SplitRoundTrip(text, BLANK_LINE);
    JoinKeepsSolid(Split(text, BLANK_LINE), BLANK_LINE);
  }

  lemma SplitBlockSolid(e: Estimator, b: Block)
    ensures SolidBlocks(SplitBlock(e, b)) == Solid(b.text)
  {
    if e.Tokens(b.text) <= MAX_TOKENS {
      assert SolidBlocks([b]) == Solid(b.text) + SolidBlocks([]);
    } else {
      PackIsGreedy(Pieces(b.text), TextAtoms(e));
      PieceBlocksSolid(b, Pack(Pieces(b.text), TextAtoms(e)));
      PiecesSolid(b.text);
    }
  }

  lemma {:induction false} SplitBlocksSolid(e: Estimator, blocks: seq<Block>)
    ensures SolidBlocks(SplitBlocks(e, blocks)) == SolidBlocks(blocks)
  {
    if blocks != [] {
      SplitBlockSolid(e, blocks[0]);
      SplitBlocksSolid(e, blocks[1..]);
      SolidBlocksConcat(SplitBlock(e, blocks[0]), SplitBlocks(e, blocks[1..]));
    }
  }

  lemma {:induction false} BlockPartsFlatten(path: seq<string>, groups: seq<seq<Block>>)
    ensures FlattenParts(BlockParts(path, groups)) == Flatten(groups)
  {
    if groups != [] {
      BlockPartsFlatten(path, groups[1..]);
    }
  }

  lemma CapPartSolid(e: Estimator, p: Part)
    ensures SolidBlocks(FlattenParts(CapPart(e, p))) == SolidBlocks(p.blocks)
  {
    if e.Tokens(JoinTexts(p.blocks)) <= MAX_TOKENS {
      FlattenOne(p);
    } else {
      var expanded := SplitBlocks(e, p.blocks);
      SplitBlocksSolid(e, p.blocks);
      PackIsGreedy(expanded, BlockAtoms(e));
      BlockPartsFlatten(p.path, Pack(expanded, BlockAtoms(e)));
    }
  }

  lemma FlattenOne(p: Part)
    ensures FlattenParts([p]) == p.blocks
  {
    assert p.blocks + FlattenParts([]) == p.blocks;
  }

  lemma {:induction false} FlattenPartsConcat(a: seq<Part>, b: seq<Part>)
    ensures FlattenParts(a + b) == FlattenParts(a) + FlattenParts(b)
  {
    if a == [] {
      assert a + b == b;
    } else {
      assert (a + b)[1..] == a[1..] + b;
      FlattenPartsConcat(a[1..], b);
    }
  }

  lemma {:induction false} CapSolid(e: Estimator, parts: seq<Part>)
    ensures SolidBlocks(FlattenParts(CapAtBlocks(e, parts))) == SolidBlocks(FlattenParts(parts))
  {
    if parts != [] {
      var here, after := CapPart(e, parts[0]), CapAtBlocks(e, parts[1..]);
      CapPartSolid(e, parts[0]);
      CapSolid(e, parts[1..]);
      FlattenPartsConcat(here, after);
      SolidBlocksConcat(FlattenParts(here), FlattenParts(after));
      SolidBlocksConcat(parts[0].blocks, FlattenParts(parts[1..]));
    }
  }

  lemma {:induction false} NoTextNoSolid(blocks: seq<Block>)
    ensures AnyText(blocks) <==> SolidBlocks(blocks) != ""
  {
    if blocks != [] {
      NoTextNoSolid(blocks[1..]);
      StripKeepsSolid(blocks[0].text);
    }
  }

  lemma {:induction false} WithTextSolid(parts: seq<Part>)
    ensures SolidBlocks(FlattenParts(WithText(parts))) == SolidBlocks(FlattenParts(parts))
  {
    if parts != [] {
      WithTextSolid(parts[1..]);
      NoTextNoSolid(parts[0].blocks);
      var after := WithText(parts[1..]);
      SolidBlocksConcat(parts[0].blocks, FlattenParts(parts[1..]));
      SolidBlocksConcat(parts[0].blocks, FlattenParts(after));
      FlattenPartsConcat([parts[0]], after);
      FlattenOne(parts[0]);
      assert [] + after == after;
    }
  }

  /** A unit's parts hold its solid text; a unit with none contributes nothing. */
  lemma UnitPartsSolid(e: Estimator, u: Unit)
    ensures SolidBlocks(FlattenParts(UnitParts(e, u))) == SolidBlocks(u.blocks)
  {
    JoinedTextSolid(u.blocks);
    StripKeepsSolid(JoinTexts(u.blocks));
    if UnitText(u) == "" {
    } else if e.Tokens(UnitText(u)) <= MAX_TOKENS {
      var whole := Part(u.headingPath, u.blocks);
      FlattenOne(whole);
    } else {
      var divided := SubdivideAtHeadings(e, u);
      SubdivideFlattens(e, u);
      CapSolid(e, divided);
      WithTextSolid(CapAtBlocks(e, divided));
    }
  }

  // ------------------------------------------------------------------ the whole run

  function FiledBlocks(filed: seq<Filed>): seq<Block> {
    if filed == [] then [] else filed[0].part.blocks + FiledBlocks(filed[1..])
  }

  lemma {:induction false} FileUnderBlocks(section: Option<string>, parts: seq<Part>)
    ensures FiledBlocks(FileUnder(section, parts)) == FlattenParts(parts)
  {
    if parts != [] {
      FileUnderBlocks(section, parts[1..]);
    }
  }

  lemma {:induction false} FiledBlocksConcat(a: seq<Filed>, b: seq<Filed>)
    ensures FiledBlocks(a + b) == FiledBlocks(a) + FiledBlocks(b)
  {
    if a == [] {
      assert a + b == b;
    } else {
      assert (a + b)[1..] == a[1..] + b;
      FiledBlocksConcat(a[1..], b);
    }
  }

  lemma {:induction false} FiledPartsSolid(e: Estimator, units: seq<Unit>)
    ensures SolidBlocks(FiledBlocks(FiledParts(e, units))) == SolidBlocks(FlattenUnits(units))
  {
    if units != [] {
      var parts := UnitParts(e, units[0]);
      var here, after := FileUnder(units[0].section, parts), FiledParts(e, units[1..]);
      UnitPartsSolid(e, units[0]);
      FiledPartsSolid(e, units[1..]);
      FileUnderBlocks(units[0].section, parts);
      FiledBlocksConcat(here, after);
      SolidBlocksConcat(FiledBlocks(here), FiledBlocks(after));
      SolidBlocksConcat(units[0].blocks, FlattenUnits(units[1..]));
    }
  }

  function ChunkTexts(chunks: seq<Chunk>): seq<string> {
    if chunks == [] then [] else [chunks[0].text] + ChunkTexts(chunks[1..])
  }

  lemma {:induction false} EmittedSolid(n: nat, filed: seq<Filed>)
    ensures SolidAll(ChunkTexts(EmitAll(n, filed))) == SolidBlocks(FiledBlocks(filed))
    decreases |filed|
  {
    if filed != [] {
      var blocks := filed[0].part.blocks;
      EmittedSolid(n + 1, filed[1..]);
      JoinedTextSolid(blocks);
      StripKeepsSolid(JoinTexts(blocks));
      SolidBlocksConcat(blocks, FiledBlocks(filed[1..]));
    }
  }

  /**
   For every extraction, the non-whitespace characters of the chunk texts in
   ordinal order are those of the block texts in document order.
   */
  lemma ChunksConserveText(e: Estimator, blocks: seq<Block>)
    ensures SolidAll(ChunkTexts(Chunks(e, blocks))) == SolidAll(TextsOf(blocks))
  {
    UnitsHoldBlocks(e, blocks);
    FiledPartsSolid(e, Units(e, blocks));
    EmittedSolid(0, Filing(e, blocks));
    JoinedTextSolid(blocks);
  }

  /** No chunk is blank. */
  lemma ChunksHoldText(e: Estimator, blocks: seq<Block>)
    ensures forall i :: 0 <= i < |Chunks(e, blocks)| ==> Chunks(e, blocks)[i].text != ""
  {
    EmitAllAt(0, Filing(e, blocks));
    FiledHoldText(e, Units(e, blocks));
  }

  lemma {:induction false} WithTextHoldText(parts: seq<Part>)
    ensures forall p :: p in WithText(parts) ==> AnyText(p.blocks)
  {
    if parts != [] {
      WithTextHoldText(parts[1..]);
    }
  }

  lemma {:induction false} WithTextAmong(parts: seq<Part>)
    ensures forall p :: p in WithText(parts) ==> p in parts
  {
    if parts != [] {
      WithTextAmong(parts[1..]);
    }
  }

  lemma UnitPartsHoldText(e: Estimator, u: Unit)
    ensures forall p :: p in UnitParts(e, u) ==> AnyText(p.blocks)
  {
    if UnitText(u) != "" {
      JoinedTextSolid(u.blocks);
      StripKeepsSolid(JoinTexts(u.blocks));
      NoTextNoSolid(u.blocks);
      WithTextHoldText(CapAtBlocks(e, SubdivideAtHeadings(e, u)));
    }
  }

  lemma {:induction false} FileUnderParts(section: Option<string>, parts: seq<Part>)
    ensures forall f :: f in FileUnder(section, parts) ==> f.section == section && f.part in parts
  {
    if parts != [] {
      FileUnderParts(section, parts[1..]);
    }
  }

  lemma {:induction false} FiledHoldText(e: Estimator, units: seq<Unit>)
    ensures forall f :: f in FiledParts(e, units) ==> Strip(JoinTexts(f.part.blocks)) != ""
  {
    if units != [] {
      FiledHoldText(e, units[1..]);
      UnitPartsHoldText(e, units[0]);
      FileUnderParts(units[0].section, UnitParts(e, units[0]));
      forall f | f in FileUnder(units[0].section, UnitParts(e, units[0]))
        ensures Strip(JoinTexts(f.part.blocks)) != ""
      {
        NoTextNoSolid(f.part.blocks);
        JoinedTextSolid(f.part.blocks);
        StripKeepsSolid(JoinTexts(f.part.blocks));
      }
    }
  }
}
