/**
 The size bound: for CJK-free text a chunk over MAX_TOKENS is one piece of one
 block that the chunker has no boundary to cut at, so a chunk that packs two or
 more pieces always fits.
 */
module SizeBound {
  import opened Text
  import opened Tokens
  import opened Chunking
  import opened Packing
  import opened Conservation

  ghost predicate BlocksCjkFree(blocks: seq<Block>) {
    forall b :: b in blocks ==> CjkFree(b.text)
  }

  // ------------------------------------------------------------- sizes add up

  lemma {:induction false} SumAtomsCons<T>(x: T, items: seq<T>, atoms: T -> nat)
    ensures SumAtoms([x] + items, atoms) == atoms(x) + SumAtoms(items, atoms)
  {
    var all := [x] + items;
    if items == [] {
      assert all[..0] == [];
    } else {
      var n := |items| - 1;
      assert all[..n + 1] == [x] + items[..n];
      SumAtomsCons(x, items[..n], atoms);
    }
  }

  lemma {:induction false} TextsCount(w: WordClass, texts: seq<string>)
    ensures SumAtoms(texts, TextAtoms(ByAtoms(w))) == CountAll(w, texts)
  {
    if texts != [] {
      TextsCount(w, texts[1..]);
      SumAtomsCons(texts[0], texts[1..], TextAtoms(ByAtoms(w)));
      assert [texts[0]] + texts[1..] == texts;
    }
  }

  lemma {:induction false} BlocksCount(w: WordClass, blocks: seq<Block>)
    ensures SumAtoms(blocks, BlockAtoms(ByAtoms(w))) == CountAll(w, TextsOf(blocks))
  {
    if blocks != [] {
      BlocksCount(w, blocks[1..]);
      SumAtomsCons(blocks[0], blocks[1..], BlockAtoms(ByAtoms(w)));
      assert [blocks[0]] + blocks[1..] == blocks;
      assert TextsOf(blocks)[1..] == TextsOf(blocks[1..]);
    }
  }

  /** Blocks that fit when summed make a chunk that fits. */
  lemma BlocksFit(w: WordClass, blocks: seq<Block>)
    requires w.Sound() && BlocksCjkFree(blocks)
    ensures EstimateTokens(w, Strip(JoinTexts(blocks))) == TokensFromAtoms(SumAtoms(blocks, BlockAtoms(ByAtoms(w))))
  {
    var texts := TextsOf(blocks);
    assert AllCjkFree(texts);
    JoinedAtomsExact(w, texts, BLANK_LINE);
    JoinCjkFree(texts, BLANK_LINE);
    StripKeepsAtoms(w, JoinTexts(blocks));
    BlocksCount(w, blocks);
  }

  lemma {:induction false} JoinCjkFree(parts: seq<string>, sep: string)
    requires AllCjkFree(parts) && CjkFree(sep)
    ensures CjkFree(Join(parts, sep))
  {
    if |parts| > 1 {
      assert AllCjkFree(parts[1..]);
      JoinCjkFree(parts[1..], sep);
    }
  }

  // -------------------------------------------------------- pieces of one block

  lemma {:induction false} SplitCjkFree(s: string, sep: string)
    requires CjkFree(s) && sep != ""
    ensures AllCjkFree(Split(s, sep))
    decreases |s|
  {
    var i := IndexFrom(s, sep, 0);
    if i < |s| {
      SplitCjkFree(s[i + |sep|..], sep);
    }
  }

  lemma {:induction false} LinesCjkFree(s: string)
    requires CjkFree(s)
    ensures AllCjkFree(LinesOf(s))
    decreases |s|
  {
    if s != "" {
      var at := FirstBreak(s, 0);
      if at < |s| {
        LinesCjkFree(s[at + BreakWidth(s, at)..]);
      }
    }
  }

  /** b is an oversized block's piece that has no further boundary to be cut at. */
  ghost predicate Unsplittable(w: WordClass, b: Block, source: Block) {
    && b == source.(text := b.text)
    && EstimateTokens(w, source.text) > MAX_TOKENS
    && b.text in Pieces(source.text)
    && !Occurs(b.text, BLANK_LINE)
    && (!Occurs(source.text, BLANK_LINE) ==> NoBreak(b.text))
  }

  lemma PieceUnsplittable(w: WordClass, source: Block, t: string)
    requires EstimateTokens(w, source.text) > MAX_TOKENS && t in Pieces(source.text)
    ensures Unsplittable(w, source.(text := t), source)
  {
    SplitPartsWhole(source.text, BLANK_LINE);
    if |Split(source.text, BLANK_LINE)| == 1 {
      LinesBreakFree(source.text);
      assert NoBreak(t);
      forall i | 0 <= i <= |t| - |BLANK_LINE|
        ensures !OccursAt(t, BLANK_LINE, i)
      {
        assert t[i..i + 2][0] == t[i];
      }
    }
  }

  /** What splitting makes of blocks: each fits, or is a lone unsplittable piece of one of them. */
  ghost predicate SmallOrLone(w: WordClass, b: Block, blocks: seq<Block>) {
    || EstimateTokens(w, b.text) <= MAX_TOKENS
    || exists source :: source in blocks && Unsplittable(w, b, source)
  }

  lemma GroupSmallOrLone(w: WordClass, b: Block, group: seq<string>)
    requires w.Sound() && EstimateTokens(w, b.text) > MAX_TOKENS
    requires group != [] && AllCjkFree(group) && (|group| >= 2 ==> Fits(group, TextAtoms(ByAtoms(w))))
    requires |group| == 1 ==> group[0] in Pieces(b.text)
    ensures CjkFree(Join(group, "\n"))
    ensures SmallOrLone(w, b.(text := Join(group, "\n")), [b])
  {
    JoinCjkFree(group, "\n");
    if |group| == 1 {
      PieceUnsplittable(w, b, group[0]);
    } else {
      JoinedAtomsExact(w, group, "\n");
      TextsCount(w, group);
    }
  }

  lemma {:induction false} PieceBlocksAre(b: Block, groups: seq<seq<string>>)
    ensures forall x :: x in PieceBlocks(b, groups) ==>
              exists i :: 0 <= i < |groups| && x == b.(text := Join(groups[i], "\n"))
  {
    if groups != [] {
      PieceBlocksAre(b, groups[1..]);
      forall x | x in PieceBlocks(b, groups)
        ensures exists i :: 0 <= i < |groups| && x == b.(text := Join(groups[i], "\n"))
      {
        if x in PieceBlocks(b, groups[1..]) {
          var i :| 0 <= i < |groups[1..]| && x == b.(text := Join(groups[1..][i], "\n"));
          assert groups[i + 1] == groups[1..][i];
        } else {
          assert x == b.(text := Join(groups[0], "\n"));
        }
      }
    }
  }

  lemma {:induction false} FlattenHolds<T>(groups: seq<seq<T>>, i: nat)
    requires i < |groups|
    ensures forall x :: x in groups[i] ==> x in Flatten(groups)
  {
    if i > 0 {
      FlattenHolds(groups[1..], i - 1);
    }
  }

  lemma SplitBlockSizes(w: WordClass, b: Block)
    requires w.Sound() && CjkFree(b.text)
    ensures forall x :: x in SplitBlock(ByAtoms(w), b) ==> CjkFree(x.text) && SmallOrLone(w, x, [b])
  {
    if EstimateTokens(w, b.text) > MAX_TOKENS {
      var pieces := Pieces(b.text);
      var groups := Pack(pieces, TextAtoms(ByAtoms(w)));
      PackIsGreedy(pieces, TextAtoms(ByAtoms(w)));
      SplitCjkFree(b.text, BLANK_LINE);
      LinesCjkFree(b.text);
      PieceBlocksAre(b, groups);
      forall x | x in SplitBlock(ByAtoms(w), b)
        ensures CjkFree(x.text) && SmallOrLone(w, x, [b])
      {
        var i :| 0 <= i < |groups| && x == b.(text := Join(groups[i], "\n"));
        FlattenHolds(groups, i);
        assert forall k :: 0 <= k < |groups[i]| ==> groups[i][k] in pieces;
        GroupSmallOrLone(w, b, groups[i]);
      }
    }
  }

  lemma {:induction false} SplitBlocksSizes(w: WordClass, blocks: seq<Block>)
    requires w.Sound() && BlocksCjkFree(blocks)
    ensures forall x :: x in SplitBlocks(ByAtoms(w), blocks) ==> CjkFree(x.text) && SmallOrLone(w, x, blocks)
  {
    if blocks != [] {
      assert blocks[0] in blocks && BlocksCjkFree(blocks[1..]);
      SplitBlockSizes(w, blocks[0]);
      SplitBlocksSizes(w, blocks[1..]);
      forall x | x in SplitBlocks(ByAtoms(w), blocks)
        ensures SmallOrLone(w, x, blocks)
      {
        assert SmallOrLone(w, x, [blocks[0]]) || SmallOrLone(w, x, blocks[1..]);
      }
    }
  }

  // ---------------------------------------------------------------------- parts

  /** A part's chunk fits, or the part is a lone unsplittable piece of one of the blocks. */
  ghost predicate PartFits(w: WordClass, p: Part, blocks: seq<Block>) {
    || EstimateTokens(w, Strip(JoinTexts(p.blocks))) <= MAX_TOKENS
    || (|p.blocks| == 1 && exists source :: source in blocks && Unsplittable(w, p.blocks[0], source))
  }

  lemma PackedPartFits(w: WordClass, group: seq<Block>, path: seq<string>, blocks: seq<Block>)
    requires w.Sound() && BlocksCjkFree(group) && group != []
    requires |group| >= 2 ==> Fits(group, BlockAtoms(ByAtoms(w)))
    requires forall b :: b in group ==> SmallOrLone(w, b, blocks)
    ensures PartFits(w, Part(path, group), blocks)
  {
    if |group| == 1 {
      var b := group[0];
      assert group == [b] && b in group;
      StripKeepsAtoms(w, b.text);
    } else {
      BlocksFit(w, group);
    }
  }

  lemma {:induction false} BlockPartsAre(path: seq<string>, groups: seq<seq<Block>>)
    ensures forall p :: p in BlockParts(path, groups) ==> exists i :: 0 <= i < |groups| && p == Part(path, groups[i])
  {
    if groups != [] {
      BlockPartsAre(path, groups[1..]);
      forall p | p in BlockParts(path, groups)
        ensures exists i :: 0 <= i < |groups| && p == Part(path, groups[i])
      {
        if p in BlockParts(path, groups[1..]) {
          var i :| 0 <= i < |groups[1..]| && p == Part(path, groups[1..][i]);
          assert groups[i + 1] == groups[1..][i];
        } else {
          assert p == Part(path, groups[0]);
        }
      }
    }
  }

  lemma CapPartSizes(w: WordClass, p: Part)
    requires w.Sound() && BlocksCjkFree(p.blocks)
    ensures forall q :: q in CapPart(ByAtoms(w), p) ==> PartFits(w, q, p.blocks)
  {
    if EstimateTokens(w, JoinTexts(p.blocks)) <= MAX_TOKENS {
      assert AllCjkFree(TextsOf(p.blocks));
      JoinCjkFree(TextsOf(p.blocks), BLANK_LINE);
      StripKeepsAtoms(w, JoinTexts(p.blocks));
    } else {
      var expanded := SplitBlocks(ByAtoms(w), p.blocks);
      var groups := Pack(expanded, BlockAtoms(ByAtoms(w)));
      SplitBlocksSizes(w, p.blocks);
      PackIsGreedy(expanded, BlockAtoms(ByAtoms(w)));
      BlockPartsAre(p.path, groups);
      forall q | q in CapPart(ByAtoms(w), p)
        ensures PartFits(w, q, p.blocks)
      {
        var i :| 0 <= i < |groups| && q == Part(p.path, groups[i]);
        FlattenHolds(groups, i);
        PackedPartFits(w, groups[i], p.path, p.blocks);
      }
    }
  }

  lemma {:induction false} CapSizes(w: WordClass, parts: seq<Part>)
    requires w.Sound() && BlocksCjkFree(FlattenParts(parts))
    ensures forall q :: q in CapAtBlocks(ByAtoms(w), parts) ==> PartFits(w, q, FlattenParts(parts))
  {
    if parts != [] {
      var here, after := parts[0].blocks, FlattenParts(parts[1..]);
      assert FlattenParts(parts) == here + after;
      assert BlocksCjkFree(here) && BlocksCjkFree(after);
      CapPartSizes(w, parts[0]);
      CapSizes(w, parts[1..]);
      forall q | q in CapAtBlocks(ByAtoms(w), parts)
        ensures PartFits(w, q, here + after)
      {
        assert PartFits(w, q, here) || PartFits(w, q, after);
      }
    }
  }

  lemma UnitPartSizes(w: WordClass, u: Unit)
    requires w.Sound() && BlocksCjkFree(u.blocks)
    ensures forall p :: p in UnitParts(ByAtoms(w), u) ==> PartFits(w, p, u.blocks)
  {
    if UnitText(u) != "" && EstimateTokens(w, UnitText(u)) > MAX_TOKENS {
      var divided := SubdivideAtHeadings(ByAtoms(w), u);
      SubdivideFlattens(ByAtoms(w), u);
      CapSizes(w, divided);
      WithTextAmong(CapAtBlocks(ByAtoms(w), divided));
    }
  }

  lemma {:induction false} FiledSizes(w: WordClass, units: seq<Unit>)
    requires w.Sound() && BlocksCjkFree(FlattenUnits(units))
    ensures forall f :: f in FiledParts(ByAtoms(w), units) ==> PartFits(w, f.part, FlattenUnits(units))
  {
    if units != [] {
      var here, after := units[0].blocks, FlattenUnits(units[1..]);
      assert FlattenUnits(units) == here + after;
      assert BlocksCjkFree(here) && BlocksCjkFree(after);
      UnitPartSizes(w, units[0]);
      FiledSizes(w, units[1..]);
      FileUnderParts(units[0].section, UnitParts(ByAtoms(w), units[0]));
      forall f | f in FiledParts(ByAtoms(w), units)
        ensures PartFits(w, f.part, here + after)
      {
        assert PartFits(w, f.part, here) || PartFits(w, f.part, after);
      }
    }
  }

  /**
   For CJK-free text, a chunk over MAX_TOKENS is a single piece of one of the
   extraction's blocks: a paragraph with no blank line in it, or one line of a
   block that has no blank line. Any chunk of two or more blocks fits.
   */
  lemma OversizedChunksAreLone(w: WordClass, blocks: seq<Block>, i: nat)
    requires w.Sound() && BlocksCjkFree(blocks) && i < |Chunks(ByAtoms(w), blocks)|
    ensures |Filing(ByAtoms(w), blocks)| == |Chunks(ByAtoms(w), blocks)|
    ensures Chunks(ByAtoms(w), blocks)[i] == Emit(i, Filing(ByAtoms(w), blocks)[i])
    ensures EstimateTokens(w, Chunks(ByAtoms(w), blocks)[i].text) > MAX_TOKENS ==>
              && |Filing(ByAtoms(w), blocks)[i].part.blocks| == 1
              && exists source :: source in blocks && Unsplittable(w, Filing(ByAtoms(w), blocks)[i].part.blocks[0], source)
  {
    EmitAllAt(0, Filing(ByAtoms(w), blocks));
    UnitsHoldBlocks(ByAtoms(w), blocks);
    FiledSizes(w, Units(ByAtoms(w), blocks));
    var f := Filing(ByAtoms(w), blocks)[i];
    assert f in Filing(ByAtoms(w), blocks);
    assert PartFits(w, f.part, blocks);
  }
}
