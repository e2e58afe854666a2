/**
 The heading path a chunk is filed under: the path of its unit and, where an oversized
 unit is divided, the subheading of a division that holds exactly one. What a
 subheading is, and how many there are, is said of the blocks themselves.
 */
module Paths {
  import opened Sequences
  import opened Text
  import opened Chunking
  import opened Packing
  import opened Conservation

  // ------------------------------------------------------- what a division is filed under

  /** A subheading with a name: its first line, stripped. */
  predicate Names(b: Block) {
    b.subdivision && !b.figureOnly && LinesOf(b.text) != [] && Strip(LinesOf(b.text)[0]) != ""
  }

  /** Of all blocks only the i-th is a named subheading. */
  predicate OnlyName(blocks: seq<Block>, i: nat) {
    && i < |blocks| && Names(blocks[i])
    && forall j :: 0 <= j < |blocks| && Names(blocks[j]) ==> j == i
  }

  /** Blocks of a unit with the given path, filed under their one named subheading or, failing that, under path. */
  ghost predicate FiledUnder(path: seq<string>, own: seq<string>, blocks: seq<Block>) {
    && (forall i: nat :: OnlyName(blocks, i) ==> own == path + [Strip(LinesOf(blocks[i].text)[0])])
    && ((forall i: nat :: !OnlyName(blocks, i)) ==> own == path)
  }

  /** A subheading stands somewhere after the first block. */
  ghost predicate Divides(blocks: seq<Block>) {
    exists i :: 0 < i < |blocks| && blocks[i].subdivision && !blocks[i].figureOnly
  }

  // ---------------------------------------------------------------------- runs and names

  function Labels(blocks: seq<Block>): seq<string> {
    if blocks == [] then []
    else (if Names(blocks[0]) then [Strip(LinesOf(blocks[0].text)[0])] else []) + Labels(blocks[1..])
  }

  lemma {:induction false} LabelsConcat(a: seq<Block>, b: seq<Block>)
    ensures Labels(a + b) == Labels(a) + Labels(b)
  {
    if a == [] {
      Nothing(b);
      Nothing(Labels(b));
    } else {
      assert (a + b)[1..] == a[1..] + b;
      LabelsConcat(a[1..], b);
      Assoc(if Names(a[0]) then [Strip(LinesOf(a[0].text)[0])] else [], Labels(a[1..]), Labels(b));
    }
  }

  lemma {:induction false} NoLabels(blocks: seq<Block>)
    ensures Labels(blocks) == [] <==> forall i :: 0 <= i < |blocks| ==> !Names(blocks[i])
  {
    if blocks != [] {
      NoLabels(blocks[1..]);
      assert (forall i :: 0 <= i < |blocks| ==> !Names(blocks[i]))
        <==> !Names(blocks[0]) && forall i :: 0 <= i < |blocks[1..]| ==> !Names(blocks[1..][i]);
    }
  }

  /** There is one label exactly when one block alone is named, and then it is that name. */
  lemma {:induction false} OneLabel(blocks: seq<Block>, i: nat)
    requires OnlyName(blocks, i)
    ensures Labels(blocks) == [Strip(LinesOf(blocks[i].text)[0])]
  {
    var before, after := blocks[..i], blocks[i + 1..];
    assert blocks == before + ([blocks[i]] + after);
    LabelsConcat(before, [blocks[i]] + after);
    NoLabels(before);
    NoLabels(after);
    assert ([blocks[i]] + after)[1..] == after;
  }

  lemma {:induction false} OneLabelOnly(blocks: seq<Block>) returns (i: nat)
    requires |Labels(blocks)| == 1
    ensures OnlyName(blocks, i)
  {
    var rest := blocks[1..];
    if Names(blocks[0]) {
      i := 0;
      NoLabels(rest);
      assert forall j :: 0 < j < |blocks| ==> blocks[j] == rest[j - 1];
    } else {
      var k := OneLabelOnly(rest);
      i := k + 1;
      assert forall j :: 0 < j < |blocks| ==> blocks[j] == rest[j - 1];
    }
  }

  lemma LabelsFile(path: seq<string>, own: seq<string>, blocks: seq<Block>)
    requires own == if |Labels(blocks)| == 1 then path + Labels(blocks) else path
    ensures FiledUnder(path, own, blocks)
  {
    forall i: nat | OnlyName(blocks, i)
      ensures own == path + [Strip(LinesOf(blocks[i].text)[0])]
    {
      OneLabel(blocks, i);
    }
    if |Labels(blocks)| == 1 {
      var i := OneLabelOnly(blocks);
      assert OnlyName(blocks, i);
    }
  }

  /** A run begins with its subheading, if it has one, is named by it, and has no other. */
  predicate Headed(r: Run) {
    && r.blocks != []
    && r.name == (if r.blocks[0].subdivision && !r.blocks[0].figureOnly then FirstLine(r.blocks[0].text) else "")
    && forall i :: 0 < i < |r.blocks| ==> !(r.blocks[i].subdivision && !r.blocks[i].figureOnly)
  }

  /** Every run is headed, and every run but the first begins with a subheading. */
  predicate AllHeaded(runs: seq<Run>) {
    && (forall k :: 0 <= k < |runs| ==> Headed(runs[k]))
    && (forall k :: 0 < k < |runs| && runs[k].blocks != [] ==> runs[k].blocks[0].subdivision && !runs[k].blocks[0].figureOnly)
  }

  lemma RunGrows(r: Run, b: Block)
    requires Headed(r) && !StartsRun(b)
    ensures Headed(r.(blocks := r.blocks + [b])) && (r.blocks + [b])[0] == r.blocks[0]
  {
  }

  lemma RunsHeadedStep(runs: seq<Run>, b: Block)
    requires AllHeaded(runs)
    ensures AllHeaded(AddToRuns(runs, b)) && AddToRuns(runs, b) != []
  {
    if !StartsRun(b) && runs != [] {
      RunGrows(runs[|runs| - 1], b);
    }
  }

  lemma {:induction false} RunsHeaded(blocks: seq<Block>)
    ensures AllHeaded(SubheadingRuns(blocks))
    ensures blocks != [] ==> SubheadingRuns(blocks) != []
  {
    if blocks != [] {
      RunsHeaded(blocks[..|blocks| - 1]);
      RunsHeadedStep(SubheadingRuns(blocks[..|blocks| - 1]), blocks[|blocks| - 1]);
    }
  }

  /** The runs of blocks: they hold them in order, and each starts where the blocks have a subheading, or at the start. */
  ghost predicate AreRuns(blocks: seq<Block>, runs: seq<Run>) {
    FlattenRuns(runs) == blocks && AllHeaded(runs)
  }

  lemma RunsAre(blocks: seq<Block>)
    ensures AreRuns(blocks, SubheadingRuns(blocks))
  {
    RunsFlatten(blocks);
    RunsHeaded(blocks);
  }

  lemma FirstRunEnds(blocks: seq<Block>, runs: seq<Run>)
    requires AreRuns(blocks, runs) && runs != []
    ensures 0 < |runs[0].blocks| <= |blocks| && runs[0].blocks == blocks[..|runs[0].blocks|]
    ensures FlattenRuns(runs[1..]) == blocks[|runs[0].blocks|..] && AllHeaded(runs[1..])
    ensures |runs| == 1 ==> |runs[0].blocks| == |blocks|
    ensures |runs| > 1 ==> |runs[0].blocks| < |blocks| && StartsRun(blocks[|runs[0].blocks|])
  {
    Parts(runs[0].blocks, FlattenRuns(runs[1..]));
    if |runs| > 1 {
      assert runs[1..][0] == runs[1] && Headed(runs[1]);
      assert FlattenRuns(runs[1..]) == runs[1].blocks + FlattenRuns(runs[1..][1..]);
      assert blocks[|runs[0].blocks|] == runs[1].blocks[0];
    }
  }

  lemma FirstRunLongest(blocks: seq<Block>, us: seq<Run>, vs: seq<Run>)
    requires AreRuns(blocks, us) && AreRuns(blocks, vs) && us != [] && vs != []
    ensures |us[0].blocks| >= |vs[0].blocks|
  {
    FirstRunEnds(blocks, us);
    FirstRunEnds(blocks, vs);
  }

  lemma {:induction false} RunsAgree(blocks: seq<Block>, us: seq<Run>, vs: seq<Run>)
    requires AreRuns(blocks, us) && AreRuns(blocks, vs)
    ensures us == vs
    decreases |us|
  {
    if us != [] && vs != [] {
      FirstRunLongest(blocks, us, vs);
      FirstRunLongest(blocks, vs, us);
      FirstRunEnds(blocks, us);
      FirstRunEnds(blocks, vs);
      RunsAgree(blocks[|us[0].blocks|..], us[1..], vs[1..]);
      assert us == [us[0]] + us[1..] && vs == [vs[0]] + vs[1..];
    }
  }

  /** There is one way to cut blocks into runs at their subheadings, and the loop finds it. */
  lemma RunsAreUnique(blocks: seq<Block>, runs: seq<Run>)
    ensures AreRuns(blocks, runs) <==> runs == SubheadingRuns(blocks)
  {
    RunsAre(blocks);
    if AreRuns(blocks, runs) {
      RunsAgree(blocks, runs, SubheadingRuns(blocks));
    }
  }

  /** There are two runs or more exactly when a subheading stands after the first block. */
  lemma ManyRuns(blocks: seq<Block>)
    ensures |SubheadingRuns(blocks)| > 1 <==> Divides(blocks)
  {
    var runs := SubheadingRuns(blocks);
    RunsAre(blocks);
    if runs != [] {
      FirstRunEnds(blocks, runs);
    }
  }

  /** The named runs of a packing are the named subheadings of its blocks. */
  lemma {:induction false} NamedAreLabels(runs: seq<Run>)
    requires forall k :: 0 <= k < |runs| ==> Headed(runs[k])
    ensures Labels(FlattenRuns(runs)) == Named(runs)
  {
    if runs != [] {
      var r := runs[0];
      NamedAreLabels(runs[1..]);
      LabelsConcat(r.blocks, FlattenRuns(runs[1..]));
      NoLabels(r.blocks[1..]);
    }
  }

  // -------------------------------------------------------------- the divisions of a unit

  lemma {:induction false} PartsFiled(path: seq<string>, packs: seq<seq<Run>>)
    requires forall r :: r in Flatten(packs) ==> Headed(r)
    ensures forall p :: p in PartsOf(path, packs) ==> FiledUnder(path, p.path, p.blocks)
  {
    if packs != [] {
      NamedAreLabels(packs[0]);
      LabelsFile(path, PackedPath(path, packs[0]), FlattenRuns(packs[0]));
      PartsFiled(path, packs[1..]);
    }
  }

  /**
   An oversized unit is one division under its own path, unless a subheading stands after
   its first block; then each division is filed under its one named subheading, or under
   the unit's path when it holds none or several.
   */
  lemma DivisionsFiled(e: Estimator, u: Unit)
    ensures !Divides(u.blocks) ==> SubdivideAtHeadings(e, u) == [Part(u.headingPath, u.blocks)]
    ensures Divides(u.blocks) ==>
              forall p :: p in SubdivideAtHeadings(e, u) ==> FiledUnder(u.headingPath, p.path, p.blocks)
  {
    ManyRuns(u.blocks);
    if Divides(u.blocks) {
      var runs := SubheadingRuns(u.blocks);
      RunsHeaded(u.blocks);
      PackIsGreedy(runs, RunAtoms(e));
      PartsFiled(u.headingPath, Pack(runs, RunAtoms(e)));
    }
  }

  // -------------------------------------------------- capping, filing and emitting keep it

  /** Parts cut from one division: filed under its path, they show its visible text in order, and are one if it fits. */
  ghost predicate CutFrom(e: Estimator, division: Part, parts: seq<Part>) {
    && (forall p :: p in parts ==> p.path == division.path)
    && (e.Tokens(JoinTexts(division.blocks)) <= MAX_TOKENS ==> |parts| <= 1)
    && SolidBlocks(FlattenParts(parts)) == SolidBlocks(division.blocks)
  }

  ghost predicate EachCutFrom(e: Estimator, divisions: seq<Part>, cuts: seq<seq<Part>>) {
    |cuts| == |divisions| && forall j :: 0 <= j < |cuts| ==> CutFrom(e, divisions[j], cuts[j])
  }

  lemma EachCutCons(e: Estimator, division: Part, cut: seq<Part>, divisions: seq<Part>, cuts: seq<seq<Part>>)
    requires CutFrom(e, division, cut) && EachCutFrom(e, divisions, cuts)
    ensures EachCutFrom(e, [division] + divisions, [cut] + cuts)
  {
  }

  lemma {:induction false} BlockPartsPath(path: seq<string>, groups: seq<seq<Block>>)
    ensures forall p :: p in BlockParts(path, groups) ==> p.path == path
  {
    if groups != [] {
      BlockPartsPath(path, groups[1..]);
    }
  }

  lemma {:induction false} WithTextConcat(a: seq<Part>, b: seq<Part>)
    ensures WithText(a + b) == WithText(a) + WithText(b)
  {
    if a == [] {
      Nothing(b);
      Nothing(WithText(b));
    } else {
      assert (a + b)[1..] == a[1..] + b;
      WithTextConcat(a[1..], b);
      Assoc(if AnyText(a[0].blocks) then [a[0]] else [], WithText(a[1..]), WithText(b));
    }
  }

  lemma DivisionCut(e: Estimator, division: Part)
    ensures CutFrom(e, division, WithText(CapPart(e, division)))
  {
    var capped := CapPart(e, division);
    CapPartSolid(e, division);
    WithTextSolid(capped);
    WithTextAmong(capped);
    if e.Tokens(JoinTexts(division.blocks)) > MAX_TOKENS {
      BlockPartsPath(division.path, Pack(SplitBlocks(e, division.blocks), BlockAtoms(e)));
    }
  }

  lemma {:induction false} DivisionsCut(e: Estimator, divisions: seq<Part>) returns (cuts: seq<seq<Part>>)
    ensures EachCutFrom(e, divisions, cuts) && Flatten(cuts) == WithText(CapAtBlocks(e, divisions))
  {
    cuts := [];
    if divisions != [] {
      var here := CapPart(e, divisions[0]);
      var after := DivisionsCut(e, divisions[1..]);
      DivisionCut(e, divisions[0]);
      cuts := [WithText(here)] + after;
      EachCutCons(e, divisions[0], WithText(here), divisions[1..], after);
      DropOne(divisions, 0);
      Whole(divisions);
      WithTextConcat(here, CapAtBlocks(e, divisions[1..]));
      FlattenCons(WithText(here), after);
    }
  }

  lemma FlattenCons<T>(first: seq<T>, rest: seq<seq<T>>)
    ensures Flatten([first] + rest) == first + Flatten(rest)
  {
    assert ([first] + rest)[1..] == rest;
  }

  /**
   How a unit is divided: not at all when it fits or no subheading stands after its first
   block, and else into divisions filed under the one subheading they name, if they do.
   */
  ghost predicate Divided(e: Estimator, u: Unit, divisions: seq<Part>) {
    if UnitTokens(e, u) <= MAX_TOKENS || !Divides(u.blocks) then divisions == [Part(u.headingPath, u.blocks)]
    else FlattenParts(divisions) == u.blocks && forall p :: p in divisions ==> FiledUnder(u.headingPath, p.path, p.blocks)
  }

  /** No part of a unit without text is kept. */
  lemma BlankKeepsNothing(e: Estimator, u: Unit)
    requires UnitText(u) == ""
    ensures WithText(CapAtBlocks(e, SubdivideAtHeadings(e, u))) == []
  {
    var divided := SubdivideAtHeadings(e, u);
    var kept := WithText(CapAtBlocks(e, divided));
    JoinedTextSolid(u.blocks);
    StripKeepsSolid(JoinTexts(u.blocks));
    SubdivideFlattens(e, u);
    CapSolid(e, divided);
    WithTextSolid(CapAtBlocks(e, divided));
    if kept != [] {
      WithTextHoldText(CapAtBlocks(e, divided));
      NoTextNoSolid(kept[0].blocks);
      SolidBlocksConcat(kept[0].blocks, FlattenParts(kept[1..]));
    }
  }

  lemma WholeCut(e: Estimator, u: Unit)
    ensures var whole := Part(u.headingPath, u.blocks); CutFrom(e, whole, [whole]) && Flatten([[whole]]) == [whole]
  {
    var whole := Part(u.headingPath, u.blocks);
    FlattenOne(whole);
    FlattenCons([whole], []);
    Nothing([[whole]]);
  }

  /** The parts of a unit are cut from its divisions, each from one, in order. */
  lemma UnitPartsCut(e: Estimator, u: Unit) returns (divisions: seq<Part>, cuts: seq<seq<Part>>)
    ensures Divided(e, u, divisions) && EachCutFrom(e, divisions, cuts) && Flatten(cuts) == UnitParts(e, u)
  {
    if UnitTokens(e, u) <= MAX_TOKENS {
      divisions := [Part(u.headingPath, u.blocks)];
      WholeCut(e, u);
      if UnitText(u) == "" {
        cuts := [[]];
        UnitPartsSolid(e, u);
        FlattenCons<Part>([], []);
        Nothing<seq<Part>>([[]]);
      } else {
        cuts := [divisions];
      }
    } else {
      divisions := SubdivideAtHeadings(e, u);
      DivisionsFiled(e, u);
      SubdivideFlattens(e, u);
      cuts := DivisionsCut(e, divisions);
      if UnitText(u) == "" {
        BlankKeepsNothing(e, u);
      }
    }
  }

  // ------------------------------------------------------------------------- the chunks

  /** Chunks cut from one division: filed under its path, they show its visible text in order, and are one if it fits. */
  ghost predicate ChunksOf(e: Estimator, division: Part, chunks: seq<Chunk>) {
    && (forall c :: c in chunks ==> c.headingPath == JoinPath(division.path))
    && (e.Tokens(JoinTexts(division.blocks)) <= MAX_TOKENS ==> |chunks| <= 1)
    && SolidAll(ChunkTexts(chunks)) == SolidBlocks(division.blocks)
  }

  ghost predicate EachChunked(e: Estimator, divisions: seq<Part>, cuts: seq<seq<Chunk>>) {
    |cuts| == |divisions| && forall j :: 0 <= j < |cuts| ==> ChunksOf(e, divisions[j], cuts[j])
  }

  lemma EmittedPath(n: nat, filed: seq<Filed>, path: seq<string>)
    requires forall f :: f in filed ==> f.part.path == path
    ensures forall c :: c in EmitAll(n, filed) ==> c.headingPath == JoinPath(path)
  {
    EmitAllAt(n, filed);
  }

  lemma DivisionEmitted(e: Estimator, n: nat, section: Option<string>, division: Part, parts: seq<Part>)
    requires CutFrom(e, division, parts)
    ensures ChunksOf(e, division, EmitAll(n, FileUnder(section, parts)))
  {
    var filed := FileUnder(section, parts);
    FileUnderParts(section, parts);
    EmittedPath(n, filed, division.path);
    FileUnderBlocks(section, parts);
    EmittedSolid(n, filed);
  }

  lemma {:induction false} FileUnderConcat(section: Option<string>, a: seq<Part>, b: seq<Part>)
    ensures FileUnder(section, a + b) == FileUnder(section, a) + FileUnder(section, b)
  {
    if a == [] {
      Nothing(b);
      Nothing(FileUnder(section, b));
    } else {
      assert (a + b)[1..] == a[1..] + b;
      FileUnderConcat(section, a[1..], b);
      Assoc([Filed(section, a[0])], FileUnder(section, a[1..]), FileUnder(section, b));
    }
  }

  lemma ChunkedCons(e: Estimator, division: Part, cut: seq<Chunk>, divisions: seq<Part>, cuts: seq<seq<Chunk>>)
    requires ChunksOf(e, division, cut) && EachChunked(e, divisions, cuts)
    ensures EachChunked(e, [division] + divisions, [cut] + cuts)
  {
  }

  lemma {:induction false} DivisionsEmitted(e: Estimator, n: nat, section: Option<string>, divisions: seq<Part>, parts: seq<seq<Part>>)
      returns (cuts: seq<seq<Chunk>>)
    requires EachCutFrom(e, divisions, parts)
    ensures EachChunked(e, divisions, cuts) && Flatten(cuts) == EmitAll(n, FileUnder(section, Flatten(parts)))
    decreases |parts|
  {
    cuts := [];
    if parts != [] {
      var head, tail := FileUnder(section, parts[0]), FileUnder(section, Flatten(parts[1..]));
      var after := DivisionsEmitted(e, n + |head|, section, divisions[1..], parts[1..]);
      DivisionEmitted(e, n, section, divisions[0], parts[0]);
      cuts := [EmitAll(n, head)] + after;
      ChunkedCons(e, divisions[0], EmitAll(n, head), divisions[1..], after);
      DropOne(divisions, 0);
      Whole(divisions);
      FileUnderConcat(section, parts[0], Flatten(parts[1..]));
      EmitAllConcat(n, head, tail);
      FlattenCons(EmitAll(n, head), after);
    }
  }

  /**
   The chunks of a unit: of its section, and cut from its divisions in order, each filed
   under the path of the one it is of.
   */
  ghost predicate UnitChunks(e: Estimator, u: Unit, chunks: seq<Chunk>) {
    && (forall c :: c in chunks ==> c.section == u.section)
    && exists divisions, cuts :: Divided(e, u, divisions) && EachChunked(e, divisions, cuts) && chunks == Flatten(cuts)
  }

  lemma EmittedSection(n: nat, section: Option<string>, parts: seq<Part>)
    ensures forall c :: c in EmitAll(n, FileUnder(section, parts)) ==> c.section == section
  {
    EmitAllAt(n, FileUnder(section, parts));
    FileUnderParts(section, parts);
  }

  lemma UnitEmitted(e: Estimator, n: nat, u: Unit)
    ensures UnitChunks(e, u, EmitAll(n, FileUnder(u.section, UnitParts(e, u))))
  {
    var divisions, parts := UnitPartsCut(e, u);
    var cuts := DivisionsEmitted(e, n, u.section, divisions, parts);
    EmittedSection(n, u.section, UnitParts(e, u));
  }

  /** Chunks that fall into those of each unit, in order. */
  ghost predicate ChunksByUnit(e: Estimator, units: seq<Unit>, chunks: seq<Chunk>, each: seq<seq<Chunk>>) {
    && chunks == Flatten(each) && |each| == |units|
    && forall k :: 0 <= k < |units| ==> UnitChunks(e, units[k], each[k])
  }

  lemma ByUnitCons(e: Estimator, u: Unit, head: seq<Chunk>, units: seq<Unit>, tail: seq<Chunk>, each: seq<seq<Chunk>>)
    requires UnitChunks(e, u, head) && ChunksByUnit(e, units, tail, each)
    ensures ChunksByUnit(e, [u] + units, head + tail, [head] + each)
  {
    FlattenCons(head, each);
  }

  lemma {:induction false} UnitsEmitted(e: Estimator, n: nat, units: seq<Unit>) returns (each: seq<seq<Chunk>>)
    ensures ChunksByUnit(e, units, EmitAll(n, FiledParts(e, units)), each)
    decreases |units|
  {
    each := [];
    if units != [] {
      var head := FileUnder(units[0].section, UnitParts(e, units[0]));
      var rest := FiledParts(e, units[1..]);
      var after := UnitsEmitted(e, n + |head|, units[1..]);
      UnitEmitted(e, n, units[0]);
      ByUnitCons(e, units[0], EmitAll(n, head), units[1..], EmitAll(n + |head|, rest), after);
      DropOne(units, 0);
      Whole(units);
      EmitAllConcat(n, head, rest);
      each := [EmitAll(n, head)] + after;
    }
  }

  /** For every extraction the chunks are those of its units, in order, each unit's cut as UnitChunks says. */
  lemma ChunksFollowUnits(e: Estimator, blocks: seq<Block>) returns (each: seq<seq<Chunk>>)
    ensures ChunksByUnit(e, Units(e, blocks), Chunks(e, blocks), each)
  {
    each := UnitsEmitted(e, 0, Units(e, blocks));
  }

  // --------------------------------------------------------------- a path is told apart

  /** Splitting a stored path at the separator gives its headings back, if none is blank or holds the separator's sign. */
  lemma PathReadsBack(path: seq<string>)
    requires path != [] && forall p :: p in path ==> p != "" && '>' !in p
    ensures Split(JoinPath(path), PATH_SEP) == path
  {
    AllNonEmpty(path);
    JoinSplits(path, PATH_SEP, 1);
  }

  lemma {:induction false} AllNonEmpty(path: seq<string>)
    requires forall p :: p in path ==> p != ""
    ensures NonEmpty(path) == path
  {
    if path != [] {
      DropOne(path, 0);
      Whole(path);
      assert forall p :: p in path[1..] ==> p in path;
      AllNonEmpty(path[1..]);
      assert path[0] in path;
    }
  }

  /** A blank heading adds nothing to a stored path. */
  lemma {:induction false} BlankAddsNothing(before: seq<string>, after: seq<string>)
    ensures JoinPath(before + [""] + after) == JoinPath(before + after)
  {
    NonEmptyConcat(before + [""], after);
    NonEmptyConcat(before, [""]);
    NonEmptyConcat(before, after);
    assert NonEmpty([""]) == [];
    Nothing(NonEmpty(before));
  }

  lemma {:induction false} NonEmptyConcat(a: seq<string>, b: seq<string>)
    ensures NonEmpty(a + b) == NonEmpty(a) + NonEmpty(b)
  {
    if a == [] {
      Nothing(b);
      Nothing(NonEmpty(b));
    } else {
      assert (a + b)[1..] == a[1..] + b;
      NonEmptyConcat(a[1..], b);
      Assoc(if a[0] == "" then [] else [a[0]], NonEmpty(a[1..]), NonEmpty(b));
    }
  }

  // ------------------------------------------------------------- and so is a chunk's text

  /** A text that begins and ends with ink is its own stripped form. */
  lemma StrippedAlready(s: string)
    requires s != "" && !IsSpace(s[0]) && !IsSpace(s[|s| - 1])
    ensures Strip(s) == s
  {
  }

  lemma {:induction false} JoinedEnds(parts: seq<string>, sep: string)
    requires parts != [] && forall p :: p in parts ==> p != "" && !IsSpace(p[0]) && !IsSpace(p[|p| - 1])
    ensures var s := Join(parts, sep); s != "" && !IsSpace(s[0]) && !IsSpace(s[|s| - 1])
  {
    if |parts| > 1 {
      JoinedEnds(parts[1..], sep);
    }
  }

  /** A block's text as it is on its own: stripped, not blank and without a line feed. */
  predicate OneLine(b: Block) {
    b.text != "" && Strip(b.text) == b.text && '\n' !in b.text
  }

  /** Splitting a chunk's text at its blank lines gives back the texts of the blocks it was made of, if each is one line. */
  lemma TextReadsBack(n: nat, f: Filed)
    requires f.part.blocks != [] && forall b :: b in f.part.blocks ==> OneLine(b)
    ensures Split(Emit(n, f).text, BLANK_LINE) == TextsOf(f.part.blocks)
  {
    var texts := TextsOf(f.part.blocks);
    forall p | p in texts
      ensures p != "" && !IsSpace(p[0]) && !IsSpace(p[|p| - 1]) && '\n' !in p
    {
      var i :| 0 <= i < |texts| && texts[i] == p;
      assert f.part.blocks[i] in f.part.blocks;
      var a, b := StripSplits(p);
    }
    JoinedEnds(texts, BLANK_LINE);
    StrippedAlready(Join(texts, BLANK_LINE));
    JoinSplits(texts, BLANK_LINE, 0);
  }

  // -------------------------------------------------------- every cut is a greedy packing

  lemma {:induction false} PartsOfAt(path: seq<string>, packs: seq<seq<Run>>)
    ensures |PartsOf(path, packs)| == |packs|
    ensures forall j :: 0 <= j < |packs| ==> PartsOf(path, packs)[j].blocks == FlattenRuns(packs[j])
  {
    if packs != [] {
      PartsOfAt(path, packs[1..]);
    }
  }

  lemma {:induction false} BlockPartsAt(path: seq<string>, groups: seq<seq<Block>>)
    ensures |BlockParts(path, groups)| == |groups|
    ensures forall j :: 0 <= j < |groups| ==> BlockParts(path, groups)[j] == Part(path, groups[j])
  {
    if groups != [] {
      BlockPartsAt(path, groups[1..]);
    }
  }

  lemma {:induction false} PieceBlocksAt(b: Block, groups: seq<seq<string>>)
    ensures |PieceBlocks(b, groups)| == |groups|
    ensures forall j :: 0 <= j < |groups| ==> PieceBlocks(b, groups)[j] == b.(text := Join(groups[j], "\n"))
  {
    if groups != [] {
      PieceBlocksAt(b, groups[1..]);
    }
  }

  /** The divisions of a unit that subheadings divide are its runs, packed greedily. */
  lemma DivisionsPacked(e: Estimator, u: Unit) returns (runs: seq<Run>, groups: seq<seq<Run>>)
    requires Divides(u.blocks)
    ensures AreRuns(u.blocks, runs) && GreedyPacking(runs, RunAtoms(e), groups)
    ensures var divisions := SubdivideAtHeadings(e, u);
            |divisions| == |groups| && forall j :: 0 <= j < |groups| ==> divisions[j].blocks == FlattenRuns(groups[j])
  {
    runs := SubheadingRuns(u.blocks);
    groups := Pack(runs, RunAtoms(e));
    ManyRuns(u.blocks);
    RunsAre(u.blocks);
    PackIsGreedy(runs, RunAtoms(e));
    PartsOfAt(u.headingPath, groups);
  }

  /** The parts an oversized division is cut into are its blocks, those oversized cut themselves, packed greedily. */
  lemma PartsPacked(e: Estimator, division: Part) returns (groups: seq<seq<Block>>)
    requires e.Tokens(JoinTexts(division.blocks)) > MAX_TOKENS
    ensures GreedyPacking(SplitBlocks(e, division.blocks), BlockAtoms(e), groups)
    ensures var parts := CapPart(e, division);
            |parts| == |groups| && forall j :: 0 <= j < |groups| ==> parts[j] == Part(division.path, groups[j])
  {
    groups := Pack(SplitBlocks(e, division.blocks), BlockAtoms(e));
    PackIsGreedy(SplitBlocks(e, division.blocks), BlockAtoms(e));
    BlockPartsAt(division.path, groups);
  }

  /** The blocks an oversized one is cut into are its paragraphs, or its lines if it has but one, packed greedily. */
  lemma PiecesPacked(e: Estimator, b: Block) returns (groups: seq<seq<string>>)
    requires e.Tokens(b.text) > MAX_TOKENS
    ensures GreedyPacking(if Occurs(b.text, "\n\n") then Split(b.text, "\n\n") else LinesOf(b.text), TextAtoms(e), groups)
    ensures var pieces := SplitBlock(e, b);
            |pieces| == |groups| && forall j :: 0 <= j < |groups| ==> pieces[j] == b.(text := Join(groups[j], "\n"))
  {
    SplitPartsWhole(b.text, BLANK_LINE);
    groups := Pack(Pieces(b.text), TextAtoms(e));
    PackIsGreedy(Pieces(b.text), TextAtoms(e));
    PieceBlocksAt(b, groups);
  }
}
