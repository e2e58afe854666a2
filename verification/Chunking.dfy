/**
 The chunker (internal/domain/chunking.go): blocks are grouped into units, small
 units merge forward, chapter stubs fold into their first subsection, and an
 oversized unit is subdivided at subheadings, then blocks, then paragraphs or
 lines. Each loop of the source is a method here, proved to compute the function
 of the same stage; Conservation, Sections and SizeBound prove what the stages
 keep.
 */
module Chunking {
  import opened Sequences
  import opened Text
  import opened Tokens

  const MAX_TOKENS: nat := 1200
  const MIN_TOKENS: nat := 100
  const STUB_MAX_TOKENS: nat := 30
  const PATH_SEP := " > "
  const BLANK_LINE := "\n\n"

  datatype Block = Block(
    section: Option<string>,
    headingPath: seq<string>,
    text: string,
    figureOnly: bool,
    subdivision: bool)

  datatype Unit = Unit(section: Option<string>, headingPath: seq<string>, blocks: seq<Block>)

  datatype Part = Part(path: seq<string>, blocks: seq<Block>)

  datatype Run = Run(name: string, blocks: seq<Block>)

  datatype Chunk = Chunk(ordinal: nat, headingPath: string, text: string, section: Option<string>)

  /**
   How text is sized. What chunking keeps does not depend on it; ByAtoms is the
   estimate of internal/domain/tokens.go.
   */
  datatype Estimator = Estimator(atoms: string -> nat) {
    function Tokens(s: string): nat {
      TokensFromAtoms(atoms(s))
    }
  }

  function ByAtoms(w: WordClass): Estimator {
    Estimator((s: string) => AtomCount(w, s))
  }

  // --------------------------------------------------------------- small pieces

  function TextsOf(blocks: seq<Block>): (texts: seq<string>)
    ensures |texts| == |blocks|
    ensures forall i :: 0 <= i < |blocks| ==> texts[i] == blocks[i].text
  {
    if blocks == [] then [] else [blocks[0].text] + TextsOf(blocks[1..])
  }

  function JoinTexts(blocks: seq<Block>): string {
    Join(TextsOf(blocks), BLANK_LINE)
  }

  function UnitText(u: Unit): string {
    Strip(JoinTexts(u.blocks))
  }

  function UnitTokens(e: Estimator, u: Unit): nat {
    e.Tokens(UnitText(u))
  }

  function Parent(path: seq<string>): seq<string> {
    if path == [] then [] else path[..|path| - 1]
  }

  function ParentOrSelf(path: seq<string>): seq<string> {
    if |path| > 1 then path[..|path| - 1] else path
  }

  /** child has parent and a dot in front of the rest of its number. */
  predicate IsDescendant(child: Option<string>, parent: Option<string>) {
    && child.Some? && parent.Some? && child.value != "" && parent.value != ""
    && parent.value + "." <= child.value
  }

  function NonEmpty(path: seq<string>): seq<string> {
    if path == [] then []
    else (if path[0] == "" then [] else [path[0]]) + NonEmpty(path[1..])
  }

  function JoinPath(path: seq<string>): string {
    Join(NonEmpty(path), PATH_SEP)
  }

  function FirstLine(text: string): string {
    if LinesOf(text) == [] then "" else Strip(LinesOf(text)[0])
  }

  function FlattenUnits(units: seq<Unit>): seq<Block> {
    if units == [] then [] else units[0].blocks + FlattenUnits(units[1..])
  }

  function FlattenRuns(runs: seq<Run>): seq<Block> {
    if runs == [] then [] else runs[0].blocks + FlattenRuns(runs[1..])
  }

  function FlattenParts(parts: seq<Part>): seq<Block> {
    if parts == [] then [] else parts[0].blocks + FlattenParts(parts[1..])
  }

  function Flatten<T>(groups: seq<seq<T>>): seq<T> {
    if groups == [] then [] else groups[0] + Flatten(groups[1..])
  }

  // -------------------------------------------------------------------- grouping

  predicate SameKey(u: Unit, b: Block) {
    u.section == b.section && u.headingPath == b.headingPath
  }

  /** Adds one block to the last unit when it shares its section and path, else to a new one. */
  function AddBlock(units: seq<Unit>, b: Block): seq<Unit> {
    if units != [] && SameKey(units[|units| - 1], b)
    then units[|units| - 1 := units[|units| - 1].(blocks := units[|units| - 1].blocks + [b])]
    else units + [Unit(b.section, b.headingPath, [b])]
  }

  function Group(blocks: seq<Block>): seq<Unit> {
    if blocks == [] then [] else AddBlock(Group(blocks[..|blocks| - 1]), blocks[|blocks| - 1])
  }

  method GroupBlocks(blocks: seq<Block>) returns (units: seq<Unit>)
    ensures units == Group(blocks)
  {
    units := [];
    for i := 0 to |blocks|
      invariant units == Group(blocks[..i])
    {
      assert blocks[..i + 1][..i] == blocks[..i];
      var b := blocks[i];
      var n := |units|;
      if n > 0 && units[n - 1].section == b.section && units[n - 1].headingPath == b.headingPath {
        units := units[n - 1 := units[n - 1].(blocks := units[n - 1].blocks + [b])];
      } else {
        units := units + [Unit(b.section, b.headingPath, [b])];
      }
    }
    assert blocks[..|blocks|] == blocks;
  }

  // --------------------------------------------------------------------- merging

  predicate Mergeable(cur: Unit, next: Unit) {
    next.section == cur.section && Parent(cur.headingPath) == Parent(next.headingPath)
  }

  predicate Absorbs(e: Estimator, cur: Unit, next: Unit) {
    UnitTokens(e, cur) < MIN_TOKENS && Mergeable(cur, next)
  }

  function Merged(cur: Unit, next: Unit): Unit {
    Unit(cur.section, ParentOrSelf(cur.headingPath), cur.blocks + next.blocks)
  }

  /** The units made of cur, still growing, and the units after it. */
  function MergeFrom(e: Estimator, cur: Unit, rest: seq<Unit>): seq<Unit>
    decreases |rest|
  {
    if rest == [] then [cur]
    else if Absorbs(e, cur, rest[0]) then MergeFrom(e, Merged(cur, rest[0]), rest[1..])
    else [cur] + MergeFrom(e, rest[0], rest[1..])
  }

  function MergeSmall(e: Estimator, units: seq<Unit>): seq<Unit> {
    if units == [] then [] else MergeFrom(e, units[0], units[1..])
  }

  /** Grows units[i] while it is under MIN_TOKENS and the next unit may merge into it. */
  method AbsorbFollowing(e: Estimator, units: seq<Unit>, i: nat) returns (cur: Unit, next: nat)
    requires i < |units|
    ensures i < next <= |units| && (next < |units| ==> !Absorbs(e, cur, units[next]))
    ensures MergeSmall(e, units[i..]) == [cur] + MergeSmall(e, units[next..])
  {
    cur := units[i];
    var j := i + 1;
    DropOne(units, i);
    while j < |units| && Absorbs(e, cur, units[j])
      invariant i < j <= |units|
      invariant MergeSmall(e, units[i..]) == MergeFrom(e, cur, units[j..])
    {
      MergeGrows(e, cur, units, j);
      cur := Unit(cur.section, ParentOrSelf(cur.headingPath), cur.blocks + units[j].blocks);
      j := j + 1;
    }
    next := j;
    MergeStops(e, cur, units, j);
  }

  lemma MergeGrows(e: Estimator, cur: Unit, units: seq<Unit>, j: nat)
    requires j < |units| && Absorbs(e, cur, units[j])
    ensures MergeFrom(e, cur, units[j..]) == MergeFrom(e, Merged(cur, units[j]), units[j + 1..])
  {
    DropOne(units, j);
  }

  lemma MergeStops(e: Estimator, cur: Unit, units: seq<Unit>, j: nat)
    requires j <= |units| && (j < |units| ==> !Absorbs(e, cur, units[j]))
    ensures MergeFrom(e, cur, units[j..]) == [cur] + MergeSmall(e, units[j..])
  {
    if j < |units| {
      DropOne(units, j);
    }
  }

  method MergeSmallUnits(e: Estimator, units: seq<Unit>) returns (out: seq<Unit>)
    ensures out == MergeSmall(e, units)
  {
    out := [];
    var i := 0;
    assert units[0..] == units;
    while i < |units|
      invariant i <= |units|
      invariant MergeSmall(e, units) == out + MergeSmall(e, units[i..])
    {
      var merged, next := AbsorbFollowing(e, units, i);
      assert out + ([merged] + MergeSmall(e, units[next..])) == (out + [merged]) + MergeSmall(e, units[next..]);
      out := out + [merged];
      i := next;
    }
    assert units[i..] == [];
  }

  // --------------------------------------------------------------------- folding

  predicate IsStub(e: Estimator, cur: Unit, next: Unit) {
    && cur.section.Some? && IsDescendant(next.section, cur.section)
    && UnitTokens(e, cur) < STUB_MAX_TOKENS
  }

  function FoldedInto(cur: Unit, next: Unit): Unit {
    next.(blocks := cur.blocks + next.blocks)
  }

  /** Folds each stub into the unit after it, which may then be a stub itself. */
  function FoldStubs(e: Estimator, units: seq<Unit>): seq<Unit>
    decreases |units|
  {
    if |units| <= 1 then units
    else if IsStub(e, units[0], units[1])
    then FoldStubs(e, [FoldedInto(units[0], units[1])] + units[2..])
    else [units[0]] + FoldStubs(e, units[1..])
  }

  method FoldChapterStubs(e: Estimator, units: seq<Unit>) returns (out: seq<Unit>)
    ensures out == FoldStubs(e, units)
  {
    var us := units;
    out := [];
    assert us[0..] == us;
    for i := 0 to |us|
      invariant |us| == |units|
      invariant FoldStubs(e, units) == out + FoldStubs(e, us[i..])
    {
      var cur := us[i];
      if i + 1 < |us| && IsStub(e, cur, us[i + 1]) {
        var next := us[i + 1];
        FoldGrows(e, us, i);
        us := us[i + 1 := Unit(next.section, next.headingPath, cur.blocks + next.blocks)];
        continue;
      }
      FoldStops(e, us, i);
      out := out + [cur];
    }
    assert us[|us|..] == [];
  }

  lemma FoldGrows(e: Estimator, us: seq<Unit>, i: nat)
    requires i + 1 < |us| && IsStub(e, us[i], us[i + 1])
    ensures FoldStubs(e, us[i..]) == FoldStubs(e, us[i + 1 := FoldedInto(us[i], us[i + 1])][i + 1..])
  {
    var folded := FoldedInto(us[i], us[i + 1]);
    assert us[i + 1 := folded][i + 1..] == [folded] + us[i..][2..];
  }

  lemma FoldStops(e: Estimator, us: seq<Unit>, i: nat)
    requires i < |us| && (i + 1 < |us| ==> !IsStub(e, us[i], us[i + 1]))
    ensures FoldStubs(e, us[i..]) == [us[i]] + FoldStubs(e, us[i + 1..])
  {
    assert us[i..][1..] == us[i + 1..];
    if i + 1 == |us| {
      assert us[i..] == [us[i]] && us[i + 1..] == [];
    }
  }

  // --------------------------------------------------------------------- packing

  function SumAtoms<T>(items: seq<T>, atoms: T -> nat): nat {
    if items == [] then 0 else SumAtoms(items[..|items| - 1], atoms) + atoms(items[|items| - 1])
  }

  predicate Fits<T>(items: seq<T>, atoms: T -> nat) {
    TokensFromAtoms(SumAtoms(items, atoms)) <= MAX_TOKENS
  }

  /** The groups made of cur, still open, and the items after it. */
  function PackFrom<T>(cur: seq<T>, rest: seq<T>, atoms: T -> nat): seq<seq<T>>
    decreases |rest|
  {
    if rest == [] then (if cur == [] then [] else [cur])
    else if cur != [] && !Fits(cur + [rest[0]], atoms) then [cur] + PackFrom([rest[0]], rest[1..], atoms)
    else PackFrom(cur + [rest[0]], rest[1..], atoms)
  }

  function Pack<T>(items: seq<T>, atoms: T -> nat): seq<seq<T>> {
    PackFrom([], items, atoms)
  }

  method PackByAtoms<T>(items: seq<T>, atoms: T -> nat) returns (groups: seq<seq<T>>)
    ensures groups == Pack(items, atoms)
  {
    groups := [];
    var cur: seq<T> := [];
    var total := 0;
    assert items[0..] == items;
    for i := 0 to |items|
      invariant total == SumAtoms(cur, atoms)
      invariant Pack(items, atoms) == groups + PackFrom(cur, items[i..], atoms)
    {
      var item := items[i];
      var n := atoms(item);
      SumAtomsSnoc(cur, item, atoms);
      assert items[i..][1..] == items[i + 1..];
      ghost var before := PackFrom(cur, items[i..], atoms);
      if |cur| > 0 && TokensFromAtoms(total + n) > MAX_TOKENS {
        assert before == [cur] + PackFrom([item], items[i + 1..], atoms);
        groups := groups + [cur];
        cur, total := [], 0;
        SumAtomsSnoc([], item, atoms);
        assert [] + [item] == [item];
      }
      cur := cur + [item];
      total := total + n;
    }
    assert items[|items|..] == [];
    if |cur| > 0 {
      groups := groups + [cur];
    }
  }

  lemma SumAtomsSnoc<T>(items: seq<T>, item: T, atoms: T -> nat)
    ensures SumAtoms(items + [item], atoms) == SumAtoms(items, atoms) + atoms(item)
  {
    assert (items + [item])[..|items|] == items;
  }

  // ------------------------------------------------------------------ subdividing

  predicate StartsRun(b: Block) {
    b.subdivision && !b.figureOnly
  }

  function AddToRuns(runs: seq<Run>, b: Block): seq<Run> {
    if StartsRun(b) then runs + [Run(FirstLine(b.text), [b])]
    else if runs != []
    then runs[|runs| - 1 := runs[|runs| - 1].(blocks := runs[|runs| - 1].blocks + [b])]
    else runs + [Run("", [b])]
  }

  function SubheadingRuns(blocks: seq<Block>): seq<Run> {
    if blocks == [] then []
    else AddToRuns(SubheadingRuns(blocks[..|blocks| - 1]), blocks[|blocks| - 1])
  }

  method SplitAtSubheadings(blocks: seq<Block>) returns (runs: seq<Run>)
    ensures runs == SubheadingRuns(blocks)
  {
    runs := [];
    for i := 0 to |blocks|
      invariant runs == SubheadingRuns(blocks[..i])
    {
      assert blocks[..i + 1][..i] == blocks[..i];
      var b := blocks[i];
      if b.subdivision && !b.figureOnly {
        var lines := SplitLines(b.text);
        var name := if |lines| == 0 then "" else Strip(lines[0]);
        runs := runs + [Run(name, [b])];
      } else if |runs| > 0 {
        runs := runs[|runs| - 1 := runs[|runs| - 1].(blocks := runs[|runs| - 1].blocks + [b])];
      } else {
        runs := runs + [Run("", [b])];
      }
    }
    assert blocks[..|blocks|] == blocks;
  }

  function Named(runs: seq<Run>): seq<string> {
    if runs == [] then []
    else (if runs[0].name == "" then [] else [runs[0].name]) + Named(runs[1..])
  }

  function PackedPath(path: seq<string>, runs: seq<Run>): seq<string> {
    if |Named(runs)| == 1 then path + Named(runs) else path
  }

  function BlockAtoms(e: Estimator): Block -> nat {
    (b: Block) => e.atoms(b.text)
  }

  function RunAtoms(e: Estimator): Run -> nat {
    (r: Run) => SumAtoms(r.blocks, BlockAtoms(e))
  }

  function TextAtoms(e: Estimator): string -> nat {
    (s: string) => e.atoms(s)
  }

  function PartOf(path: seq<string>, packed: seq<Run>): Part {
    Part(PackedPath(path, packed), FlattenRuns(packed))
  }

  function PartsOf(path: seq<string>, packs: seq<seq<Run>>): seq<Part> {
    if packs == [] then [] else [PartOf(path, packs[0])] + PartsOf(path, packs[1..])
  }

  function SubdivideAtHeadings(e: Estimator, u: Unit): seq<Part> {
    var runs := SubheadingRuns(u.blocks);
    if |runs| <= 1 then [Part(u.headingPath, u.blocks)]
    else PartsOf(u.headingPath, Pack(runs, RunAtoms(e)))
  }

  method SubdivideUnit(e: Estimator, u: Unit) returns (parts: seq<Part>)
    ensures parts == SubdivideAtHeadings(e, u)
  {
    var runs := SplitAtSubheadings(u.blocks);
    if |runs| <= 1 {
      return [Part(u.headingPath, u.blocks)];
    }
    var packs := PackByAtoms(runs, RunAtoms(e));
    parts := [];
    assert packs[0..] == packs;
    for i := 0 to |packs|
      invariant PartsOf(u.headingPath, packs) == parts + PartsOf(u.headingPath, packs[i..])
    {
      assert packs[i..][1..] == packs[i + 1..];
      parts := parts + [Part(PackedPath(u.headingPath, packs[i]), FlattenRuns(packs[i]))];
    }
    assert packs[|packs|..] == [];
  }

  // --------------------------------------------------------- splitting one block

  /** Where a block may be cut: at blank lines, or at line ends when it holds none. */
  function Pieces(text: string): seq<string> {
    if |Split(text, BLANK_LINE)| == 1 then LinesOf(text) else Split(text, BLANK_LINE)
  }

  function PieceBlocks(b: Block, groups: seq<seq<string>>): seq<Block> {
    if groups == [] then []
    else [b.(text := Join(groups[0], "\n"))] + PieceBlocks(b, groups[1..])
  }

  function SplitBlock(e: Estimator, b: Block): seq<Block> {
    if e.Tokens(b.text) <= MAX_TOKENS then [b]
    else PieceBlocks(b, Pack(Pieces(b.text), TextAtoms(e)))
  }

  function SplitBlocks(e: Estimator, blocks: seq<Block>): seq<Block> {
    if blocks == [] then [] else SplitBlock(e, blocks[0]) + SplitBlocks(e, blocks[1..])
  }

  method SplitOneBlock(e: Estimator, b: Block) returns (out: seq<Block>)
    ensures out == SplitBlock(e, b)
  {
    if e.Tokens(b.text) <= MAX_TOKENS {
      return [b];
    }
    var pieces := Split(b.text, BLANK_LINE);
    if |pieces| == 1 {
      pieces := SplitLines(b.text);
    }
    var groups := PackByAtoms(pieces, TextAtoms(e));
    out := [];
    assert groups[0..] == groups;
    for i := 0 to |groups|
      invariant PieceBlocks(b, groups) == out + PieceBlocks(b, groups[i..])
    {
      assert groups[i..][1..] == groups[i + 1..];
      out := out + [b.(text := Join(groups[i], "\n"))];
    }
    assert groups[|groups|..] == [];
  }

  function BlockParts(path: seq<string>, groups: seq<seq<Block>>): seq<Part> {
    if groups == [] then [] else [Part(path, groups[0])] + BlockParts(path, groups[1..])
  }

  function CapPart(e: Estimator, p: Part): seq<Part> {
    if e.Tokens(JoinTexts(p.blocks)) <= MAX_TOKENS then [p]
    else BlockParts(p.path, Pack(SplitBlocks(e, p.blocks), BlockAtoms(e)))
  }

  function CapAtBlocks(e: Estimator, parts: seq<Part>): seq<Part> {
    if parts == [] then [] else CapPart(e, parts[0]) + CapAtBlocks(e, parts[1..])
  }

  method ExpandBlocks(e: Estimator, blocks: seq<Block>) returns (expanded: seq<Block>)
    ensures expanded == SplitBlocks(e, blocks)
  {
    expanded := [];
    assert blocks[0..] == blocks;
    for i := 0 to |blocks|
      invariant SplitBlocks(e, blocks) == expanded + SplitBlocks(e, blocks[i..])
    {
      assert blocks[i..][1..] == blocks[i + 1..];
      var pieces := SplitOneBlock(e, blocks[i]);
      expanded := expanded + pieces;
    }
    assert blocks[|blocks|..] == [];
  }

  method CapPartAtBlocks(e: Estimator, p: Part) returns (out: seq<Part>)
    ensures out == CapPart(e, p)
  {
    if e.Tokens(JoinTexts(p.blocks)) <= MAX_TOKENS {
      return [p];
    }
    var expanded := ExpandBlocks(e, p.blocks);
    var groups := PackByAtoms(expanded, BlockAtoms(e));
    out := [];
    assert groups[0..] == groups;
    for i := 0 to |groups|
      invariant BlockParts(p.path, groups) == out + BlockParts(p.path, groups[i..])
    {
      assert groups[i..][1..] == groups[i + 1..];
      out := out + [Part(p.path, groups[i])];
    }
    assert groups[|groups|..] == [];
  }

  method CapPartsAtBlocks(e: Estimator, parts: seq<Part>) returns (out: seq<Part>)
    ensures out == CapAtBlocks(e, parts)
  {
    out := [];
    assert parts[0..] == parts;
    for i := 0 to |parts|
      invariant CapAtBlocks(e, parts) == out + CapAtBlocks(e, parts[i..])
    {
      assert parts[i..][1..] == parts[i + 1..];
      var capped := CapPartAtBlocks(e, parts[i]);
      out := out + capped;
    }
    assert parts[|parts|..] == [];
  }

  predicate AnyText(blocks: seq<Block>) {
    blocks != [] && (Strip(blocks[0].text) != "" || AnyText(blocks[1..]))
  }

  function WithText(parts: seq<Part>): seq<Part> {
    if parts == [] then []
    else (if AnyText(parts[0].blocks) then [parts[0]] else []) + WithText(parts[1..])
  }

  function UnitParts(e: Estimator, u: Unit): seq<Part> {
    if UnitText(u) == "" then []
    else if e.Tokens(UnitText(u)) <= MAX_TOKENS then [Part(u.headingPath, u.blocks)]
    else WithText(CapAtBlocks(e, SubdivideAtHeadings(e, u)))
  }

  method KeepParts(parts: seq<Part>) returns (kept: seq<Part>)
    ensures kept == WithText(parts)
  {
    kept := [];
    assert parts[0..] == parts;
    for i := 0 to |parts|
      invariant WithText(parts) == kept + WithText(parts[i..])
    {
      assert parts[i..][1..] == parts[i + 1..];
      if AnyText(parts[i].blocks) {
        kept := kept + [parts[i]];
      }
    }
    assert parts[|parts|..] == [];
  }

  method PartsOfUnit(e: Estimator, u: Unit) returns (parts: seq<Part>)
    ensures parts == UnitParts(e, u)
  {
    var text := UnitText(u);
    if text == "" {
      return [];
    }
    if e.Tokens(text) <= MAX_TOKENS {
      return [Part(u.headingPath, u.blocks)];
    }
    var divided := SubdivideUnit(e, u);
    var capped := CapPartsAtBlocks(e, divided);
    parts := KeepParts(capped);
  }

  // ---------------------------------------------------------------------- chunks

  /** A part as it is filed: with the section of the unit it came from. */
  datatype Filed = Filed(section: Option<string>, part: Part)

  function FileUnder(section: Option<string>, parts: seq<Part>): seq<Filed> {
    if parts == [] then [] else [Filed(section, parts[0])] + FileUnder(section, parts[1..])
  }

  function FiledParts(e: Estimator, units: seq<Unit>): seq<Filed> {
    if units == [] then []
    else FileUnder(units[0].section, UnitParts(e, units[0])) + FiledParts(e, units[1..])
  }

  function Units(e: Estimator, blocks: seq<Block>): seq<Unit> {
    FoldStubs(e, MergeSmall(e, Group(blocks)))
  }

  /** Every part of an extraction, in chunk order. */
  function Filing(e: Estimator, blocks: seq<Block>): seq<Filed> {
    FiledParts(e, Units(e, blocks))
  }

  function Emit(ordinal: nat, f: Filed): Chunk {
    Chunk(ordinal, JoinPath(f.part.path), Strip(JoinTexts(f.part.blocks)), f.section)
  }

  /** The chunks of the parts filed from ordinal n on. */
  function EmitAll(n: nat, filed: seq<Filed>): seq<Chunk>
    decreases |filed|
  {
    if filed == [] then [] else [Emit(n, filed[0])] + EmitAll(n + 1, filed[1..])
  }

  lemma {:induction false} EmitAllAt(n: nat, filed: seq<Filed>)
    ensures |EmitAll(n, filed)| == |filed|
    ensures forall i :: 0 <= i < |filed| ==> EmitAll(n, filed)[i] == Emit(n + i, filed[i])
    decreases |filed|
  {
    if filed != [] {
      EmitAllAt(n + 1, filed[1..]);
    }
  }

  function Chunks(e: Estimator, blocks: seq<Block>): seq<Chunk> {
    EmitAll(0, Filing(e, blocks))
  }

  lemma {:induction false} EmitAllConcat(n: nat, a: seq<Filed>, b: seq<Filed>)
    ensures EmitAll(n, a + b) == EmitAll(n, a) + EmitAll(n + |a|, b)
    ensures |EmitAll(n, a)| == |a|
    decreases |a|
  {
    if a == [] {
      assert a + b == b;
    } else {
      assert (a + b)[1..] == a[1..] + b;
      EmitAllConcat(n + 1, a[1..], b);
    }
  }

  /** Emitting after the chunks already made: first one run of parts, then the rest. */
  lemma EmitStep(chunks: seq<Chunk>, head: seq<Filed>, tail: seq<Filed>)
    ensures var more := chunks + EmitAll(|chunks|, head);
            chunks + EmitAll(|chunks|, head + tail) == more + EmitAll(|more|, tail)
  {
    EmitAllConcat(|chunks|, head, tail);
  }

  method AppendParts(before: seq<Chunk>, section: Option<string>, parts: seq<Part>) returns (chunks: seq<Chunk>)
    ensures chunks == before + EmitAll(|before|, FileUnder(section, parts))
  {
    chunks := before;
    ghost var goal := before + EmitAll(|before|, FileUnder(section, parts));
    assert parts[0..] == parts;
    for i := 0 to |parts|
      invariant goal == chunks + EmitAll(|chunks|, FileUnder(section, parts[i..]))
    {
      assert parts[i..][1..] == parts[i + 1..];
      var f := Filed(section, parts[i]);
      EmitStep(chunks, [f], FileUnder(section, parts[i + 1..]));
      assert EmitAll(|chunks|, [f]) == [Emit(|chunks|, f)];
      chunks := chunks + [Emit(|chunks|, f)];
    }
    assert parts[|parts|..] == [];
  }

  /** Cuts an extraction's blocks into chunks, numbering each by how many came before it. */
  method ChunkBlocks(e: Estimator, blocks: seq<Block>) returns (chunks: seq<Chunk>)
    ensures chunks == Chunks(e, blocks)
  {
    var grouped := GroupBlocks(blocks);
    var merged := MergeSmallUnits(e, grouped);
    var units := FoldChapterStubs(e, merged);
    chunks := ChunkUnits(e, units);
  }

  method ChunkUnits(e: Estimator, units: seq<Unit>) returns (chunks: seq<Chunk>)
    ensures chunks == EmitAll(0, FiledParts(e, units))
  {
    chunks := [];
    ghost var goal := EmitAll(0, FiledParts(e, units));
    assert units[0..] == units;
    for i := 0 to |units|
      invariant goal == chunks + EmitAll(|chunks|, FiledParts(e, units[i..]))
    {
      var parts := PartsOfUnit(e, units[i]);
      FiledStep(e, units, i);
      EmitStep(chunks, FileUnder(units[i].section, parts), FiledParts(e, units[i + 1..]));
      chunks := AppendParts(chunks, units[i].section, parts);
    }
    assert units[|units|..] == [];
  }

  lemma FiledStep(e: Estimator, units: seq<Unit>, i: nat)
    requires i < |units|
    ensures FiledParts(e, units[i..]) == FileUnder(units[i].section, UnitParts(e, units[i])) + FiledParts(e, units[i + 1..])
  {
    assert units[i..][1..] == units[i + 1..];
  }
}
