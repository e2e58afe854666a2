/**
 What merging small units and folding chapter stubs leave. Both join runs of units in
 a row; here a stage is described by where its runs end, and the description is shown
 to fit exactly one result, the one the loop makes.
 */
module Stages {
  import opened Text
  import opened Chunking
  import opened Conservation

  /** A stage: whether the unit being made takes the next one in, and what they make. */
  datatype Stage = Stage(joins: (Unit, Unit) -> bool, combined: (Unit, Unit) -> Unit)

  function Merging(e: Estimator): Stage {
    Stage((cur, next) => Absorbs(e, cur, next), (cur, next) => Merged(cur, next))
  }

  function Folding(e: Estimator): Stage {
    Stage((cur, next) => IsStub(e, cur, next), (cur, next) => FoldedInto(cur, next))
  }

  /** The units from a up to b as one. */
  function Grown(stage: Stage, units: seq<Unit>, a: nat, b: nat): Unit
    requires a < b <= |units|
  {
    if b == a + 1 then units[a] else stage.combined(Grown(stage, units, a, b - 1), units[b - 1])
  }

  /** Every unit of the run after the first was taken in by those before it, and the one after the run is not. */
  ghost predicate IsRun(stage: Stage, units: seq<Unit>, a: nat, b: nat) {
    && a < b <= |units|
    && (forall j :: a < j < b ==> stage.joins(Grown(stage, units, a, j), units[j]))
    && (b < |units| ==> !stage.joins(Grown(stage, units, a, b), units[b]))
  }

  /** The units from a on fall into runs with the given ends, one a unit of out. */
  ghost predicate IsStaged(stage: Stage, units: seq<Unit>, a: nat, ends: seq<nat>, out: seq<Unit>)
    decreases |ends|
  {
    if ends == [] then a == |units| && out == []
    else
      && IsRun(stage, units, a, ends[0]) && out != [] && out[0] == Grown(stage, units, a, ends[0])
      && IsStaged(stage, units, ends[0], ends[1..], out[1..])
  }

  /** The units fall into maximal runs, and out is what the runs make. */
  ghost predicate InRuns(stage: Stage, units: seq<Unit>, out: seq<Unit>) {
    exists ends: seq<nat> :: IsStaged(stage, units, 0, ends, out)
  }

  /** A run from a given unit ends in one place. */
  lemma RunIsUnique(stage: Stage, units: seq<Unit>, a: nat, b: nat, c: nat)
    requires IsRun(stage, units, a, b) && IsRun(stage, units, a, c)
    ensures b == c
  {
  }

  /** So there is one way to stage the units. */
  lemma {:induction false} StagedIsUnique(stage: Stage, units: seq<Unit>, a: nat,
                                          ends: seq<nat>, out: seq<Unit>, ends2: seq<nat>, out2: seq<Unit>)
    requires IsStaged(stage, units, a, ends, out) && IsStaged(stage, units, a, ends2, out2)
    ensures ends == ends2 && out == out2
    decreases |ends|
  {
    if ends != [] && ends2 != [] {
      RunIsUnique(stage, units, a, ends[0], ends2[0]);
      StagedIsUnique(stage, units, ends[0], ends[1..], out[1..], ends2[1..], out2[1..]);
      assert ends == [ends[0]] + ends[1..] && ends2 == [ends2[0]] + ends2[1..];
      assert out == [out[0]] + out[1..] && out2 == [out2[0]] + out2[1..];
    }
  }

  // ------------------------------------------------------------ the stages are staged

  /** A stage, from the unit being made and the units from b on. */
  function StageFrom(stage: Stage, cur: Unit, units: seq<Unit>, b: nat): seq<Unit>
    requires b <= |units|
    decreases |units| - b
  {
    if b == |units| then [cur]
    else if stage.joins(cur, units[b]) then StageFrom(stage, stage.combined(cur, units[b]), units, b + 1)
    else [cur] + StageFrom(stage, units[b], units, b + 1)
  }

  lemma StagedCons(stage: Stage, units: seq<Unit>, a: nat, b: nat, ends: seq<nat>, out: seq<Unit>)
    requires IsRun(stage, units, a, b) && IsStaged(stage, units, b, ends, out)
    ensures IsStaged(stage, units, a, [b] + ends, [Grown(stage, units, a, b)] + out)
  {
    assert ([b] + ends)[1..] == ends && ([Grown(stage, units, a, b)] + out)[1..] == out;
  }

  lemma StagedLast(stage: Stage, units: seq<Unit>, a: nat)
    requires IsRun(stage, units, a, |units|)
    ensures IsStaged(stage, units, a, [|units|], [Grown(stage, units, a, |units|)])
  {
    assert [|units|] == [|units|] + [] && [Grown(stage, units, a, |units|)] == [Grown(stage, units, a, |units|)] + [];
    StagedCons(stage, units, a, |units|, [], []);
  }

  /** The run that starts at a and has reached b goes on as StageFrom does. */
  lemma {:induction false} StageFromStaged(stage: Stage, units: seq<Unit>, a: nat, b: nat) returns (ends: seq<nat>)
    requires a < b <= |units| && forall j :: a < j < b ==> stage.joins(Grown(stage, units, a, j), units[j])
    ensures IsStaged(stage, units, a, ends, StageFrom(stage, Grown(stage, units, a, b), units, b))
    decreases |units| - b
  {
    if b == |units| {
      ends := [b];
      StagedLast(stage, units, a);
    } else if stage.joins(Grown(stage, units, a, b), units[b]) {
      ends := StageFromStaged(stage, units, a, b + 1);
    } else {
      var later := StageFromStaged(stage, units, b, b + 1);
      ends := [b] + later;
      StagedCons(stage, units, a, b, later, StageFrom(stage, units[b], units, b + 1));
    }
  }

  lemma {:induction false} MergeIsStage(e: Estimator, cur: Unit, units: seq<Unit>, b: nat)
    requires b <= |units|
    ensures MergeFrom(e, cur, units[b..]) == StageFrom(Merging(e), cur, units, b)
    decreases |units| - b
  {
    if b < |units| {
      assert units[b..][1..] == units[b + 1..];
      MergeIsStage(e, if Absorbs(e, cur, units[b]) then Merged(cur, units[b]) else units[b], units, b + 1);
    }
  }

  lemma {:induction false} FoldIsStage(e: Estimator, cur: Unit, units: seq<Unit>, b: nat)
    requires b <= |units|
    ensures FoldStubs(e, [cur] + units[b..]) == StageFrom(Folding(e), cur, units, b)
    decreases |units| - b
  {
    var all := [cur] + units[b..];
    if b == |units| {
      assert all == [cur];
    } else {
      assert all[1] == units[b] && all[2..] == units[b + 1..] && all[1..] == [units[b]] + units[b + 1..];
      FoldIsStage(e, if IsStub(e, cur, units[b]) then FoldedInto(cur, units[b]) else units[b], units, b + 1);
    }
  }

  lemma StageAre(stage: Stage, units: seq<Unit>) returns (ends: seq<nat>)
    ensures IsStaged(stage, units, 0, ends, if units == [] then [] else StageFrom(stage, units[0], units, 1))
  {
    if units == [] {
      ends := [];
    } else {
      ends := StageFromStaged(stage, units, 0, 1);
    }
  }

  lemma StagedIff(stage: Stage, units: seq<Unit>, made: seq<Unit>, out: seq<Unit>)
    requires made == if units == [] then [] else StageFrom(stage, units[0], units, 1)
    ensures out == made <==> InRuns(stage, units, out)
  {
    var ends := StageAre(stage, units);
    assert InRuns(stage, units, made);
    if InRuns(stage, units, out) {
      var other: seq<nat> :| IsStaged(stage, units, 0, other, out);
      StagedIsUnique(stage, units, 0, ends, made, other, out);
    }
  }

  /**
   Merging gives, and only it gives, maximal runs: each unit of a run is of one section
   and parent with what came before it, which was still under MIN_TOKENS, and a run ends
   at that size or before a unit it may not take.
   */
  lemma MergingIsUnique(e: Estimator, units: seq<Unit>, out: seq<Unit>)
    ensures out == MergeSmall(e, units) <==> InRuns(Merging(e), units, out)
  {
    if units != [] {
      MergeIsStage(e, units[0], units, 1);
    }
    StagedIff(Merging(e), units, MergeSmall(e, units), out);
  }

  /** Folding gives, and only it gives, maximal runs: each unit of a run is a subsection of the stub made so far. */
  lemma FoldingIsUnique(e: Estimator, units: seq<Unit>, out: seq<Unit>)
    ensures out == FoldStubs(e, units) <==> InRuns(Folding(e), units, out)
  {
    if units != [] {
      FoldIsStage(e, units[0], units, 1);
      assert units == [units[0]] + units[1..];
    }
    StagedIff(Folding(e), units, FoldStubs(e, units), out);
  }

  // ------------------------------------------------------------------- what a run makes

  /** A merged run holds its units' blocks and keeps the first's section. */
  lemma {:induction false} MergedRunHolds(e: Estimator, units: seq<Unit>, a: nat, b: nat)
    requires a < b <= |units|
    ensures Grown(Merging(e), units, a, b).blocks == FlattenUnits(units[a..b])
    ensures Grown(Merging(e), units, a, b).section == units[a].section
    decreases b
  {
    RunBlocks(units, a, b);
    if b > a + 1 {
      MergedRunHolds(e, units, a, b - 1);
    }
  }

  /** A folded run holds its units' blocks and is filed as the last. */
  lemma {:induction false} FoldedRunHolds(e: Estimator, units: seq<Unit>, a: nat, b: nat)
    requires a < b <= |units|
    ensures Grown(Folding(e), units, a, b) == Unit(units[b - 1].section, units[b - 1].headingPath, FlattenUnits(units[a..b]))
    decreases b
  {
    RunBlocks(units, a, b);
    if b > a + 1 {
      FoldedRunHolds(e, units, a, b - 1);
    }
  }

  /** What is left of a heading path when n units have merged into the one it is of: a heading less each time, but never the last one. */
  function Shortened(path: seq<string>, n: nat): seq<string> {
    if |path| <= 1 then path else path[..if n < |path| then |path| - n else 1]
  }

  /** A merged run of n + 1 units is filed under the first one's path, n headings shorter. */
  lemma {:induction false} MergedRunPath(e: Estimator, units: seq<Unit>, a: nat, b: nat)
    requires a < b <= |units|
    ensures Grown(Merging(e), units, a, b).headingPath == Shortened(units[a].headingPath, b - a - 1)
    decreases b
  {
    var path := units[a].headingPath;
    if b > a + 1 {
      MergedRunPath(e, units, a, b - 1);
      ShortenedOnce(path, b - a - 2);
    } else if |path| > 1 {
      assert path[..|path|] == path;
    }
  }

  lemma ShortenedOnce(path: seq<string>, n: nat)
    ensures ParentOrSelf(Shortened(path, n)) == Shortened(path, n + 1)
  {
  }

  /**
   The units from a up to j may take unit j in: together they are still small, and it is of
   their section and its parent heading is that of the path they have by then.
   */
  predicate TakesSibling(e: Estimator, units: seq<Unit>, a: nat, j: nat)
    requires a < j < |units|
  {
    && e.Tokens(Strip(JoinTexts(FlattenUnits(units[a..j])))) < MIN_TOKENS
    && units[j].section == units[a].section
    && Parent(units[j].headingPath) == Parent(Shortened(units[a].headingPath, j - a - 1))
  }

  lemma MergingTakes(e: Estimator, units: seq<Unit>, a: nat, j: nat)
    requires a < j < |units|
    ensures Merging(e).joins(Grown(Merging(e), units, a, j), units[j]) <==> TakesSibling(e, units, a, j)
  {
    MergedRunHolds(e, units, a, j);
    MergedRunPath(e, units, a, j);
  }

  /** Where a merged run ends, in terms of the units alone. */
  lemma MergedRunMeans(e: Estimator, units: seq<Unit>, a: nat, b: nat)
    ensures IsRun(Merging(e), units, a, b) <==>
              && a < b <= |units|
              && (forall j :: a < j < b ==> TakesSibling(e, units, a, j))
              && (b < |units| ==> !TakesSibling(e, units, a, b))
  {
    forall j | a < j <= b && j < |units|
      ensures Merging(e).joins(Grown(Merging(e), units, a, j), units[j]) <==> TakesSibling(e, units, a, j)
    {
      MergingTakes(e, units, a, j);
    }
  }

  /** The units from a up to j fold into unit j: together they are a stub, and it is a subsection of the last of them. */
  predicate TakesChild(e: Estimator, units: seq<Unit>, a: nat, j: nat)
    requires a < j < |units|
  {
    && e.Tokens(Strip(JoinTexts(FlattenUnits(units[a..j])))) < STUB_MAX_TOKENS
    && units[j - 1].section.Some? && units[j].section.Some? && units[j - 1].section.value != ""
    && units[j - 1].section.value + "." <= units[j].section.value
  }

  lemma FoldingTakes(e: Estimator, units: seq<Unit>, a: nat, j: nat)
    requires a < j < |units|
    ensures Folding(e).joins(Grown(Folding(e), units, a, j), units[j]) <==> TakesChild(e, units, a, j)
  {
    FoldedRunHolds(e, units, a, j);
  }

  /** Where a folded run ends, in terms of the units alone. */
  lemma FoldedRunMeans(e: Estimator, units: seq<Unit>, a: nat, b: nat)
    ensures IsRun(Folding(e), units, a, b) <==>
              && a < b <= |units|
              && (forall j :: a < j < b ==> TakesChild(e, units, a, j))
              && (b < |units| ==> !TakesChild(e, units, a, b))
  {
    forall j | a < j <= b && j < |units|
      ensures Folding(e).joins(Grown(Folding(e), units, a, j), units[j]) <==> TakesChild(e, units, a, j)
    {
      FoldingTakes(e, units, a, j);
    }
  }

  lemma RunBlocks(units: seq<Unit>, a: nat, b: nat)
    requires a < b <= |units|
    ensures FlattenUnits(units[a..b]) == FlattenUnits(units[a..b - 1]) + units[b - 1].blocks
    ensures b == a + 1 ==> FlattenUnits(units[a..b]) == units[a].blocks
  {
    assert units[a..b] == units[a..b - 1] + [units[b - 1]];
    FlattenUnitsConcat(units[a..b - 1], [units[b - 1]]);
    assert [units[b - 1]] == [units[b - 1]] + [];
    FlattenUnitsCons(units[b - 1], []);
    assert b == a + 1 ==> units[a..b - 1] == [];
  }
}
