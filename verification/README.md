# docsearch, modelled and proved in Dafny

docsearch turns documents (PDF, HTML, DOCX and others) into chunks, keeps them in
libraries and searches them. This project models its core logic in Dafny 4.11 and
proves what that logic is for. `dafny verify dfyconfig.toml` checks all of it.

| files | component |
|---|---|
| `Sequences`, `Text`, `Tokens` | sequence facts, Python string semantics and the token estimate |
| `Chunking`, `ChunkPacking`, `ChunkConservation`, `ChunkStages`, `ChunkPaths`, `ChunkSections`, `ChunkSizes` | the chunker, what its stages keep and where chunks are filed |
| `Sorting`, `Search`, `SearchScores`, `Interleave` | one-walk search, ranking and its scores, and the rank-wise merge |
| `Numerals`, `SectionKeys`, `Outline`, `OutlineEmit`, `OutlineRule`, `OutlineFigures`, `OutlineSegments`, `OutlinePages` | PDF outlines and block emission against placed headings |
| `Furniture`, `Columns`, `Coverage`, `BodyHeadings`, `BodyScan` | page furniture, reading order, numbered headings |
| `HeadingStacks`, `Html`, `HtmlText`, `HtmlItems` | the HTML walker, what its items show and which text shares one |
| `Accounts`, `AccountOutcomes`, `DocSync`, `DocSyncPlan` | concurrent account resolution and how calls end, sync planning |
| `Utf8`, `Decode` | decoding with maximal-subpart replacement |

Code that loops or updates state is a method or a class here, proved to compute a
function of its inputs; the lemmas then state what that function means without
naming how it is computed. Text is a sequence of characters, and "visible" text is
its non-whitespace characters in order; "inked" characters leave out those of no
width too, and a "faint" text node, once stripped, holds only characters of no width.

Where the code and its comments differ, the model follows the code:

- The comment on `Parse` promises an item for all text that is not removed. The text
  of a heading outside a block goes to the heading path alone:
  `HtmlText.HeadingReachesNoItem` is such a document and `HtmlText.ItemsReachAll` the
  exact condition.
- The comment on `takeCode` has every pre meet its own text in the queue. A multi-line
  code element outside a block is read whole, so a pre inside it is never met and the
  texts after it are shifted by one; `Html.SamplesPaired` gives the exact condition.
- The comment on `Options.Prefix` has two prefixes keep two instances apart. That
  holds unless one prefix and a hyphen start the other and a hyphen, or a document's
  number is negative: `DocSync.HyphensCross` and
  `DocSync.NegativeNumbersCross` are such plans, and `DocSync.LonePlanRetires` is exact.
- The comment on `create` has the loser of a race find its twin's account. A call that
  loses the race to claim the built-in library does not look again, and with sign-up
  closed it is turned away although its identity has an account by then:
  `Accounts.SecondClaimLoses` is such a run and `Accounts.LostClaimTurnsAway` the exact
  condition.
- Figures are counted into the open buffer, but a buffer without text makes no block, so
  its figures reach none; `OutlineSegments.BlocksCountShownFigures` says which do.
- `ClaimBuiltin` is an update of every row without an identity; the built-in row is
  the only one there is, which the runs keep.

## Model

| member | source | states |
|---|---|---|
| Text.StripSplits | internal/pystr/pystr.go:70-72 | A string is whitespace, its stripped form, whitespace; the stripped form neither begins nor ends with any. |
| Text.FirstLineBreak | internal/pystr/pystr.go:107-118 | The first line break and its width, two for CR LF, or -1 when the string has none. |
| Text.SplitLines | internal/pystr/pystr.go:77-88 | The loop gives the lines of the string, as the recursive definition of them does. |
| Text.SplitLinesKeepEnds | internal/pystr/pystr.go:92-103 | The loop gives the lines each with its own break. |
| Text.LinesRebuild | internal/pystr/pystr.go:92-103 | Lines kept with their ends concatenate to the whole string. |
| Text.LinesBreakFree | internal/pystr/pystr.go:77-88 | No line holds a break, each kept end is a single break, and only the last line may lack one. |
| Text.LinesKeepSolid | internal/pystr/pystr.go:77-88 | Splitting into lines keeps every non-whitespace character, in order. |
| Tokens.CountAtoms | internal/domain/tokens.go:74-99 | One scan with its word and CJK state counts the atoms that the positional definition counts, CJK at weight 10/13 rounded. |
| Tokens.JoinedAtomsExact | internal/domain/tokens.go:74-99 | Without CJK, the atoms of whitespace-joined pieces are exactly the sum over the pieces. |
| Tokens.JoinedAtomsNear | internal/domain/tokens.go:74-99 | With CJK, the sum over n pieces differs from the whole by at most (n + 1) / 2. |
| Tokens.SummedEstimatesUndercount | internal/domain/tokens.go:102-109 | Without CJK, summing the estimates of n pieces undercounts the estimate of the whole by less than n, and never overcounts. |
| Tokens.StripKeepsAtoms | internal/domain/tokens.go:74-99 | Stripping whitespace changes no CJK-free text's atom count. |
| Chunking.GroupBlocks | internal/domain/chunking.go:131-146 | The loop builds the grouping that Conservation.GroupingIsUnique characterises. |
| Chunking.AbsorbFollowing | internal/domain/chunking.go:164-176 | Absorbs following units until the next may not merge; what is left merges as the rest of the list would. |
| Chunking.MergeSmallUnits | internal/domain/chunking.go:151-159 | The index-driven loop computes the recursive merge of units under MIN_TOKENS. |
| Chunking.FoldChapterStubs | internal/domain/chunking.go:187-203 | The loop that writes ahead in the list it ranges over computes the cascading fold of stubs. |
| Chunking.PackByAtoms | internal/domain/chunking.go:329-346 | The accumulating loop computes the packing that Packing.PackIsGreedy characterises. |
| Chunking.SplitAtSubheadings | internal/domain/chunking.go:273-287 | The loop opens a run at each subdivision that is not a figure. |
| Chunking.SubdivideUnit | internal/domain/chunking.go:236-248 | An oversized unit becomes its subheading runs, packed, each pack filed as Paths.DivisionsFiled says. |
| Chunking.SplitOneBlock | internal/domain/chunking.go:308-322 | An oversized block becomes its paragraphs, or its lines when it has one paragraph, packed and rejoined. |
| Chunking.CapPartsAtBlocks | internal/domain/chunking.go:253-269 | Each oversized part becomes its blocks, split where oversized and packed. |
| Chunking.PartsOfUnit | internal/domain/chunking.go:215-232 | A unit with no text gives nothing, one that fits is whole, and any other is subdivided, capped and rid of blank parts. |
| Chunking.ChunkBlocks | internal/domain/chunking.go:62-77 | The pipeline of loops computes Chunks, numbering each chunk by how many came before it. |
| Packing.PackIsGreedy | internal/domain/chunking.go:325-346 | Packing partitions the items in order, each group of two or more fits, and no group could have taken the next item. |
| Packing.GreedyIsUnique | internal/domain/chunking.go:325-346 | Only one packing is greedy, so any other grouping of the items differs from it in loss, fit or maximality. |
| Conservation.GroupingIsUnique | internal/domain/chunking.go:131-146 | A grouping into maximal runs of one section and heading path is unique and is the one the loop makes. |
| Conservation.UnitsHoldBlocks | internal/domain/chunking.go:131-203 | Grouping, merging and folding keep exactly the extraction's blocks, in order. |
| Conservation.SubdivideFlattens | internal/domain/chunking.go:236-287 | The parts of a subdivided unit hold its blocks, in order. |
| Conservation.UnitPartsSolid | internal/domain/chunking.go:215-232 | The parts of a unit hold its visible text, in order. |
| Conservation.ChunksConserveText | internal/domain/chunking.go:62-77 | For every extraction the non-whitespace characters of all chunk texts, in ordinal order, are those of all block texts, in document order. |
| Stages.MergingIsUnique | internal/domain/chunking.go:151-182 | Merging gives, and only it gives, maximal runs of units: each unit of a run could merge into what came before it, still under MIN_TOKENS, and the unit after the run could not. |
| Stages.FoldingIsUnique | internal/domain/chunking.go:187-210 | Folding gives, and only it gives, maximal runs of units: each unit of a run is a subsection of the stub made of those before it, and the unit after the run is not. |
| Stages.MergedRunHolds | internal/domain/chunking.go:164-176 | A merged unit holds its run's blocks in order under the first unit's section. |
| Stages.FoldedRunHolds | internal/domain/chunking.go:187-203 | A folded unit holds its run's blocks in order, filed as the last unit of the run. |
| Stages.MergedRunPath | internal/domain/chunking.go:536-541 | A merged unit of n + 1 units is filed under the first one's heading path, n headings shorter but never without its last. |
| Stages.MergedRunMeans | internal/domain/chunking.go:164-182 | A merged run in terms of the units alone: each next one is of its section, under the parent heading of the path it has by then, and what came before is under MIN_TOKENS together; it ends where the next is not. |
| Stages.FoldedRunMeans | internal/domain/chunking.go:187-210 | A folded run in terms of the units alone: each next one is a subsection of the last, and what came before is a stub together; it ends where the next is not. |
| Paths.RunsAreUnique | internal/domain/chunking.go:271-287 | There is one way to cut blocks into runs that each begin at a subheading or at the start and are named by it, and the loop finds it. |
| Paths.DivisionsFiled | internal/domain/chunking.go:236-303 | An oversized unit is one division under its own path unless a subheading stands after its first block; then each division is filed under the one named subheading among its blocks, or under the unit's path when there is none or more than one. |
| Paths.DivisionsPacked | internal/domain/chunking.go:236-248 | The divisions of such a unit are its runs, packed greedily. |
| Paths.PartsPacked | internal/domain/chunking.go:253-269 | The parts an oversized division is cut into keep its path and are its blocks, those oversized cut themselves, packed greedily. |
| Paths.PiecesPacked | internal/domain/chunking.go:308-322 | The blocks an oversized one is cut into are its paragraphs, or its lines if it has but one, packed greedily and joined at line ends. |
| Paths.UnitPartsCut | internal/domain/chunking.go:215-269 | The parts of a unit are cut from its divisions in order, each with the path of its division; a division that fits gives at most one. |
| Paths.ChunksFollowUnits | internal/domain/chunking.go:62-77 | For every extraction the chunks are those of its units in order, of the unit's section, each with the stored path of the division it shows; a division's chunks show its visible text. |
| Paths.PathReadsBack | internal/domain/chunking.go:399-407 | Splitting a stored path at the separator gives its headings back, if none is blank or holds the separator's sign. |
| Paths.BlankAddsNothing | internal/domain/chunking.go:480-489 | A blank heading adds nothing to a stored path. |
| Paths.TextReadsBack | internal/domain/chunking.go:351-357 | Splitting a chunk's text at blank lines gives back the texts of its blocks, if each is one stripped line. |
| Conservation.ChunksHoldText | internal/domain/chunking.go:215-232 | No chunk is blank. |
| Sections.ChunkBlocksBelong | internal/domain/chunking.go:151-210 | Every block in a chunk carries the chunk's section or a dotted ancestor of it, through any cascade of folds; a chunk without a section holds only blocks without one. |
| Sections.IsContiguous | internal/domain/structure.go:478-485 | Ordinals are contiguous exactly when each is one more than the last. |
| Sections.OrdinalsBySection | internal/domain/structure.go:460-468 | Every named section maps to the ordinals of its chunks, in order. |
| Sections.ScatteredSections | internal/domain/structure.go:460-475 | The sections whose chunk ordinals leave a gap, and no others. |
| Sections.OrdinalGaps | internal/domain/measure.go:182-190 | The loop lists the ordinals at which numbering does not follow the one before. |
| Sections.ScatteredMeans | internal/domain/structure.go:460-485 | A section measures as scattered exactly when a chunk of another stands between two of its own. |
| Sections.ChunksHaveNoGaps | internal/domain/measure.go:182-190 | For every extraction, chunk numbering has no gap. |
| Sections.ChunksNeverScatter | internal/domain/structure.go:460-485 | If the blocks of each section are consecutive in the extraction, no section of its chunks is scattered. |
| SizeBound.OversizedChunksAreLone | internal/domain/chunking.go:215-269 | For CJK-free text a chunk over MAX_TOKENS is one piece of one block: a paragraph with no blank line, or one line. |
| Search.RelevanceMonotone | internal/pgstore/search.go:66-72 | Relevance stays within 0 and 1 and a better score is never less relevant. |
| Search.RankCandidates | internal/pgstore/search.go:627-639 | Sorts candidates by adjusted score and numbers the first k. |
| Search.RankedInOrder | internal/pgstore/search.go:627-639 | A document's results are ranked from 1, at most k of them, relevance never rising down the list. |
| Search.RankedKeepsBest | internal/pgstore/search.go:627-639 | No candidate left out scores better than one kept. |
| Search.WalkPools.Read | internal/pgstore/search.go:425-438 | Reading the library's order keeps, with one counter a document, the rows Kept describes. |
| Search.KeptOfDoc | internal/pgstore/search.go:385-438 | Whatever else the walk passes, it keeps exactly the first rows of each document, as many as wanted. |
| Search.Pools | internal/pgstore/search.go:497-516 | Groups the kept identifiers by document in the order kept, leaving out any that has no scored row. |
| Search.PoolIsMatching | internal/pgstore/search.go:497-516 | A document's pool is its own kept rows, scored and labelled. |
| Search.WalkAgreesWithQuery | internal/pgstore/search.go:385-438 | For every scored order, k and section filter, the pool the walk gives a ready document is what its own limited query returns. |
| Search.RankedPools | internal/pgstore/search.go:321-349 | One walk gives each ready document with any candidate exactly the ranked list its own search gives, and no other document any; Scores.ResultsAre says what that list is. |
| Scores.CandidatesAre | internal/pgstore/search.go:599-624 | A document's candidates are, in score order, its rows that matched under the filter among the first four times k of its rows under it. |
| Scores.ResultsAre | internal/pgstore/search.go:523-541 | A ready document's results are its min(k, n) best candidates, in order of score after the adjustments and then as they came; each has the document's title, says whether the index names its section, and has its row's score less 2 if it does and plus 6 if it is a keyword reference held back. |
| Scores.CoversMeans | internal/pgstore/section.go:27-35 | A reference covers a section exactly when it is that section or the section's number goes on after it and a dot. |
| Scores.LabelledMeans | internal/pgstore/search.go:810-819 | A labelled row keeps its row, has its document's title, and is boosted and held back exactly as the index and the caller's choice have it. |
| Scores.IndexedComesFirst | internal/pgstore/search.go:810-819 | Of two candidates of equal score and kind, one in a section the index names and one not, the first is returned before the second. |
| Sorting.SortOffsets | internal/pgstore/search.go:632-634 | Sorting takes every element to its place: in order of key, and of offset where keys are equal. |
| Interleaving.TierAt | internal/pgstore/search.go:737-745 | The tier at a depth holds that depth's result of each document that has one. |
| Interleaving.Interleave | internal/pgstore/search.go:721-733 | The merging loop terminates with the results Picks names. |
| Interleaving.PicksCount | internal/pgstore/search.go:721-733 | The merge has min(k, total) results. |
| Interleaving.PicksNamed | internal/pgstore/search.go:721-733 | Every pick is a result of some document, and none is taken twice. |
| Interleaving.PicksStandFor | internal/pgstore/search.go:721-745 | The merge's results are the picks', each the one its document ranks at the pick's depth. |
| Interleaving.Merged | internal/pgstore/search.go:307-357 | The merged list is the picks' results, each ranked where it stands in the list. |
| Interleaving.PicksInOrder | internal/pgstore/search.go:721-745 | Every depth precedes the next; within a depth better scores come first, and of equal scores the earlier document. |
| Interleaving.PicksPassOver | internal/pgstore/search.go:721-745 | A result is passed over only for results that come before it. |
| Interleaving.DocumentGivesPrefix | internal/pgstore/search.go:721-745 | Each document contributes a prefix of its own ranking, in order. |
| Interleaving.ContributionsFair | internal/pgstore/search.go:721-745 | Two documents' contributions differ by at most one unless the smaller is exhausted. |
| Outline.FlattenOutline | internal/adapter/pdf/engine.go:153-167 | The recursion over bookmarks and an accumulator lists the forest depth first, each with its level. |
| Outline.Count | internal/adapter/pdf/toc.go:32-54 | Truncating, extending and incrementing the counters gives the counters of the next entry. |
| Outline.OutlineEntries | internal/adapter/pdf/toc.go:32-54 | The loop numbers the flattened outline entry by entry. |
| Outline.RenumberPositions | internal/adapter/pdf/toc.go:32-54 | Renumbering a flattened forest gives every bookmark its child-index path from the root. |
| Outline.OutlineNumbersByPosition | internal/adapter/pdf/toc.go:32-54 | The entries of a forest are its bookmarks in turn, each numbered by its position. |
| Outline.EntryOfBookmark | internal/adapter/pdf/toc.go:32-54 | The i-th entry has the i-th bookmark's numbers in its section, its title, stripped, and the page it points at, from 1, or -1 when it points nowhere. |
| Outline.PositionsLead | internal/adapter/pdf/engine.go:153-167 | The positions listed are exactly the child-index paths that lead to a bookmark. |
| Outline.PositionsIncrease | internal/adapter/pdf/toc.go:32-54 | Section numbers strictly increase down the outline. |
| Outline.ParentHoldsChild | internal/adapter/pdf/text.go:79-86 | The parent of a bookmark is at its section less the last component, and that component says which child it is. |
| Outline.RenderSplits | internal/adapter/pdf/text.go:79-86 | Splitting a rendered section at its dots gives its numbers back. |
| Outline.RenderInjective | internal/adapter/pdf/toc.go:32-54 | No two bookmarks share a section. |
| Outline.Ancestors | internal/adapter/pdf/text.go:79-86 | A section and each section above it, outermost first. |
| Outline.OutlinePath | internal/adapter/pdf/emit.go:95-105 | The loop renders the non-blank titles of a section's ancestors. |
| Outline.TitleAt | internal/adapter/pdf/build.go:58-61 | Every bookmark's title is found under the section its position renders to. |
| Outline.HeadingPathIsAncestry | internal/adapter/pdf/emit.go:95-105 | The heading path of a bookmark's section is the chain of its ancestors' non-blank titles. |
| OutlineEmit.BlockSink.AddLine | internal/adapter/pdf/emit.go:21-27 | A line joins the open buffer, whose first and last pages follow. |
| OutlineEmit.BlockSink.Text | internal/adapter/pdf/emit.go:30-38 | The buffer's non-blank lines, joined and stripped. |
| OutlineEmit.BlockSink.CountImagesAbove | internal/adapter/pdf/emit.go:43-49 | Counts figures, starting at from, until one whose top is further down than the line. |
| OutlineEmit.BlockSink.Flush | internal/adapter/pdf/emit.go:65-82 | The open buffer becomes a block of its section, unless it is blank, and a new one is open. |
| OutlineEmit.BlockSink.EnterSection | internal/adapter/pdf/emit.go:85-88 | Closes the open buffer and opens one under the section. |
| OutlineEmit.BlockSink.EnterAll | internal/adapter/pdf/emit.go:152-156 | Enters every heading still pending, in turn. |
| OutlineEmit.BlockSink.EnterAt | internal/adapter/pdf/emit.go:185-203 | Enters the pending headings whose line has come, and says whether any was matched and which further lines are theirs. |
| OutlineEmit.ReachedMeans | internal/adapter/pdf/emit.go:185-203 | The headings entered before a line are exactly those placed before it. |
| OutlineEmit.TitleLineMeans | internal/adapter/pdf/emit.go:164-203 | A line is passed over as a title exactly when a matched heading has it as its own line or among its rest. |
| OutlineEmit.EmitOutlinePage | internal/adapter/pdf/emit.go:164-179 | The streaming loop over a page leaves the sink as reading its lines one by one does. |
| OutlineEmit.EmitOutlineBlocks | internal/adapter/pdf/emit.go:124-149 | The blocks of a document are those of its segments, page by page, skipped pages only entering headings; OutlinePages says what text and pages each has. |
| OutlineRule.GovernsIsUnique | internal/adapter/pdf/emit.go:119-123 | At most one section governs a line. |
| OutlineRule.SectionAtGoverns | internal/adapter/pdf/emit.go:185-203 | The section open at a line is that of the last placement at or before its page and line, ties to the later listed. |
| OutlineRule.LinesFollowPlacements | internal/adapter/pdf/emit.go:124-203 | The lines of all segments are exactly the kept lines of unskipped pages, each once, in document order, each under the section governing it. |
| OutlineRule.SegmentsPerPlacement | internal/adapter/pdf/emit.go:85-88 | There is one segment before any placement and then one a placement, in order. |
| OutlineRule.FiguresFollowPlacements | internal/adapter/pdf/emit.go:43-49 | A section is credited exactly the figures its lines met and those left when a page ended under it. |
| OutlineRule.FiguresCreditedOnce | internal/adapter/pdf/emit.go:124-149 | All segments together are credited as many images as there are figures on unskipped pages. |
| OutlineFigures.FigureSectionGoverns | internal/adapter/pdf/emit.go:43-49 | A figure's section is the one governing the first kept line at or below its top, or the end of its page when there is none. |
| OutlineFigures.FiguresCredited | internal/adapter/pdf/emit.go:124-149 | Tops sorted as the source sorts them, every section is credited exactly as many images as there are figures whose section it is. |
| OutlineSegments.SegmentsHold | internal/adapter/pdf/emit.go:124-203 | There is one segment more than placed headings, and the k-th holds exactly the kept lines read after k headings were entered, in order. |
| OutlineSegments.SegmentCredits | internal/adapter/pdf/emit.go:43-49 | Every segment's image count is the number of figures first met by one of its lines, or left as a page ends under it. |
| OutlineSegments.ShownMakesBlock | internal/adapter/pdf/emit.go:65-82 | A segment makes one block, with its images, exactly when it has a kept line that is not blank. |
| OutlinePages.SegmentsSpan | internal/adapter/pdf/emit.go:21-27 | The k-th segment's page and page end are one more than the first and the last unskipped page on which a kept line is read under it, blank lines included, and 0 when there is none. |
| OutlinePages.BlockSpans | internal/adapter/pdf/emit.go:65-82 | The block of the k-th segment has that first and last page. |
| OutlinePages.BlockReads | internal/adapter/pdf/emit.go:30-38 | The block of the k-th segment has its section, and its text is its kept lines that are not blank, joined at line ends and stripped. |
| OutlineSegments.BlocksCountShownFigures | internal/adapter/pdf/emit.go:65-82 | The images of all blocks are the figures credited to segments with a line that is not blank; any other figure reaches no block. |
| OutlineRule.CountedMeans | internal/adapter/pdf/emit.go:43-49 | With figures from the top down, one is counted by line i exactly when some kept line before i starts at or below it. |
| OutlineRule.BlocksShowKeptLines | internal/adapter/pdf/emit.go:65-82 | The blocks of any one section, or of all, show exactly the visible text of the kept lines it governs, in order. |
| Furniture.Slide | internal/adapter/pdf/fonts.go:165-173 | Moving the window takes one position in and drops those too far above, the per-page counts staying exact. |
| Furniture.PagesAtOneHeight | internal/adapter/pdf/fonts.go:160-176 | The result is the maximum, over all sets of positions pairwise within the spread, of the distinct pages in the set: no set has more and some set has as many. |
| Furniture.DistinctPages | internal/adapter/pdf/fonts.go:179-185 | The number of distinct pages among the positions. |
| Furniture.DetectBoilerplate | internal/adapter/pdf/fonts.go:119-135 | A normalized line is furniture exactly when the document is long enough and some share of its repeats, level when it has no letter, covers the threshold of pages. |
| Columns.ColumnOrder | internal/adapter/pdf/columns.go:66-94 | The loop and its flushes read the pieces the gutter divides the lines into, each column in its own order. |
| Columns.ReadingOrder | internal/adapter/pdf/columns.go:53-60 | To the source's depth of two, the order read is a permutation of the lines, and the lines themselves when they have no gutter. |
| Columns.InColumnsPermutes | internal/adapter/pdf/columns.go:66-94 | The reading order is a permutation of the page's lines, at every depth and for any gutters. |
| Columns.ReadingKeepsCrossings | internal/adapter/pdf/columns.go:61-65 | A line crossing the page's gutter keeps its place, and exactly the lines above it are read before it. |
| Columns.CrossingParts | internal/adapter/pdf/columns.go:66-94 | A crossing line parts the page: what is above and what is below are divided each on its own. |
| Columns.LeftBeforeRight | internal/adapter/pdf/columns.go:75-83 | Where no line lies on both sides of the gutter, the lines that end by it make the left column and the others the right, each in line order. |
| Columns.ColumnsInTurn | internal/adapter/pdf/columns.go:66-94 | On such a page the left column, divided in turn, is read before the right. |
| Columns.CrossingBetween | internal/adapter/pdf/columns.go:66-94 | A crossing line is read between what is above it and what is below, each divided on its own. |
| Coverage.Stretches | internal/adapter/pdf/columns.go:214-228 | The scan lists exactly the maximal runs of accepted points, in order and apart. |
| Coverage.Gaps | internal/adapter/pdf/columns.go:191-198 | Exactly the maximal runs of points at most so many lines cover, without those at either edge. |
| Coverage.Middle | internal/adapter/pdf/columns.go:203-210 | The centre of the first widest run of least-covered points; there always is such a run. |
| Coverage.CoverageOf | internal/adapter/pdf/columns.go:168-183 | Every point's count is the number of lines whose bounds cover it, the points reaching from the leftmost left edge to the rightmost right edge. |
| Coverage.MiddleCrossings | internal/adapter/pdf/columns.go:122-134 | At the middle of a gap found for a number of crossings, no more lines than that cross. |
| BodyHeadings.NumberedList | internal/adapter/pdf/headings.go:107-120 | A page is a list exactly when at least three numbered lines, and more than half of them, read as sentences. |
| BodyHeadings.HeadingTitle | internal/adapter/pdf/headings.go:179-215 | The loops find what TitleAt says: a title after the number with the lines it wraps onto, or one on the next line with text. |
| BodyHeadings.TitleSpans | internal/adapter/pdf/headings.go:179-215 | A heading takes its own line first, then later ones in order, none past the last line read for it. |
| BodyHeadings.HeadingScanner.Consider | internal/adapter/pdf/headings.go:161-171 | A numbered line becomes a heading exactly when its key exceeds the last one accepted, and else is listed as rejected. |
| BodyHeadings.HeadingScanner.LineAt | internal/adapter/pdf/headings.go:149-171 | One line changes the scanner as LineScan says, and the index skips what its title took. |
| BodyHeadings.FindBodyHeadings | internal/adapter/pdf/headings.go:52-79 | The scan of the pages after the contents gives the headings, rejections, subdivisions and lists of DocumentScan. |
| BodyScan.TitleMeans | internal/adapter/pdf/headings.go:179-215 | A title is the text after the number and the stripped lines that go on with it, with spaces between, and takes just those lines; with nothing after the number it is the next line with text, if of the same size, which the heading takes if on the same row. |
| BodyScan.ScanTells | internal/adapter/pdf/headings.go:52-171 | A line past the printed contents that was read for no title is a subdivision exactly if set as a heading without a number, and put to the ordering rule exactly if with one on a page that is no list; each candidate has its line's number and title, nothing else is either, and the lists are the pages that are. |
| BodyScan.AnswersAre | internal/adapter/pdf/headings.go:161-171 | Headings and rejections are the candidates', one or the other of each. |
| BodyScan.KeyReadsPath | internal/adapter/pdf/text.go:54-75 | Where each numeral is read as its number, a section's key is its path of numbers. |
| BodyHeadings.AcceptedAreRecords | internal/adapter/pdf/headings.go:45-51 | A candidate is accepted exactly when its number is later than that of every candidate before it. |
| BodyHeadings.HeadingsAdvance | internal/adapter/pdf/headings.go:45-51 | Keys of accepted headings strictly increase across the document, sections are distinct and line sets disjoint. |
| BodyHeadings.DetectedMoreThanOnce | internal/adapter/pdf/numbered.go:126-147 | The sections counted more than once, and no others. |
| BodyHeadings.NoneDetectedTwice | internal/adapter/pdf/numbered.go:126-147 | For every document scanned, no section is detected more than once. |
| BodyHeadings.PlaceBodyHeadings | internal/adapter/pdf/numbered.go:201-212 | Every line maps to the section of the last heading that takes it. |
| BodyHeadings.PlacingKeepsAll | internal/adapter/pdf/numbered.go:201-212 | For every document scanned, placing overwrites nothing: each line of each heading keeps that heading's section. |
| SectionKeys.LexTotal | internal/adapter/pdf/text.go:54-75 | Section keys are totally and strictly ordered. |
| Accounts.Resolve | internal/account/account.go:92-107 | A call alone leaves the store and its outcome as its own steps from finding on do. It fails in the store only if an operation reports a failure; it acts for the account its identity has, the unclaimed built-in row if it is the default owner, or else the new user drawn, then in the table with the identity, if sign-up is open, even where creating reports a failure late; and it is turned away, adding nothing, if sign-up is closed. |
| Accounts.MakeAccount | internal/account/account.go:112-127 | Creating, and finding the twin's account when creating fails, are the last two steps of a call. |
| Accounts.RunKeeps | internal/account/account.go:31-43 | Every interleaving of any number of calls keeps the table, its index and what is known of every call. |
| Accounts.OneUserPerIdentity | internal/account/account.go:92-127 | In every run two calls that succeed act for the same user exactly when they are of the same identity. |
| Accounts.AccountsLast | internal/account/account.go:92-107 | An identity that has an account keeps it: whoever succeeds for it acts for that user. |
| Accounts.BuiltinClaimedOnce | internal/account/account.go:34-36 | In every run the built-in library changes hands at most once, from nobody to the default owner. |
| Accounts.BuiltinActsForHolder | internal/account/account.go:97-102 | A call acts for the built-in library only as the identity that holds it, and, where nobody did at the start, only as the default owner. |
| Accounts.ClosedAddsNobody | internal/account/account.go:103-105 | With sign-up closed no run adds a user. |
| Accounts.LosersFindTheirTwin | internal/account/account.go:109-127 | In every run no claim is refused for an account its identity has, and no call ends in the error of a create that the index turned down. |
| Accounts.TwinIsFound | internal/account/account.go:119-127 | After a create the index turned down, the next find gives the twin's account, or the call ends in that find's own reported failure. |
| Accounts.SecondClaimLoses | internal/account/account.go:97-105 | With sign-up closed and the library unclaimed, of two first requests of the default owner that both find nothing one acts for the library and the other is turned away. |
| Accounts.LostClaimTurnsAway | internal/account/account.go:92-107 | Some run turns a call away although its identity gets an account exactly when sign-up is closed, the identity is the default owner without an account, and the library is unclaimed. |
| Outcomes.FailuresHaveCauses | internal/account/account.go:92-127 | In every run a call that is done acts for a user, or one of its own operations reported a failure, or it drew a user already taken, or sign-up is closed; it ends in the store's failure only for the first of these, and is turned away only for the last. |
| Outcomes.CallsEnd | internal/account/account.go:92-127 | However calls interleave, each is done after at most four operations of its own. |
| Outcomes.AccountsHaveOrigins | internal/account/account.go:92-127 | In every run each identity's account is the one it had, the built-in row if it is the default owner and nobody had claimed the row, or else a user that an event of the run drew for it when nobody was that user. |
| Outcomes.EveryoneGetsAnAccount | internal/account/account.go:92-127 | With sign-up open, a call whose operations report no failure and that draws no user already taken acts, after four operations, for its identity's account, of one of those origins. |
| DocSync.ReadQueue | internal/docsync/docsync.go:123-133 | The queue says of every source what its latest job does: busy, refused for good and when, or neither. |
| DocSync.Note | internal/docsync/docsync.go:136-147 | Recording a job changes what is known of its own source and of no other. |
| DocSync.Decide | internal/docsync/docsync.go:172-200 | The branches over the two maps make the decision for the document's latest job and what is held for it. |
| DocSync.Plan | internal/docsync/docsync.go:151-170 | One decision a document shown, in order, then a retirement of each of this sync's documents no longer shown nor busy. |
| DocSync.SyncPlan | internal/docsync/docsync.go:258-276 | Planning is refused exactly when nothing is shown, something would be retired and empty is not allowed. |
| DocSync.BusyLeftAlone | internal/docsync/docsync.go:172-236 | A source whose latest job is queued or running is neither pushed nor retired. |
| DocSync.KeysDiffer | internal/docsync/docsync.go:107-107 | Two documents have the same key exactly when they have the same number. |
| DocSync.PrefixIsolates | internal/docsync/docsync.go:218-236 | A key of prefix p2 falls under prefix p1 exactly when p1- starts p2-, or, for a negative number, p1 is p2-. |
| DocSync.RetiresOwnOnly | internal/docsync/docsync.go:221-236 | A sync retires a document of another prefix, numbered from 0 up, only if its own prefix and a hyphen start the other and a hyphen. |
| DocSync.LonePlanRetires | internal/docsync/docsync.go:151-236 | With nothing shown or queued, a plan of prefix p1 retires one document of prefix p2 exactly when its key falls under p1. |
| DocSync.HyphensCross | internal/docsync/docsync.go:221-236 | The plan of prefix a retires the document a-b-1 of prefix a-b. |
| DocSync.NegativeNumbersCross | internal/docsync/docsync.go:221-236 | For a negative number the prefix rule is not enough: the plan of prefix a- retires the document a--5 of prefix a. |
| DocSync.PlanningConverges | internal/docsync/docsync.go:151-236 | Once a plan is carried out, pushed documents read after their modification and retired ones gone, the next plan pushes and retires nothing. |
| SyncPlans.PlanMeans | internal/docsync/docsync.go:151-236 | A plan is one decision a document shown, in order: passed over if its newest job is queued or running, if one failed for good no earlier than its modification, if what is held was read after it, or if no copy can be read, and otherwise pushed as the file preferred; then one retirement, of its key and identifier, for each document held under this sync's keys that is neither shown nor being read, in order. |
| SyncPlans.QueueMeans | internal/docsync/docsync.go:123-147 | A source is being read, or was turned down for good since a modification, exactly as its newest job says. |
| Utf8.LeadSequence | internal/pystr/decode.go:79-86 | The row of the table a lead byte begins, by the loop over its rows. |
| Utf8.TableIsEncoding | internal/pystr/decode.go:65-76 | A byte sequence is well formed by the table exactly when it encodes a scalar value, and then one only. |
| Utf8.InitialFits | internal/pystr/decode.go:57-63 | A byte sequence properly starts some well-formed one exactly when it follows its lead byte's row and is short of it. |
| Decode.InvalidPrefix | internal/pystr/decode.go:46-55 | The number of bytes is that of the longest start of the input that properly starts a well-formed sequence, or 1 if none does, and at most 3. |
| Decode.ReadText | internal/pystr/decode.go:27-38 | The text is the newline-normalized reading of the bytes: scalar values of well-formed sequences, one U+FFFD a maximal ill-formed subpart. |
| Decode.ReadingConsumes | internal/pystr/decode.go:27-38 | Reading consumes all input: the bytes of its pieces, in order, are the input. |
| Decode.PiecesWellRead | internal/pystr/decode.go:40-45 | Each piece is a scalar value or a replaced subpart of one to three bytes. |
| Decode.ReadingIsUnique | internal/pystr/decode.go:20-26 | There is one reading of given bytes. |
| Decode.EncodedRoundTrip | internal/pystr/decode.go:20-26 | Encoded text reads back as itself, up to how its lines end. |
| Decode.NewlinesInTwo | internal/pystr/decode.go:38-38 | The two replacements together read each line end, however written, as one line feed. |
| Decode.NewlinesLeaveNoReturn | internal/pystr/decode.go:38-38 | No carriage return is left, and text without one is unchanged. |
| HeadingStacks.HeadingStack.Push | internal/domain/heading.go:15-27 | Drops what is at the level or deeper, a level below 1 counting from the innermost, pads skipped levels and appends the heading. |
| HeadingStacks.PathMeans | internal/domain/heading.go:8-14 | For headings of any level, the path is as long as the last one is deep, and its entry for a depth is the nearest heading before at that depth unless one above came since. |
| Html.Parse | internal/adapter/html/html.go:84-99 | The items are those the reading of the tree makes, each under the heading path open at it; HtmlItems.ReadingReadsOff says which text nodes share one. |
| Html.Walker.WalkNodes | internal/adapter/html/html.go:146-158 | The sibling loop leaves the walker as the recursive reading of the chain does. |
| Html.Walker.VisitElement | internal/adapter/html/html.go:161-189 | An element is read by its role, its children by the same walker. |
| Html.Walker.Flush | internal/adapter/html/html.go:203-208 | Emits the pending run as one item and empties it. |
| Html.Walker.EmitCode | internal/adapter/html/html.go:216-223 | Emits the next code text of the queue, if there is one. |
| Html.Walker.Heading | internal/adapter/html/html.go:191-200 | A heading with text is pushed at its level; one without changes nothing. |
| Html.CodeLines | internal/adapter/html/html.go:248-257 | The lines of a sample less the blank ones framing it. |
| Html.CodeKeepsSolid | internal/adapter/html/html.go:248-257 | A sample keeps every visible character of its text, in order. |
| Html.ProseShowsParts | internal/adapter/html/html.go:327-335 | A prose item shows exactly the visible text of its text nodes, in order. |
| Html.WalkTells | internal/adapter/html/html.go:143-189 | Walking any chain tells its text nodes, in order, each once, and under what is read already nothing more. |
| Html.ReadingTellsAll | internal/adapter/html/html.go:70-79 | The text nodes recorded with the outputs, in order, are those of the tree that hold prose, code samples apart, each once. |
| HtmlText.PartsWithin | internal/adapter/html/html.go:315-345 | The characters of the kept text nodes occur in order in the tree's whole text, which has no inked character besides; both show the same when no node is faint. |
| HtmlText.SpanShowsParts | internal/adapter/html/html.go:176-178 | The item of a multi-line code element shows the kept text nodes under it, in order, and no inked character besides. |
| HtmlText.ReadingShowsAll | internal/adapter/html/html.go:70-79 | What item texts and headings of their own show, in order, holds every kept text node of the tree, has the tree's inked characters exactly, and is its visible text when no node is faint. |
| HtmlText.ItemsConserveText | internal/adapter/html/html.go:84-99 | The inked characters of all item texts, of headings outside blocks and of the samples never met are, each as often, those of the whole tree. |
| HtmlText.ItemsReachAll | internal/adapter/html/html.go:70-79 | Every kept text node reaches an item exactly when no heading outside a block or heading holds one. |
| HtmlText.LoneHeading | internal/adapter/html/html.go:191-200 | A document of one heading with text has no item. |
| HtmlText.HeadingReachesNoItem | internal/adapter/html/html.go:70-79 | An h1 holding x: its text is kept and reaches no item. |
| HtmlText.ItemPathMeans | internal/adapter/html/html.go:225-227 | The item an output makes, the one after those of the outputs before it, has a heading path as long as the last heading before it is deep, each entry the nearest heading before at that depth unless one above came since. |
| HtmlItems.ReadingReadsOff | internal/adapter/html/html.go:161-189 | The outputs are read off the marks of the tree, in order: one for each whole stretch of kept text nodes outside blocks, headings and code with no cut in it, a cut being where an element that is not inline, is a block, or is code over several lines begins or ends; one for each heading, block or such code element read whole; samples where a pre stands. |
| HtmlItems.WordsTogether | internal/adapter/html/html.go:143-208 | Two such text nodes are in one output exactly when there is nothing but such text nodes between them. |
| HtmlItems.StretchMakesItem | internal/adapter/html/html.go:203-214 | The stretch of a text node makes one item: its words with a space between them. |
| HtmlItems.OwnMakesItem | internal/adapter/html/html.go:161-189 | Each block under no block or heading makes one output, and one item if it shows text, of exactly its kept text nodes; so do a heading and a code element read whole. |
| HtmlItems.TagsApart | internal/adapter/html/html.go:260-265 | The heading tags are h1 to h6, at their levels; no heading, block or pre tag is an inline one. |
| Html.PartsStripped | internal/adapter/html/html.go:315-335 | Every kept text node is told without the whitespace around it, and is not blank. |
| Html.CodeMeans | internal/adapter/html/html.go:248-257 | A sample's lines are those of its text from the first that is not blank to the last. |
| Html.SamplesInOrder | internal/adapter/html/html.go:228-245 | The samples emitted are the code texts taken, in order and none twice, less as many at the end as lie in code items read whole. |
| Html.SamplesPaired | internal/adapter/html/html.go:228-245 | The queue pairs every pre with its own text, leaving none over, exactly when no multi-line code element outside every block and heading holds a pre. |
| Html.HiddenSampleExists | internal/adapter/html/html.go:176-178 | A tree in which a code element spanning lines holds a pre: its sample is never met and the pairing fails. |

## Left out

- HTTP handlers, command line, tool registration, wiring and the web interface are not modelled.
- Row-level security, migrations and generated queries: only what the store interfaces state is used; SQL ordering is one fixed, scored order a library, each chunk once.
- Search's database reads: rows, scores, labels and index sections are inputs.
- Search.RankedPools: gives a map, so the order of documents is not modelled; `interleave` takes its lists in any order.
- Chunking.ChunkBlocks: without `ClassifyKinds` and without the chunk fields that follow blocks with no rule of their own (locators, page range, printed page, URL, kind, image count).
- Sections.ScatteredSections: gives a set, where the source sorts it into a list.
- BodyHeadings.DetectedMoreThanOnce: gives a set, where the source sorts it into a list; the other entries of the cross-check are not modelled.
- BodyHeadings.PlaceBodyHeadings: one map keyed by page and line stands for the map of maps.
- Regular expressions, Unicode word and letter tables, case folding and sentence recognition are given with each line or as a parameter; digits outside ASCII are read by the `numbers` parameter.
- Floating point: positions and scores are exact reals, and the CJK weight is the fraction 10/13.
- `locateOutlineHeadings`, `findTitle` and `titleAt`: placements are arbitrary inputs to OutlineEmit, so what is proved holds for whatever they return.
- `emitNumberedBlocks`, the printed contents, the index and page offsets of a numbered document.
- OutlineEmit.BlockSink.Flush: without the heading path, printed page and subdivision mark of a block; whether a line is furniture is given with it.
- OutlineEmit.EmitOutlineBlocks: the same fields are left out of its blocks.
- Gutter acceptance (`isGutter`, `fillsColumn`, `runsOn`, `sideBySide`): which lines have a gutter is an arbitrary map.
- PDFium calls, image hashing and the docx reader.
- Html.Parse: from a parsed tree without chrome on; the document title and each item's fragment are left out.
- Html.Walker.Heading: does not set the fragment from the heading's anchor.
- Emptying a pre is a function of the tree rather than an update of its nodes, so aliasing between nodes is not modelled.
- Account usernames, required claims and the username cache; other writers of the users table.
- Sync listing errors and the acts themselves; a plan's being carried out is a relation between two states of the library.
- `Stem`, `Suffix`, `Repr` and reading the file itself.
