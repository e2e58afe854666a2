/**
 Which text nodes of an HTML tree share an item. A tree is read as marks, in document
 order: the kept text nodes that no block, heading or code element holds, a cut where an
 element that sets its text apart begins or ends, and what is read whole. The walker is
 proved to make one item of each stretch of text nodes without a cut.
 */
module HtmlItems {
  import opened Sequences
  import opened Text
  import opened Html
  import opened HtmlText

  const HEADING_TAGS := ["h1", "h2", "h3", "h4", "h5", "h6"]

  /** A text node; an edge no text goes on across; an output read from an element whole; a pre. */
  datatype Mark = Word(text: string) | Cut | Own(output: Output) | Queued

  // ------------------------------------------------------------------ the marks of a tree

  /** Text on one side of the element's begin or end is not read on with text on the other. */
  predicate SetsApart(tag: string, asParagraph: bool, children: Nodes) {
    tag !in INLINE_TAGS || asParagraph || IsCode(tag, children)
  }

  /** Text inside the element is not read as text of its own. */
  predicate HoldsText(tag: string, asParagraph: bool) {
    tag == "pre" || tag in HEADING_TAGS || tag in BLOCK_TAGS || asParagraph
  }

  /**
   What an element is itself: a heading wherever it stands; a block, or code over several
   lines, unless a heading or block holds it.
   */
  function OwnMark(tag: string, asParagraph: bool, children: Nodes, held: bool): seq<Mark> {
    if tag == "pre" then [Queued]
    else if tag in HEADING_TAGS then [Own(Title(HeadingLevel(tag), ProseParts(children), !held))]
    else if held then []
    else if tag in BLOCK_TAGS || asParagraph then [Own(Prose(ProseParts(children)))]
    else if IsCode(tag, children) then [Own(Span(CodeText(AllText(children)), ProseParts(children)))]
    else []
  }

  function Edge(tag: string, asParagraph: bool, children: Nodes): seq<Mark> {
    if SetsApart(tag, asParagraph, children) then [Cut] else []
  }

  function InnerMarks(tag: string, asParagraph: bool, children: Nodes, held: bool): seq<Mark>
    decreases children, 1
  {
    if !held && !HoldsText(tag, asParagraph) && IsCode(tag, children) then []
    else Marks(children, held || HoldsText(tag, asParagraph))
  }

  /** The marks of a chain of siblings; held says that a heading or block holds them. */
  function Marks(ns: Nodes, held: bool): seq<Mark>
    decreases ns, 0
  {
    match ns
    case End => []
    case TextNode(data, next) => (if ProseString(data) != "" && !held then [Word(ProseString(data))] else []) + Marks(next, held)
    case Comment(next) => Marks(next, held)
    case Element(tag, asP, children, next) =>
      Edge(tag, asP, children) + OwnMark(tag, asP, children, held) + InnerMarks(tag, asP, children, held)
      + Edge(tag, asP, children) + Marks(next, held)
  }

  // -------------------------------------------------------------- the walk feeds on marks

  /** What one mark does to a state. */
  function Fed(s: State, m: Mark): State {
    match m
    case Word(text) => s.(page := s.page.(run := s.page.run + [text]))
    case Cut => Ended(s)
    case Own(o) => s.(page := Put(Flushed(s.page), o))
    case Queued => WithCode(Ended(s))
  }

  function FedAll(s: State, ms: seq<Mark>): State {
    if ms == [] then s else Fed(FedAll(s, ms[..|ms| - 1]), ms[|ms| - 1])
  }

  lemma {:induction false} FedConcat(s: State, a: seq<Mark>, b: seq<Mark>)
    ensures FedAll(s, a + b) == FedAll(FedAll(s, a), b)
    decreases |b|
  {
    if b == [] {
      Nothing(a);
    } else {
      var init, last := b[..|b| - 1], b[|b| - 1];
      InitLast(b);
      Assoc(a, init, [last]);
      FedConcat(s, a, init);
      FedSnoc(s, a + init, last);
    }
  }

  lemma FedSnoc(s: State, ms: seq<Mark>, m: Mark)
    ensures FedAll(s, ms + [m]) == Fed(FedAll(s, ms), m)
  {
    Parts(ms, [m]);
    assert (ms + [m])[|ms|] == m;
  }

  lemma FedOne(s: State, m: Mark)
    ensures FedAll(s, [m]) == Fed(s, m)
  {
    FedSnoc(s, [], m);
    Nothing([m]);
  }

  lemma EndedTwice(s: State)
    ensures Ended(Ended(s)) == Ended(s) && Ended(s).page.run == []
  {
  }

  /** The tags that begin and end paragraphs are none of the inline ones, and a heading's says its level. */
  lemma TagsApart(tag: string)
    ensures HeadingLevel(tag) > 0 <==> tag in HEADING_TAGS
    ensures tag == "pre" || tag in HEADING_TAGS || tag in BLOCK_TAGS ==> tag !in INLINE_TAGS
    ensures tag in HEADING_TAGS ==> 1 <= HeadingLevel(tag) <= 6 && HEADING_TAGS[HeadingLevel(tag) - 1] == tag
  {
    if HeadingLevel(tag) > 0 {
      var k := HeadingLevel(tag) - 1;
      assert HEADING_TAGS[k] == ['h', tag[1]] == tag;
    }
  }

  /** An edge ends the run, or leaves it as it is. */
  lemma EdgeFeeds(s: State, tag: string, asP: bool, children: Nodes)
    ensures FedAll(s, Edge(tag, asP, children)) == if SetsApart(tag, asP, children) then Ended(s) else s
  {
    FedOne(s, Cut);
  }

  /** The marks of one element, one kind after the other. */
  lemma ElementFeeds(s: State, tag: string, asP: bool, children: Nodes, next: Nodes, held: bool)
    ensures var edge := Edge(tag, asP, children);
            FedAll(s, Marks(Element(tag, asP, children, next), held)) ==
            FedAll(FedAll(FedAll(FedAll(FedAll(s, edge), OwnMark(tag, asP, children, held)),
                                 InnerMarks(tag, asP, children, held)), edge), Marks(next, held))
  {
    var edge, own, inner := Edge(tag, asP, children), OwnMark(tag, asP, children, held), InnerMarks(tag, asP, children, held);
    FedConcat(s, edge, own);
    FedConcat(s, edge + own, inner);
    FedConcat(s, edge + own + inner, edge);
    FedConcat(s, edge + own + inner + edge, Marks(next, held));
  }

  lemma TextFeeds(s: State, data: string, next: Nodes, held: bool)
    ensures FedAll(s, Marks(TextNode(data, next), held)) == FedAll(s.(page := WithText(s.page, data, held)), Marks(next, held))
  {
    if ProseString(data) != "" && !held {
      FedConcat(s, [Word(ProseString(data))], Marks(next, held));
      FedOne(s, Word(ProseString(data)));
    } else {
      Nothing(Marks(next, held));
    }
  }

  /** Walking a chain is being fed its marks; under what is held no run is open. */
  lemma {:induction false} WalkFeeds(s: State, ns: Nodes, held: bool)
    requires PresEmpty(ns) && (held ==> s.page.run == [])
    ensures Walk(s, ns, held) == FedAll(s, Marks(ns, held)) && (held ==> Walk(s, ns, held).page.run == [])
    decreases ns, 0
  {
    match ns
    case End =>
    case TextNode(data, next) =>
      TextFeeds(s, data, next, held);
      WalkFeeds(s.(page := WithText(s.page, data, held)), next, held);
    case Comment(next) =>
      WalkFeeds(s, next, held);
    case Element(tag, asP, children, next) =>
      var t := Visit(s, RoleOf(tag, asP, children, held), children, held);
      VisitFeeds(s, tag, asP, children, held);
      ElementFeeds(s, tag, asP, children, next, held);
      WalkFeeds(t, next, held);
  }

  lemma {:induction false} VisitFeeds(s: State, tag: string, asP: bool, children: Nodes, held: bool)
    requires (if tag == "pre" then children == End else PresEmpty(children)) && (held ==> s.page.run == [])
    ensures var edge, t := Edge(tag, asP, children), Visit(s, RoleOf(tag, asP, children, held), children, held);
            && t == FedAll(FedAll(FedAll(FedAll(s, edge), OwnMark(tag, asP, children, held)), InnerMarks(tag, asP, children, held)), edge)
            && (held ==> t.page.run == [])
    decreases children, 1
  {
    var edge, own, role := Edge(tag, asP, children), OwnMark(tag, asP, children, held), RoleOf(tag, asP, children, held);
    TagsApart(tag);
    EdgeFeeds(s, tag, asP, children);
    EndedTwice(s);
    var u := FedAll(FedAll(s, edge), own);
    if own != [] {
      FedOne(FedAll(s, edge), own[0]);
    }
    match role
    case Pre =>
      EdgeFeeds(u, tag, asP, children);
    case Heads(level) =>
      WalkFeeds(u, children, true);
      EdgeFeeds(Walk(u, children, true), tag, asP, children);
    case Block =>
      WalkFeeds(u, children, true);
      EdgeFeeds(Walk(u, children, true), tag, asP, children);
    case Spanning =>
      EdgeFeeds(u, tag, asP, children);
    case Inline =>
      WalkFeeds(u, children, held);
      EdgeFeeds(Walk(u, children, held), tag, asP, children);
    case Boundary =>
      WalkFeeds(u, children, held);
      EdgeFeeds(Walk(u, children, held), tag, asP, children);
  }

  /** The reading of a document is what its marks feed. */
  lemma ReadingFeeds(ns: Nodes)
    ensures Reading(ns) == Ended(FedAll(State(BLANK, Codes(ns)), Marks(Emptied(ns), false)))
  {
    EmptiedLeavesNone(ns);
    WalkFeeds(State(BLANK, Codes(ns)), Emptied(ns), false);
  }

  // ------------------------------------------------------------------ one item a stretch

  /** Where an output comes from: the marks from a up to b. */
  datatype Stretch = Stretch(a: nat, b: nat)

  /** Marks a up to b are text nodes with none before or after them. */
  predicate WholeStretch(ms: seq<Mark>, a: nat, b: nat) {
    && a < b <= |ms| && (forall x :: a <= x < b ==> ms[x].Word?)
    && (a > 0 ==> !ms[a - 1].Word?) && (b < |ms| ==> !ms[b].Word?)
  }

  /** An output is one whole stretch of text nodes, as prose, or what one mark stands for. */
  predicate ComesFrom(ms: seq<Mark>, at: Stretch, o: Output) {
    at.a < at.b <= |ms|
    && if ms[at.a].Word?
       then o.Prose? && WholeStretch(ms, at.a, at.b) && |o.parts| == at.b - at.a
            && forall x :: 0 <= x < |o.parts| ==> ms[at.a + x] == Word(o.parts[x])
       else at.b == at.a + 1 && (ms[at.a] == Own(o) || (ms[at.a] == Queued && o.Sample?))
  }

  predicate Covered(at: seq<Stretch>, x: nat) {
    exists k :: 0 <= k < |at| && at[k].a <= x < at[k].b
  }

  /**
   The outputs come from stretches of the marks, in order; no text node and nothing read
   whole is left over.
   */
  ghost predicate ReadsOff(ms: seq<Mark>, out: seq<Output>, at: seq<Stretch>) {
    && |at| == |out|
    && (forall k :: 0 <= k < |at| ==> ComesFrom(ms, at[k], out[k]))
    && (forall j, k :: 0 <= j < k < |at| ==> at[j].b <= at[k].a)
    && (forall x :: 0 <= x < |ms| && (ms[x].Word? || ms[x].Own?) ==> Covered(at, x))
  }

  /** The same once n marks are read, of which the last |run| are text nodes still to be put out. */
  ghost predicate Pending(ms: seq<Mark>, n: nat, p: Page, at: seq<Stretch>) {
    && |p.run| <= n <= |ms| && |at| == |p.out|
    && (forall k :: 0 <= k < |at| ==> at[k].b <= n - |p.run| && ComesFrom(ms, at[k], p.out[k]))
    && (forall j, k :: 0 <= j < k < |at| ==> at[j].b <= at[k].a)
    && (forall x :: 0 <= x < n - |p.run| && (ms[x].Word? || ms[x].Own?) ==> Covered(at, x))
    && (forall x :: 0 <= x < |p.run| ==> ms[n - |p.run| + x] == Word(p.run[x]))
  }

  /** The run goes back to the last mark that is no text node. */
  predicate RunWhole(ms: seq<Mark>, n: nat, p: Page) {
    |p.run| < n <= |ms| ==> !ms[n - |p.run| - 1].Word?
  }

  lemma CoveredMore(at: seq<Stretch>, one: Stretch, x: nat)
    ensures Covered(at + [one], x) <==> Covered(at, x) || one.a <= x < one.b
  {
    if Covered(at, x) {
      var k :| 0 <= k < |at| && at[k].a <= x < at[k].b;
      assert (at + [one])[k] == at[k];
    }
    assert (at + [one])[|at|] == one;
  }

  lemma PendingPut(ms: seq<Mark>, n: nat, p: Page, at: seq<Stretch>, one: Stretch, o: Output)
    requires Pending(ms, n, p, at) && p.run == [] && ComesFrom(ms, one, o) && one.b <= |ms|
    requires n == one.a
    ensures Pending(ms, one.b, Put(p, o), at + [one])
  {
    forall x | 0 <= x < one.b && (ms[x].Word? || ms[x].Own?)
      ensures Covered(at + [one], x)
    {
      CoveredMore(at, one, x);
    }
  }

  /** Putting the run out takes the whole stretch it is. */
  lemma PendingFlush(ms: seq<Mark>, n: nat, p: Page, at: seq<Stretch>) returns (more: seq<Stretch>)
    requires Pending(ms, n, p, at) && RunWhole(ms, n, p) && (n < |ms| ==> !ms[n].Word?)
    ensures Pending(ms, n, Flushed(p), more)
  {
    more := at;
    if p.run != [] {
      var one := Stretch(n - |p.run|, n);
      assert ms[one.a] == Word(p.run[0]);
      forall x | one.a <= x < one.b
        ensures ms[x].Word?
      {
        var y := x - one.a;
        assert ms[n - |p.run| + y] == Word(p.run[y]);
      }
      PendingPut(ms, one.a, Page(p.out, []), at, one, Prose(p.run));
      more := at + [one];
    }
  }

  lemma PendingWord(ms: seq<Mark>, n: nat, p: Page, at: seq<Stretch>)
    requires n < |ms| && ms[n].Word? && Pending(ms, n, p, at) && RunWhole(ms, n, p)
    ensures Pending(ms, n + 1, p.(run := p.run + [ms[n].text]), at) && RunWhole(ms, n + 1, p.(run := p.run + [ms[n].text]))
  {
  }

  /** Past a mark that is no text node and puts nothing out. */
  lemma PendingSkip(ms: seq<Mark>, n: nat, p: Page, at: seq<Stretch>)
    requires n < |ms| && !ms[n].Word? && !ms[n].Own? && Pending(ms, n, p, at) && p.run == []
    ensures Pending(ms, n + 1, p, at) && RunWhole(ms, n + 1, p)
  {
  }

  /** What n marks have fed: outputs read off them, and a run that goes back as far as it can. */
  ghost predicate ReadOn(ms: seq<Mark>, n: nat, p: Page, at: seq<Stretch>) {
    Pending(ms, n, p, at) && RunWhole(ms, n, p)
  }

  lemma PendingStep(ms: seq<Mark>, n: nat, s: State, at: seq<Stretch>) returns (more: seq<Stretch>)
    requires n < |ms| && ReadOn(ms, n, s.page, at)
    ensures ReadOn(ms, n + 1, Fed(s, ms[n]).page, more)
  {
    match ms[n]
    case Word(_) =>
      PendingWord(ms, n, s.page, at);
      more := at;
    case Cut =>
      more := PendingFlush(ms, n, s.page, at);
      PendingSkip(ms, n, Flushed(s.page), more);
    case Own(o) =>
      more := PendingFlush(ms, n, s.page, at);
      PendingPut(ms, n, Flushed(s.page), more, Stretch(n, n + 1), o);
      more := more + [Stretch(n, n + 1)];
    case Queued =>
      more := PendingFlush(ms, n, s.page, at);
      if s.codes == [] {
        PendingSkip(ms, n, Flushed(s.page), more);
      } else {
        PendingPut(ms, n, Flushed(s.page), more, Stretch(n, n + 1), Sample(s.codes[0]));
        more := more + [Stretch(n, n + 1)];
      }
  }

  lemma NothingRead(ms: seq<Mark>, codes: seq<string>)
    ensures ReadOn(ms, 0, State(BLANK, codes).page, [])
  {
  }

  lemma {:induction false} FedPending(ms: seq<Mark>, n: nat, codes: seq<string>) returns (at: seq<Stretch>)
    requires n <= |ms|
    ensures ReadOn(ms, n, FedAll(State(BLANK, codes), ms[..n]).page, at)
  {
    if n == 0 {
      at := [];
      NothingRead(ms, codes);
    } else {
      var before := FedPending(ms, n - 1, codes);
      TakeOne(ms, n - 1);
      FedSnoc(State(BLANK, codes), ms[..n - 1], ms[n - 1]);
      at := PendingStep(ms, n - 1, FedAll(State(BLANK, codes), ms[..n - 1]), before);
    }
  }

  /**
   The outputs of a document are read off its marks: one for each whole stretch of text
   nodes without a cut, one for each element read whole, samples where a pre stands.
   */
  lemma ReadingReadsOff(ns: Nodes) returns (at: seq<Stretch>)
    ensures ReadsOff(Marks(Emptied(ns), false), Reading(ns).page.out, at)
  {
    var ms := Marks(Emptied(ns), false);
    var p := FedAll(State(BLANK, Codes(ns)), ms).page;
    var before := FedPending(ms, |ms|, Codes(ns));
    Whole(ms);
    at := PendingFlush(ms, |ms|, p, before);
    ReadingFeeds(ns);
  }

  /** Which output a mark is in. */
  predicate InOutput(at: seq<Stretch>, k: nat, x: nat) {
    k < |at| && at[k].a <= x < at[k].b
  }

  lemma WordStretch(ms: seq<Mark>, at: Stretch, o: Output, x: nat)
    requires ComesFrom(ms, at, o) && at.a <= x < at.b && ms[x].Word?
    ensures o.Prose? && WholeStretch(ms, at.a, at.b)
    ensures |o.parts| == at.b - at.a && ms[x] == Word(o.parts[x - at.a])
  {
    var y := x - at.a;
    assert ms[at.a + y] == ms[x];
  }

  /** A whole stretch with x in it goes on to y exactly when there are only text nodes on the way. */
  lemma StretchReaches(ms: seq<Mark>, a: nat, b: nat, x: nat, y: nat)
    requires WholeStretch(ms, a, b) && a <= x < b && x < y < |ms| && ms[y].Word?
    ensures y < b <==> forall z :: x < z < y ==> ms[z].Word?
  {
    if y >= b {
      assert !ms[b].Word?;
    }
  }

  lemma OneOutput(at: seq<Stretch>, j: nat, k: nat, x: nat)
    requires forall j, k :: 0 <= j < k < |at| ==> at[j].b <= at[k].a
    requires InOutput(at, j, x) && InOutput(at, k, x)
    ensures j == k
  {
  }

  /** Two text nodes are in one output exactly when there is nothing but text nodes between them. */
  lemma WordsTogether(ms: seq<Mark>, out: seq<Output>, at: seq<Stretch>, x: nat, y: nat) returns (k: nat)
    requires ReadsOff(ms, out, at) && x < y < |ms| && ms[x].Word? && ms[y].Word?
    ensures InOutput(at, k, x) && (InOutput(at, k, y) <==> forall z :: x < z < y ==> ms[z].Word?)
  {
    k := OutputOf(ms, out, at, x);
    StretchReaches(ms, at[k].a, at[k].b, x, y);
  }

  /** A text node is in one output, whose words are its whole stretch. */
  lemma OutputOf(ms: seq<Mark>, out: seq<Output>, at: seq<Stretch>, x: nat) returns (k: nat)
    requires ReadsOff(ms, out, at) && x < |ms| && ms[x].Word?
    ensures k < |out| && InOutput(at, k, x) && forall j: nat :: InOutput(at, j, x) ==> j == k
    ensures out[k].Prose? && WholeStretch(ms, at[k].a, at[k].b)
    ensures |out[k].parts| == at[k].b - at[k].a && ms[x] == Word(out[k].parts[x - at[k].a])
  {
    assert Covered(at, x);
    k :| 0 <= k < |at| && at[k].a <= x < at[k].b;
    WordStretch(ms, at[k], out[k], x);
    forall j: nat | InOutput(at, j, x)
      ensures j == k
    {
      OneOutput(at, j, k, x);
    }
  }

  lemma {:induction false} JoinHolds(parts: seq<string>, i: nat)
    requires i < |parts| && parts[i] != ""
    ensures Join(parts, " ") != ""
  {
    if |parts| > 1 && i > 0 {
      JoinHolds(parts[1..], i - 1);
    }
  }

  /** The stretch of a text node makes one item: its words, with a space between them. */
  lemma StretchMakesItem(ms: seq<Mark>, out: seq<Output>, at: seq<Stretch>, x: nat) returns (k: nat, item: nat)
    requires ReadsOff(ms, out, at) && x < |ms| && ms[x].Word? && ms[x].text != ""
    ensures k < |out| && InOutput(at, k, x) && out[k].Prose?
    ensures item < |ItemsOf(out)| && item == |ItemsOf(out[..k])| && ItemsOf(out)[item].text == Join(out[k].parts, " ")
  {
    k := OutputOf(ms, out, at, x);
    JoinHolds(out[k].parts, x - at[k].a);
    ItemOfOutput(out, k);
    item := |ItemsOf(out[..k])|;
  }

  lemma OwnOutputOf(ms: seq<Mark>, out: seq<Output>, at: seq<Stretch>, x: nat) returns (k: nat)
    requires ReadsOff(ms, out, at) && x < |ms| && ms[x].Own?
    ensures k < |out| && at[k] == Stretch(x, x + 1) && out[k] == ms[x].output
  {
    assert Covered(at, x);
    k :| 0 <= k < |at| && at[k].a <= x < at[k].b;
    assert ComesFrom(ms, at[k], out[k]);
  }

  /** What is read whole is one output of its own, and one item if it shows any text. */
  lemma OwnMakesItem(ms: seq<Mark>, out: seq<Output>, at: seq<Stretch>, x: nat) returns (k: nat, item: nat)
    requires ReadsOff(ms, out, at) && x < |ms| && ms[x].Own?
    ensures k < |out| && at[k] == Stretch(x, x + 1) && out[k] == ms[x].output
    ensures item == |ItemsOf(out[..k])|
    ensures Shows(out[k]) != "" ==> item < |ItemsOf(out)| && ItemsOf(out)[item].text == Shows(out[k])
  {
    k := OwnOutputOf(ms, out, at, x);
    item := |ItemsOf(out[..k])|;
    if Shows(out[k]) != "" {
      ItemOfOutput(out, k);
    }
  }
}
