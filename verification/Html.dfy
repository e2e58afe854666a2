/**
 Turning an HTML tree into items (internal/adapter/html/html.go): a walker that keeps
 a run, a heading path and a queue of code samples. The trees here are those left once
 chrome has been taken out.
 */
module Html {
  import opened Text
  import opened HeadingStacks

  /** A chain of siblings: the node at its head, with its first child, and the sibling after it. */
  datatype Nodes =
    | End
    | TextNode(data: string, next: Nodes)
    | Element(tag: string, asParagraph: bool, children: Nodes, next: Nodes)
    | Comment(next: Nodes)

  const BLOCK_TAGS := {"p", "li", "blockquote", "td", "dd", "dt"}

  const INLINE_TAGS := {
    "a", "abbr", "b", "bdi", "bdo", "big", "br", "cite", "code", "data", "del", "dfn", "em", "font", "i", "img", "ins",
    "kbd", "label", "mark", "q", "rp", "rt", "ruby", "s", "samp", "small", "span", "strike", "strong", "sub", "sup",
    "time", "tt", "u", "var", "wbr"
  }

  // ----------------------------------------------------------------------- text nodes

  predicate IsZeroWidth(c: char) {
    c == '\U{200B}' || c == '\U{200C}' || c == '\U{200D}' || c == '\U{FEFF}'
  }

  /** A text node stripped; "" when only characters that take no space remain. */
  function ProseString(data: string): string {
    if forall i :: 0 <= i < |Strip(data)| ==> IsZeroWidth(Strip(data)[i]) then "" else Strip(data)
  }

  /** Every text node in document order, those that hold prose, each stripped. */
  function ProseParts(ns: Nodes): seq<string> {
    match ns
    case End => []
    case TextNode(data, next) => (if ProseString(data) != "" then [ProseString(data)] else []) + ProseParts(next)
    case Element(_, _, children, next) => ProseParts(children) + ProseParts(next)
    case Comment(next) => ProseParts(next)
  }

  function ProseText(children: Nodes): string {
    Join(ProseParts(children), " ")
  }

  /** Every text node, concatenated as written. */
  function AllText(ns: Nodes): string {
    match ns
    case End => ""
    case TextNode(data, next) => data + AllText(next)
    case Element(_, _, children, next) => AllText(children) + AllText(next)
    case Comment(next) => AllText(next)
  }

  // ------------------------------------------------------------------------- elements

  function HeadingLevel(tag: string): nat {
    if |tag| == 2 && tag[0] == 'h' && '1' <= tag[1] <= '6' then (tag[1] - '0') as nat else 0
  }

  /** A code element whose text spans lines. */
  predicate IsCode(tag: string, children: Nodes) {
    tag == "code" && '\n' in Strip(AllText(children))
  }

  datatype Role = Pre | Heads(level: nat) | Block | Spanning | Inline | Boundary

  /** How an element is read, once its code samples are out of it. */
  function RoleOf(tag: string, asParagraph: bool, children: Nodes, read: bool): Role {
    if tag == "pre" then Pre
    else if HeadingLevel(tag) > 0 then Heads(HeadingLevel(tag))
    else if tag in BLOCK_TAGS || asParagraph then Block
    else if !read && IsCode(tag, children) then Spanning
    else if tag in INLINE_TAGS then Inline
    else Boundary
  }

  // ------------------------------------------------------------------------ code samples

  function DropBlank(lines: seq<string>): seq<string> {
    if lines != [] && Strip(lines[0]) == "" then DropBlank(lines[1..]) else lines
  }

  function DropBlankEnd(lines: seq<string>): seq<string> {
    if lines != [] && Strip(lines[|lines| - 1]) == "" then DropBlankEnd(lines[..|lines| - 1]) else lines
  }

  /** A sample's lines, with no blank one first or last. */
  function CodeText(text: string): string {
    Join(DropBlankEnd(DropBlank(LinesOf(text))), "\n")
  }

  /** The texts of the outermost pre elements, in document order. */
  function Codes(ns: Nodes): seq<string> {
    match ns
    case End => []
    case TextNode(_, next) => Codes(next)
    case Element(tag, _, children, next) => (if tag == "pre" then [CodeText(AllText(children))] else Codes(children)) + Codes(next)
    case Comment(next) => Codes(next)
  }

  /** The tree with each of them emptied. */
  function Emptied(ns: Nodes): Nodes {
    match ns
    case End => End
    case TextNode(data, next) => TextNode(data, Emptied(next))
    case Element(tag, asP, children, next) => Element(tag, asP, if tag == "pre" then End else Emptied(children), Emptied(next))
    case Comment(next) => Comment(Emptied(next))
  }

  // ------------------------------------------------------------------------- the reading

  /**
   What is read, in order: prose as the text nodes it joins; a heading, and whether
   its text is read only there; a pre's sample; a spanning code element, with the text
   nodes it holds.
   */
  datatype Output =
    | Prose(parts: seq<string>)
    | Title(level: nat, parts: seq<string>, only: bool)
    | Sample(text: string)
    | Span(text: string, parts: seq<string>)

  /** The output so far and the run being read. */
  datatype Page = Page(out: seq<Output>, run: seq<string>)

  /** A page, and the samples still to be met. */
  datatype State = State(page: Page, codes: seq<string>)

  const BLANK := Page([], [])

  function Put(p: Page, o: Output): Page {
    p.(out := p.out + [o])
  }

  /** Ends the run. */
  function Flushed(p: Page): Page {
    if p.run == [] then p else Page(p.out + [Prose(p.run)], [])
  }

  function WithText(p: Page, data: string, read: bool): Page {
    if ProseString(data) != "" && !read then p.(run := p.run + [ProseString(data)]) else p
  }

  function WithCode(s: State): State {
    if s.codes == [] then s else State(Put(s.page, Sample(s.codes[0])), s.codes[1..])
  }

  function Headed(p: Page, level: nat, children: Nodes, read: bool): Page {
    Put(Flushed(p), Title(level, ProseParts(children), !read))
  }

  function Blocked(p: Page, children: Nodes, read: bool): Page {
    if read then Flushed(p) else Put(Flushed(p), Prose(ProseParts(children)))
  }

  function Spanned(p: Page, children: Nodes): Page {
    Put(Flushed(p), Span(CodeText(AllText(children)), ProseParts(children)))
  }

  /** What a chain of siblings does to a state; read says that an enclosing element has told its text. */
  function Walk(s: State, ns: Nodes, read: bool): State
    decreases ns, 0
  {
    match ns
    case End => s
    case TextNode(data, next) => Walk(s.(page := WithText(s.page, data, read)), next, read)
    case Comment(next) => Walk(s, next, read)
    case Element(tag, asP, children, next) => Walk(Visit(s, RoleOf(tag, asP, children, read), children, read), next, read)
  }

  function Ended(s: State): State {
    s.(page := Flushed(s.page))
  }

  /** What an element does, by its role. */
  function Visit(s: State, role: Role, children: Nodes, read: bool): State
    decreases children, 1
  {
    match role
    case Pre => WithCode(Ended(s))
    case Heads(level) => Walk(s.(page := Headed(s.page, level, children, read)), children, true)
    case Block => Walk(s.(page := Blocked(s.page, children, read)), children, true)
    case Spanning => s.(page := Spanned(s.page, children))
    case Inline => Walk(s, children, read)
    case Boundary => Ended(Walk(Ended(s), children, read))
  }

  /** The whole document: its samples taken out, its tree walked, its last run ended. */
  function Reading(ns: Nodes): State {
    Ended(Walk(State(BLANK, Codes(ns)), Emptied(ns), false))
  }

  // --------------------------------------------------------------------- text conserved

  /** The text nodes an output is the first to hold. */
  function PartsIn(o: Output): seq<string> {
    match o
    case Prose(parts) => parts
    case Title(_, parts, only) => if only then parts else []
    case Sample(_) => []
    case Span(_, parts) => parts
  }

  function PartsOf(out: seq<Output>): seq<string> {
    if out == [] then [] else PartsOf(out[..|out| - 1]) + PartsIn(out[|out| - 1])
  }

  /** All the text read so far. */
  function Told(p: Page): seq<string> {
    PartsOf(p.out) + p.run
  }

  lemma PutTells(p: Page, o: Output)
    requires p.run == []
    ensures Told(Put(p, o)) == Told(p) + PartsIn(o) && Put(p, o).run == []
  {
    assert (p.out + [o])[..|p.out|] == p.out;
  }

  lemma FlushTells(p: Page)
    ensures Told(Flushed(p)) == Told(p) && Flushed(p).run == []
  {
    if p.run != [] {
      assert (p.out + [Prose(p.run)])[..|p.out|] == p.out;
    }
  }

  lemma TextTells(p: Page, data: string, read: bool)
    ensures Told(WithText(p, data, read)) == Told(p) + if ProseString(data) != "" && !read then [ProseString(data)] else []
  {
  }

  /** Every pre is empty, as taking its sample out leaves it. */
  predicate PresEmpty(ns: Nodes) {
    match ns
    case End => true
    case TextNode(_, next) => PresEmpty(next)
    case Element(tag, _, children, next) => (if tag == "pre" then children == End else PresEmpty(children)) && PresEmpty(next)
    case Comment(next) => PresEmpty(next)
  }

  lemma {:induction false} EmptiedLeavesNone(ns: Nodes)
    ensures PresEmpty(Emptied(ns))
  {
    match ns
    case End =>
    case TextNode(_, next) => EmptiedLeavesNone(next);
    case Element(tag, _, children, next) =>
      EmptiedLeavesNone(children);
      EmptiedLeavesNone(next);
    case Comment(next) => EmptiedLeavesNone(next);
  }

  /** The text an element or chain newly tells. */
  function Tells(ns: Nodes, read: bool): seq<string> {
    if read then [] else ProseParts(ns)
  }

  lemma Regroup(a: seq<string>, b: seq<string>, c: seq<string>)
    ensures a + b + c == a + (b + c)
  {
  }

  /** Walking tells the text nodes met, in order, each once, and nothing more under what is read. */
  lemma {:induction false} WalkTells(s: State, ns: Nodes, read: bool)
    requires PresEmpty(ns)
    ensures Told(Walk(s, ns, read).page) == Told(s.page) + Tells(ns, read)
    decreases ns, 0
  {
    match ns
    case End =>
    case TextNode(data, next) =>
      TextTells(s.page, data, read);
      WalkTells(s.(page := WithText(s.page, data, read)), next, read);
      Regroup(Told(s.page), if ProseString(data) != "" && !read then [ProseString(data)] else [], Tells(next, read));
    case Comment(next) =>
      WalkTells(s, next, read);
    case Element(tag, asP, children, next) =>
      var role := RoleOf(tag, asP, children, read);
      VisitTells(s, role, children, read);
      WalkTells(Visit(s, role, children, read), next, read);
      Regroup(Told(s.page), Tells(children, read), Tells(next, read));
  }

  lemma FlushPutTells(p: Page, o: Output)
    ensures Told(Put(Flushed(p), o)) == Told(p) + PartsIn(o)
  {
    FlushTells(p);
    PutTells(Flushed(p), o);
  }

  lemma SpanPutTells(p: Page, text: string, parts: seq<string>)
    ensures Told(Put(Flushed(p), Span(text, parts))) == Told(p) + parts
  {
    FlushPutTells(p, Span(text, parts));
  }

  lemma HeadedTells(p: Page, level: nat, children: Nodes, read: bool)
    ensures Told(Headed(p, level, children, read)) == Told(p) + Tells(children, read)
  {
    FlushPutTells(p, Title(level, ProseParts(children), !read));
  }

  lemma BlockedTells(p: Page, children: Nodes, read: bool)
    ensures Told(Blocked(p, children, read)) == Told(p) + Tells(children, read)
  {
    FlushTells(p);
    FlushPutTells(p, Prose(ProseParts(children)));
  }

  lemma SpannedTells(p: Page, children: Nodes)
    ensures Told(Spanned(p, children)) == Told(p) + ProseParts(children)
  {
    SpanPutTells(p, CodeText(AllText(children)), ProseParts(children));
  }

  lemma CodeTells(s: State)
    ensures Told(WithCode(Ended(s)).page) == Told(s.page)
  {
    FlushTells(s.page);
    if s.codes != [] {
      PutTells(Flushed(s.page), Sample(s.codes[0]));
    }
  }

  lemma {:induction false} VisitTells(s: State, role: Role, children: Nodes, read: bool)
    requires (if role.Pre? then children == End else PresEmpty(children)) && (role.Spanning? ==> !read)
    ensures Told(Visit(s, role, children, read).page) == Told(s.page) + Tells(children, read)
    decreases children, 1
  {
    match role
    case Pre =>
      CodeTells(s);
    case Heads(level) =>
      HeadedTells(s.page, level, children, read);
      WalkTells(s.(page := Headed(s.page, level, children, read)), children, true);
    case Block =>
      BlockedTells(s.page, children, read);
      WalkTells(s.(page := Blocked(s.page, children, read)), children, true);
    case Spanning =>
      SpannedTells(s.page, children);
    case Inline =>
      WalkTells(s, children, read);
    case Boundary =>
      FlushTells(s.page);
      WalkTells(Ended(s), children, read);
      FlushTells(Walk(Ended(s), children, read).page);
  }

  lemma EndedTells(p: Page)
    ensures PartsOf(Flushed(p).out) == Told(p) && Flushed(p).run == []
  {
    FlushTells(p);
    assert Told(Flushed(p)) == PartsOf(Flushed(p).out) + [];
  }

  lemma BlankTells()
    ensures Told(BLANK) == []
  {
  }

  lemma StartTells(s: State, ns: Nodes)
    requires PresEmpty(ns) && Told(s.page) == []
    ensures Told(Walk(s, ns, false).page) == ProseParts(ns)
  {
    WalkTells(s, ns, false);
    Alone(ProseParts(ns));
  }

  lemma Alone(parts: seq<string>)
    ensures [] + parts == parts
  {
  }

  /**
   The text nodes that hold prose, in document order, are those recorded with the
   outputs, each once. ReadingShowsAll says that the outputs show what is recorded.
   */
  lemma ReadingTellsAll(ns: Nodes)
    ensures PartsOf(Reading(ns).page.out) == ProseParts(Emptied(ns)) && Reading(ns).page.run == []
  {
    EmptiedLeavesNone(ns);
    BlankTells();
    StartTells(State(BLANK, Codes(ns)), Emptied(ns));
    EndedTells(Walk(State(BLANK, Codes(ns)), Emptied(ns), false).page);
  }

  // ------------------------------------------------------------------ samples paired

  /** Reading each pre's own text where it stands, with no queue. */
  function Direct(p: Page, ns: Nodes, read: bool): Page
    decreases ns, 0
  {
    match ns
    case End => p
    case TextNode(data, next) => Direct(WithText(p, data, read), next, read)
    case Comment(next) => Direct(p, next, read)
    case Element(tag, asP, children, next) =>
      Direct(DirectVisit(p, RoleOf(tag, asP, Bare(tag, children), read), children, read), next, read)
  }

  /** An element's children once their samples are out; a pre's own are. */
  function Bare(tag: string, children: Nodes): Nodes {
    if tag == "pre" then End else Emptied(children)
  }

  function DirectVisit(p: Page, role: Role, children: Nodes, read: bool): Page
    decreases children, 1
  {
    match role
    case Pre => Put(Flushed(p), Sample(CodeText(AllText(children))))
    case Heads(level) => Direct(Headed(p, level, Emptied(children), read), children, true)
    case Block => Direct(Blocked(p, Emptied(children), read), children, true)
    case Spanning => Spanned(p, Emptied(children))
    case Inline => Direct(p, children, read)
    case Boundary => Flushed(Direct(Flushed(p), children, read))
  }

  function DirectReading(ns: Nodes): Page {
    Flushed(Direct(BLANK, ns, false))
  }

  /** How many samples lie in code elements that are read whole: the walk never meets their pre. */
  function Hidden(ns: Nodes, read: bool): nat
    decreases ns, 0
  {
    match ns
    case End => 0
    case TextNode(_, next) => Hidden(next, read)
    case Comment(next) => Hidden(next, read)
    case Element(tag, asP, children, next) => HiddenIn(RoleOf(tag, asP, Bare(tag, children), read), children, read) + Hidden(next, read)
  }

  function HiddenIn(role: Role, children: Nodes, read: bool): nat
    decreases children, 1
  {
    match role
    case Pre => 0
    case Heads(_) => Hidden(children, true)
    case Block => Hidden(children, true)
    case Spanning => |Codes(children)|
    case Inline => Hidden(children, read)
    case Boundary => Hidden(children, read)
  }

  function CodesIn(role: Role, children: Nodes): seq<string> {
    if role.Pre? then [CodeText(AllText(children))] else Codes(children)
  }

  function BareIn(role: Role, children: Nodes): Nodes {
    if role.Pre? then End else Emptied(children)
  }

  /** With none hidden, the queue pairs each pre met with its own sample. */
  lemma {:induction false} WalkPairs(p: Page, ns: Nodes, read: bool, rest: seq<string>)
    requires Hidden(ns, read) == 0
    ensures Walk(State(p, Codes(ns) + rest), Emptied(ns), read) == State(Direct(p, ns, read), rest)
    decreases ns, 0
  {
    match ns
    case End =>
      assert [] + rest == rest;
    case TextNode(data, next) =>
      WalkPairs(WithText(p, data, read), next, read, rest);
    case Comment(next) =>
      WalkPairs(p, next, read, rest);
    case Element(tag, asP, children, next) =>
      var role := RoleOf(tag, asP, Bare(tag, children), read);
      Regroup(CodesIn(role, children), Codes(next), rest);
      VisitPairs(p, role, children, read, Codes(next) + rest);
      WalkPairs(DirectVisit(p, role, children, read), next, read, rest);
  }

  lemma {:induction false} VisitPairs(p: Page, role: Role, children: Nodes, read: bool, rest: seq<string>)
    requires HiddenIn(role, children, read) == 0
    ensures Visit(State(p, CodesIn(role, children) + rest), role, BareIn(role, children), read) ==
            State(DirectVisit(p, role, children, read), rest)
    decreases children, 1
  {
    match role
    case Pre =>
    case Heads(level) =>
      WalkPairs(Headed(p, level, Emptied(children), read), children, true, rest);
    case Block =>
      WalkPairs(Blocked(p, Emptied(children), read), children, true, rest);
    case Spanning =>
      assert Codes(children) == [] && [] + rest == rest;
    case Inline =>
      WalkPairs(p, children, read, rest);
    case Boundary =>
      WalkPairs(Flushed(p), children, read, rest);
  }

  /** As many samples are left as were hidden. */
  lemma {:induction false} WalkLeaves(s: State, ns: Nodes, read: bool)
    requires |s.codes| >= |Codes(ns)|
    ensures |Walk(s, Emptied(ns), read).codes| == |s.codes| - |Codes(ns)| + Hidden(ns, read)
    decreases ns, 0
  {
    match ns
    case End =>
    case TextNode(data, next) =>
      WalkLeaves(s.(page := WithText(s.page, data, read)), next, read);
    case Comment(next) =>
      WalkLeaves(s, next, read);
    case Element(tag, asP, children, next) =>
      var role := RoleOf(tag, asP, Bare(tag, children), read);
      VisitLeaves(s, role, children, read);
      WalkLeaves(Visit(s, role, BareIn(role, children), read), next, read);
  }

  lemma {:induction false} VisitLeaves(s: State, role: Role, children: Nodes, read: bool)
    requires |s.codes| >= |CodesIn(role, children)|
    ensures |Visit(s, role, BareIn(role, children), read).codes| == |s.codes| - |CodesIn(role, children)| + HiddenIn(role, children, read)
    decreases children, 1
  {
    match role
    case Pre =>
    case Heads(level) =>
      WalkLeaves(s.(page := Headed(s.page, level, Emptied(children), read)), children, true);
    case Block =>
      WalkLeaves(s.(page := Blocked(s.page, Emptied(children), read)), children, true);
    case Spanning =>
    case Inline =>
      WalkLeaves(s, children, read);
    case Boundary =>
      WalkLeaves(Ended(s), children, read);
  }

  /** The queue reads every sample where it stands exactly when no code element read whole holds a pre. */
  lemma SamplesPaired(ns: Nodes)
    ensures Reading(ns) == State(DirectReading(ns), []) <==> Hidden(ns, false) == 0
    ensures |Reading(ns).codes| == Hidden(ns, false)
  {
    WalkLeaves(State(BLANK, Codes(ns)), ns, false);
    if Hidden(ns, false) == 0 {
      WalkPairs(BLANK, ns, false, []);
      assert Codes(ns) + [] == Codes(ns);
    }
  }

  /** The samples read out, in order. */
  function SamplesOf(out: seq<Output>): seq<string> {
    if out == [] then []
    else SamplesOf(out[..|out| - 1]) + if out[|out| - 1].Sample? then [out[|out| - 1].text] else []
  }

  /** The samples read out, then those in the queue: a walk only moves them from one to the other. */
  function Samples(s: State): seq<string> {
    SamplesOf(s.page.out) + s.codes
  }

  lemma PutSamples(p: Page, o: Output)
    ensures SamplesOf(Put(p, o).out) == SamplesOf(p.out) + if o.Sample? then [o.text] else []
  {
    assert (p.out + [o])[..|p.out|] == p.out;
  }

  lemma FlushSamples(p: Page)
    ensures SamplesOf(Flushed(p).out) == SamplesOf(p.out)
  {
    if p.run != [] {
      PutSamples(p, Prose(p.run));
    }
  }

  lemma CodeSamples(s: State)
    ensures Samples(WithCode(Ended(s))) == Samples(s)
  {
    FlushSamples(s.page);
    if s.codes != [] {
      PutSamples(Flushed(s.page), Sample(s.codes[0]));
      assert SamplesOf(s.page.out) + [s.codes[0]] + s.codes[1..] == SamplesOf(s.page.out) + s.codes;
    }
  }

  lemma PutsSample(p: Page, level: nat, children: Nodes, read: bool)
    ensures SamplesOf(Headed(p, level, children, read).out) == SamplesOf(p.out)
    ensures SamplesOf(Blocked(p, children, read).out) == SamplesOf(p.out)
    ensures SamplesOf(Spanned(p, children).out) == SamplesOf(p.out)
  {
    FlushSamples(p);
    PutSamples(Flushed(p), Title(level, ProseParts(children), !read));
    PutSamples(Flushed(p), Prose(ProseParts(children)));
    PutSamples(Flushed(p), Span(CodeText(AllText(children)), ProseParts(children)));
  }

  lemma {:induction false} WalkSamples(s: State, ns: Nodes, read: bool)
    ensures Samples(Walk(s, ns, read)) == Samples(s)
    decreases ns, 0
  {
    match ns
    case End =>
    case TextNode(data, next) => WalkSamples(s.(page := WithText(s.page, data, read)), next, read);
    case Comment(next) => WalkSamples(s, next, read);
    case Element(tag, asP, children, next) =>
      var role := RoleOf(tag, asP, children, read);
      VisitSamples(s, role, children, read);
      WalkSamples(Visit(s, role, children, read), next, read);
  }

  lemma {:induction false} VisitSamples(s: State, role: Role, children: Nodes, read: bool)
    ensures Samples(Visit(s, role, children, read)) == Samples(s)
    decreases children, 1
  {
    match role
    case Pre =>
      CodeSamples(s);
    case Heads(level) =>
      PutsSample(s.page, level, children, read);
      WalkSamples(s.(page := Headed(s.page, level, children, read)), children, true);
    case Block =>
      PutsSample(s.page, 0, children, read);
      WalkSamples(s.(page := Blocked(s.page, children, read)), children, true);
    case Spanning =>
      PutsSample(s.page, 0, children, read);
    case Inline =>
      WalkSamples(s, children, read);
    case Boundary =>
      FlushSamples(s.page);
      WalkSamples(Ended(s), children, read);
      FlushSamples(Walk(Ended(s), children, read).page);
  }

  /** The samples read out are those taken, in order and none twice, less as many at the end as were hidden. */
  lemma SamplesInOrder(ns: Nodes)
    ensures SamplesOf(Reading(ns).page.out) + Reading(ns).codes == Codes(ns) && |Reading(ns).codes| == Hidden(ns, false)
  {
    var s := State(BLANK, Codes(ns));
    WalkSamples(s, Emptied(ns), false);
    FlushSamples(Walk(s, Emptied(ns), false).page);
    assert Samples(s) == [] + Codes(ns) == Codes(ns);
    SamplesPaired(ns);
  }

  /** A sample inside a code element that spans lines is never met, and shifts those after it by one. */
  lemma HiddenSampleExists() returns (ns: Nodes)
    ensures Hidden(ns, false) == 1 && |Reading(ns).codes| == 1 && Reading(ns) != State(DirectReading(ns), [])
  {
    var pre := Element("pre", false, TextNode("x", End), End);
    var inside := TextNode("a\nb", pre);
    ns := Element("code", false, inside, End);
    assert AllText(Emptied(inside)) == "a\nb" + "";
    assert "a\nb" + "" == "a\nb";
    assert HeadingLevel("code") == 0;
    assert RoleOf("code", false, Bare("code", inside), false) == Spanning;
    assert |Codes(inside)| == 1;
    SamplesPaired(ns);
  }

  // ------------------------------------------------------------------------- the items

  datatype Item = Item(text: string, path: seq<string>)

  /** The text an output shows as an item, if any. */
  function Shows(o: Output): string {
    match o
    case Prose(parts) => Join(parts, " ")
    case Title(_, _, _) => ""
    case Sample(text) => text
    case Span(text, _) => text
  }

  /** The heading ancestry after the output; a heading without text changes nothing. */
  function PathOf(out: seq<Output>): seq<string> {
    if out == [] then []
    else
      var o, before := out[|out| - 1], PathOf(out[..|out| - 1]);
      if o.Title? && Join(o.parts, " ") != "" then Pushed(before, o.level, Join(o.parts, " ")) else before
  }

  function ItemsOf(out: seq<Output>): seq<Item> {
    if out == [] then []
    else
      var o := out[|out| - 1];
      ItemsOf(out[..|out| - 1]) + if Shows(o) != "" then [Item(Shows(o), PathOf(out[..|out| - 1]))] else []
  }

  lemma OutSnoc(out: seq<Output>, o: Output)
    ensures ItemsOf(out + [o]) == ItemsOf(out) + if Shows(o) != "" then [Item(Shows(o), PathOf(out))] else []
    ensures PathOf(out + [o]) ==
            if o.Title? && Join(o.parts, " ") != "" then Pushed(PathOf(out), o.level, Join(o.parts, " ")) else PathOf(out)
  {
    assert (out + [o])[..|out|] == out;
  }

  /** What prose shows is its text nodes, up to the spaces between them. */
  lemma ProseShowsParts(parts: seq<string>)
    ensures Solid(Shows(Prose(parts))) == SolidAll(parts)
  {
    JoinKeepsSolid(parts, " ");
  }

  lemma {:induction false} DropKeepsSolid(lines: seq<string>)
    ensures SolidAll(DropBlank(lines)) == SolidAll(lines)
  {
    if lines != [] && Strip(lines[0]) == "" {
      StripKeepsSolid(lines[0]);
      DropKeepsSolid(lines[1..]);
    }
  }

  lemma {:induction false} DropEndKeepsSolid(lines: seq<string>)
    ensures SolidAll(DropBlankEnd(lines)) == SolidAll(lines)
  {
    if lines != [] && Strip(lines[|lines| - 1]) == "" {
      var init, last := lines[..|lines| - 1], lines[|lines| - 1];
      StripKeepsSolid(last);
      DropEndKeepsSolid(init);
      SolidAllConcat(init, [last]);
      assert lines == init + [last] && SolidAll([last]) == Solid(last) + SolidAll([last][1..]);
    }
  }

  /** A sample shows all its text but the breaks of its lines. */
  lemma CodeKeepsSolid(text: string)
    ensures Solid(CodeText(text)) == Solid(text)
  {
    var lines := LinesOf(text);
    LinesKeepSolid(text);
    DropKeepsSolid(lines);
    DropEndKeepsSolid(DropBlank(lines));
    JoinKeepsSolid(DropBlankEnd(DropBlank(lines)), "\n");
  }

  /** Lines a up to b of some lines, with only blank ones before and after them, and none first or last. */
  predicate Framed(lines: seq<string>, a: nat, b: nat) {
    && a <= b <= |lines|
    && (forall i :: 0 <= i < a ==> Strip(lines[i]) == "")
    && (forall i :: b <= i < |lines| ==> Strip(lines[i]) == "")
    && (a < b ==> Strip(lines[a]) != "" && Strip(lines[b - 1]) != "")
  }

  lemma {:induction false} DropBlankIs(lines: seq<string>) returns (a: nat)
    ensures a <= |lines| && DropBlank(lines) == lines[a..] && forall i :: 0 <= i < a ==> Strip(lines[i]) == ""
    ensures a < |lines| ==> Strip(lines[a]) != ""
  {
    a := 0;
    if lines != [] && Strip(lines[0]) == "" {
      var rest := DropBlankIs(lines[1..]);
      a := rest + 1;
      assert lines[1..][rest..] == lines[a..];
      assert forall i :: 1 <= i < a ==> lines[i] == lines[1..][i - 1];
    }
  }

  lemma {:induction false} DropBlankEndIs(lines: seq<string>) returns (b: nat)
    ensures b <= |lines| && DropBlankEnd(lines) == lines[..b] && forall i :: b <= i < |lines| ==> Strip(lines[i]) == ""
    ensures b > 0 ==> Strip(lines[b - 1]) != ""
  {
    b := |lines|;
    if lines != [] && Strip(lines[|lines| - 1]) == "" {
      b := DropBlankEndIs(lines[..|lines| - 1]);
    }
  }

  lemma FramedIs(lines: seq<string>) returns (a: nat, b: nat)
    ensures Framed(lines, a, b) && DropBlankEnd(DropBlank(lines)) == lines[a..b]
  {
    a := DropBlankIs(lines);
    var n := DropBlankEndIs(lines[a..]);
    b := a + n;
    assert lines[a..][..n] == lines[a..b];
    forall i | b <= i < |lines|
      ensures Strip(lines[i]) == ""
    {
      assert lines[i] == lines[a..][i - a];
    }
    if n > 0 {
      assert lines[b - 1] == lines[a..][n - 1];
      assert a < |lines|;
    }
  }

  /** A sample's lines are those of its text, from the first that is not blank to the last. */
  lemma CodeMeans(text: string) returns (a: nat, b: nat)
    ensures Framed(LinesOf(text), a, b) && CodeText(text) == Join(LinesOf(text)[a..b], "\n")
    ensures a < b ==> Split(CodeText(text), "\n") == LinesOf(text)[a..b]
  {
    var lines := LinesOf(text);
    a, b := FramedIs(lines);
    LinesBreakFree(text);
    if a < b {
      forall p | p in lines[a..b]
        ensures '\n' !in p
      {
        var i :| 0 <= i < |lines| && lines[i] == p;
        assert NoBreak(p);
      }
      JoinRoundTrip(lines[a..b], '\n');
    }
  }

  /** Every kept text node is told without the whitespace around it, and is not blank. */
  lemma {:induction false} PartsStripped(ns: Nodes)
    ensures forall p :: p in ProseParts(ns) ==> p != "" && !IsSpace(p[0]) && !IsSpace(p[|p| - 1])
  {
    match ns
    case End =>
    case TextNode(data, next) =>
      PartsStripped(next);
      var before, after := StripSplits(data);
    case Element(_, _, children, next) =>
      PartsStripped(children);
      PartsStripped(next);
    case Comment(next) =>
      PartsStripped(next);
  }

  // ------------------------------------------------------------------------ the walker

  method CodeLines(text: string) returns (code: string)
    ensures code == CodeText(text)
  {
    var lines := SplitLines(text);
    while lines != [] && Strip(lines[0]) == ""
      invariant DropBlank(lines) == DropBlank(LinesOf(text))
      decreases |lines|
    {
      lines := lines[1..];
    }
    while lines != [] && Strip(lines[|lines| - 1]) == ""
      invariant DropBlankEnd(lines) == DropBlankEnd(DropBlank(LinesOf(text)))
      decreases |lines|
    {
      lines := lines[..|lines| - 1];
    }
    code := Join(lines, "\n");
  }

  /** The walker's fields, with its outputs so far as a ghost; View is its State. */
  class Walker {
    const stack: HeadingStack
    var codes: seq<string>
    var items: seq<Item>
    var run: seq<string>
    ghost var out: seq<Output>

    ghost function View(): State
      reads this
    {
      State(Page(out, run), codes)
    }

    ghost predicate Valid()
      reads this, stack
    {
      items == ItemsOf(out) && stack.path == PathOf(out)
    }

    constructor (samples: seq<string>)
      ensures Valid() && fresh(stack) && View() == State(BLANK, samples)
    {
      stack := new HeadingStack();
      codes, items, run, out := samples, [], [], [];
    }

    /** Emits an item, unless it has no text; o is the output it is. */
    method Emit(text: string, ghost o: Output)
      requires Valid() && Shows(o) == text && !o.Title?
      modifies this
      ensures Valid() && out == old(out) + [o] && run == old(run) && codes == old(codes)
    {
      OutSnoc(out, o);
      if text != "" {
        items := items + [Item(text, stack.path)];
      }
      out := out + [o];
    }

    method Flush()
      requires Valid()
      modifies this
      ensures Valid() && View() == Ended(old(View()))
    {
      if |run| > 0 {
        Emit(Join(run, " "), Prose(run));
        run := [];
      }
    }

    method EmitCode()
      requires Valid()
      modifies this
      ensures Valid() && View() == WithCode(old(View()))
    {
      if codes == [] {
        return;
      }
      var text := codes[0];
      codes := codes[1..];
      Emit(text, Sample(text));
    }

    method Heading(level: nat, children: Nodes, read: bool)
      requires Valid()
      modifies this, stack
      ensures Valid() && out == old(out) + [Title(level, ProseParts(children), !read)] && run == old(run) && codes == old(codes)
    {
      var text := ProseText(children);
      OutSnoc(out, Title(level, ProseParts(children), !read));
      if text != "" {
        stack.Push(level, text);
      }
      out := out + [Title(level, ProseParts(children), !read)];
    }

    /** Reads the siblings from the first on. */
    method WalkNodes(first: Nodes, read: bool)
      requires Valid()
      modifies this, stack
      ensures Valid() && View() == Walk(old(View()), first, read)
      decreases first, 0
    {
      var c := first;
      while !c.End?
        invariant Valid() && Walk(View(), c, read) == Walk(old(View()), first, read)
        invariant c == first || c < first
        decreases c
      {
        match c {
          case TextNode(data, next) =>
            var s := ProseString(data);
            if s != "" && !read {
              run := run + [s];
            }
          case Element(tag, asP, children, next) =>
            VisitElement(RoleOf(tag, asP, children, read), children, read);
          case Comment(next) =>
        }
        c := c.next;
      }
    }

    /** Dispatches on the role as Visit does. */
    method VisitElement(role: Role, children: Nodes, read: bool)
      requires Valid()
      modifies this, stack
      ensures Valid() && View() == Visit(old(View()), role, children, read)
      decreases children, 1
    {
      match role {
        case Pre =>
          Flush();
          EmitCode();
        case Heads(level) =>
          Flush();
          Heading(level, children, read);
          WalkNodes(children, true);
        case Block =>
          Flush();
          if !read {
            Emit(ProseText(children), Prose(ProseParts(children)));
          }
          WalkNodes(children, true);
        case Spanning =>
          Flush();
          var code := CodeLines(AllText(children));
          Emit(code, Span(code, ProseParts(children)));
        case Inline =>
          WalkNodes(children, read);
        case Boundary =>
          Flush();
          WalkNodes(children, read);
          Flush();
      }
    }
  }

  /** The items of a document, in order. */
  method Parse(body: Nodes) returns (items: seq<Item>)
    ensures items == ItemsOf(Reading(body).page.out)
  {
    var w := new Walker(Codes(body));
    w.WalkNodes(Emptied(body), false);
    w.Flush();
    items := w.items;
  }
}
