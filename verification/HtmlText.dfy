/**
 What the items and headings of an HTML document show of its text. The walker of Html
 records text nodes with its outputs; here the texts it shows are compared with the
 text of the tree itself.
 */
module HtmlText {
  import opened Sequences
  import opened Text
  import opened HeadingStacks
  import opened Html

  // ----------------------------------------------------------------- characters in order

  /** The characters of a occur in b, in order. */
  predicate Within(a: string, b: string) {
    a == "" || (b != "" && ((a[0] == b[0] && Within(a[1..], b[1..])) || Within(a, b[1..])))
  }

  lemma {:induction false} WithinAfter(a: string, before: string, b: string)
    requires Within(a, b)
    ensures Within(a, before + b)
  {
    if before == "" {
      assert before + b == b;
    } else {
      assert (before + b)[1..] == before[1..] + b;
      WithinAfter(a, before[1..], b);
    }
  }

  lemma {:induction false} WithinConcat(a: string, b: string, c: string, d: string)
    requires Within(a, b) && Within(c, d)
    ensures Within(a + c, b + d)
    decreases |b|
  {
    if a == "" {
      assert a + c == c;
      WithinAfter(c, b, d);
    } else {
      assert (b + d)[1..] == b[1..] + d;
      if a[0] == b[0] && Within(a[1..], b[1..]) {
        assert (a + c)[1..] == a[1..] + c;
        WithinConcat(a[1..], b[1..], c, d);
      } else {
        WithinConcat(a, b[1..], c, d);
      }
    }
  }

  lemma {:induction false} WithinItself(a: string)
    ensures Within(a, a)
  {
    if a != "" {
      WithinItself(a[1..]);
    }
  }

  /** The characters that leave a mark: no whitespace, and none that takes no space. */
  function Ink(s: string): string {
    if s == "" then "" else (if IsSpace(s[0]) || IsZeroWidth(s[0]) then "" else [s[0]]) + Ink(s[1..])
  }

  function InkAll(parts: seq<string>): string {
    if parts == [] then "" else InkAll(parts[..|parts| - 1]) + Ink(parts[|parts| - 1])
  }

  lemma {:induction false} InkConcat(a: string, b: string)
    ensures Ink(a + b) == Ink(a) + Ink(b)
  {
    if a == "" {
      assert a + b == b;
    } else {
      assert (a + b)[1..] == a[1..] + b;
      InkConcat(a[1..], b);
    }
  }

  lemma {:induction false} InkAllConcat(a: seq<string>, b: seq<string>)
    ensures InkAll(a + b) == InkAll(a) + InkAll(b)
    decreases |b|
  {
    if b == [] {
      assert a + b == a;
    } else {
      var init, last := b[..|b| - 1], b[|b| - 1];
      assert (a + b)[..|a + b| - 1] == a + init && (a + b)[|a + b| - 1] == last;
      InkAllConcat(a, init);
      Assoc(InkAll(a), InkAll(init), Ink(last));
    }
  }

  lemma {:induction false} InkOfSolid(s: string)
    ensures Ink(Solid(s)) == Ink(s)
  {
    if s != "" {
      InkOfSolid(s[1..]);
      if IsSpace(s[0]) {
        assert Solid(s) == Solid(s[1..]) && Ink(s) == Ink(s[1..]);
      } else {
        assert ([s[0]] + Solid(s[1..]))[1..] == Solid(s[1..]);
      }
    }
  }

  lemma {:induction false} InkOfSolidAll(parts: seq<string>)
    ensures Ink(SolidAll(parts)) == InkAll(parts)
  {
    if parts != [] {
      var init, last := parts[..|parts| - 1], parts[|parts| - 1];
      InkOfSolidAll(init);
      InkOfSolid(last);
      SolidAllLast(init, last);
      InkConcat(SolidAll(init), Solid(last));
      assert init + [last] == parts;
    }
  }

  lemma SolidAllLast(parts: seq<string>, last: string)
    ensures SolidAll(parts + [last]) == SolidAll(parts) + Solid(last)
  {
    SolidAllConcat(parts, [last]);
    assert SolidAll([last]) == Solid(last) + SolidAll([last][1..]);
  }

  // ------------------------------------------------------------------- text nodes and parts

  /** A text node that is not blank and holds only characters that take no space. */
  predicate Faint(data: string) {
    Strip(data) != "" && ProseString(data) == ""
  }

  predicate NoneFaint(ns: Nodes) {
    match ns
    case End => true
    case TextNode(data, next) => !Faint(data) && NoneFaint(next)
    case Element(_, _, children, next) => NoneFaint(children) && NoneFaint(next)
    case Comment(next) => NoneFaint(next)
  }

  lemma {:induction false} NoInk(s: string)
    requires forall i :: 0 <= i < |s| ==> IsZeroWidth(s[i])
    ensures Ink(s) == ""
  {
    if s != "" {
      NoInk(s[1..]);
    }
  }

  /** A text node's prose is all it has in ink, and all it shows unless it is faint. */
  lemma NodeShows(data: string)
    ensures Within(Solid(ProseString(data)), Solid(data)) && Ink(ProseString(data)) == Ink(data)
    ensures !Faint(data) ==> Solid(ProseString(data)) == Solid(data)
  {
    StripKeepsSolid(data);
    InkOfSolid(data);
    InkOfSolid(Strip(data));
    if ProseString(data) == "" {
      NoInk(Strip(data));
    } else {
      WithinItself(Solid(data));
    }
  }

  /** The kept text nodes of a tree, against all its text. */
  ghost predicate PartsShow(parts: seq<string>, text: string, exact: bool) {
    && Within(SolidAll(parts), Solid(text))
    && InkAll(parts) == Ink(text)
    && (exact ==> SolidAll(parts) == Solid(text))
  }

  lemma PartsShowBoth(a: seq<string>, s: string, b: seq<string>, t: string, exact: bool)
    requires PartsShow(a, s, exact) && PartsShow(b, t, exact)
    ensures PartsShow(a + b, s + t, exact)
  {
    SolidAllConcat(a, b);
    SolidConcat(s, t);
    InkAllConcat(a, b);
    InkConcat(s, t);
    WithinConcat(SolidAll(a), Solid(s), SolidAll(b), Solid(t));
  }

  lemma PartsShowNode(data: string, exact: bool)
    requires exact ==> !Faint(data)
    ensures PartsShow(if ProseString(data) != "" then [ProseString(data)] else [], data, exact)
  {
    NodeShows(data);
    var s := ProseString(data);
    assert SolidAll([s]) == Solid(s) + SolidAll([s][1..]) == Solid(s);
    assert InkAll([s]) == InkAll([s][..0]) + Ink(s) == Ink(s);
  }

  /** Every character of the kept text nodes is in the tree's text, in order, and nothing inked is elsewhere. */
  lemma {:induction false} PartsWithin(ns: Nodes, exact: bool)
    requires exact ==> NoneFaint(ns)
    ensures PartsShow(ProseParts(ns), AllText(ns), exact)
  {
    match ns
    case End =>
    case TextNode(data, next) =>
      PartsShowNode(data, exact);
      PartsWithin(next, exact);
      PartsShowBoth(if ProseString(data) != "" then [ProseString(data)] else [], data, ProseParts(next), AllText(next), exact);
    case Element(_, _, children, next) =>
      PartsWithin(children, exact);
      PartsWithin(next, exact);
      PartsShowBoth(ProseParts(children), AllText(children), ProseParts(next), AllText(next), exact);
    case Comment(next) =>
      PartsWithin(next, exact);
  }

  /** A spanning code element's item holds the text nodes recorded for it. */
  lemma SpanShowsParts(children: Nodes, exact: bool)
    requires exact ==> NoneFaint(children)
    ensures PartsShow(ProseParts(children), CodeText(AllText(children)), exact)
  {
    PartsWithin(children, exact);
    CodeKeepsSolid(AllText(children));
    InkOfSolid(AllText(children));
    InkOfSolid(CodeText(AllText(children)));
  }

  /** Joined parts show just themselves. */
  lemma JoinShowsParts(parts: seq<string>, exact: bool)
    ensures PartsShow(parts, Join(parts, " "), exact)
  {
    JoinKeepsSolid(parts, " ");
    WithinItself(SolidAll(parts));
    InkOfSolidAll(parts);
    InkOfSolid(Join(parts, " "));
  }

  // ------------------------------------------------------------------- outputs are honest

  /** An output shows the text nodes recorded with it, and a heading is at level 1 or below. */
  ghost predicate Honest(o: Output, exact: bool) {
    match o
    case Prose(_) => true
    case Title(level, _, _) => level >= 1
    case Sample(_) => true
    case Span(text, parts) => PartsShow(parts, text, exact)
  }

  ghost predicate AllHonest(out: seq<Output>, exact: bool) {
    forall i :: 0 <= i < |out| ==> Honest(out[i], exact)
  }

  lemma FlushHonest(p: Page, exact: bool)
    requires AllHonest(p.out, exact)
    ensures AllHonest(Flushed(p).out, exact)
  {
  }

  lemma PutHonest(p: Page, o: Output, exact: bool)
    requires AllHonest(p.out, exact) && Honest(o, exact)
    ensures AllHonest(Put(Flushed(p), o).out, exact)
  {
    FlushHonest(p, exact);
  }

  lemma {:induction false} WalkHonest(s: State, ns: Nodes, read: bool, exact: bool)
    requires AllHonest(s.page.out, exact) && (exact ==> NoneFaint(ns))
    ensures AllHonest(Walk(s, ns, read).page.out, exact)
    decreases ns, 0
  {
    match ns
    case End =>
    case TextNode(data, next) =>
      WalkHonest(s.(page := WithText(s.page, data, read)), next, read, exact);
    case Comment(next) =>
      WalkHonest(s, next, read, exact);
    case Element(tag, asP, children, next) =>
      var role := RoleOf(tag, asP, children, read);
      VisitHonest(s, role, children, read, exact);
      WalkHonest(Visit(s, role, children, read), next, read, exact);
  }

  lemma {:induction false} VisitHonest(s: State, role: Role, children: Nodes, read: bool, exact: bool)
    requires AllHonest(s.page.out, exact) && (role.Heads? ==> role.level >= 1) && (exact ==> NoneFaint(children))
    ensures AllHonest(Visit(s, role, children, read).page.out, exact)
    decreases children, 1
  {
    var parts := ProseParts(children);
    FlushHonest(s.page, exact);
    match role
    case Pre =>
      if s.codes != [] {
        PutHonest(s.page, Sample(s.codes[0]), exact);
      }
    case Heads(level) =>
      PutHonest(s.page, Title(level, parts, !read), exact);
      WalkHonest(s.(page := Headed(s.page, level, children, read)), children, true, exact);
    case Block =>
      PutHonest(s.page, Prose(parts), exact);
      WalkHonest(s.(page := Blocked(s.page, children, read)), children, true, exact);
    case Spanning =>
      SpanShowsParts(children, exact);
      PutHonest(s.page, Span(CodeText(AllText(children)), parts), exact);
    case Inline =>
      WalkHonest(s, children, read, exact);
    case Boundary =>
      WalkHonest(Ended(s), children, read, exact);
      FlushHonest(Walk(Ended(s), children, read).page, exact);
  }

  lemma {:induction false} EmptiedFaint(ns: Nodes)
    requires NoneFaint(ns)
    ensures NoneFaint(Emptied(ns))
  {
    match ns
    case End =>
    case TextNode(_, next) => EmptiedFaint(next);
    case Element(_, _, children, next) =>
      EmptiedFaint(children);
      EmptiedFaint(next);
    case Comment(next) => EmptiedFaint(next);
  }

  lemma ReadingHonest(ns: Nodes, exact: bool)
    requires exact ==> NoneFaint(ns)
    ensures AllHonest(Reading(ns).page.out, exact)
  {
    if exact {
      EmptiedFaint(ns);
    }
    var s := State(BLANK, Codes(ns));
    WalkHonest(s, Emptied(ns), false, exact);
    FlushHonest(Walk(s, Emptied(ns), false).page, exact);
  }

  // --------------------------------------------------------------------- what is shown

  /** The text an output shows for its own text nodes: an item's, or a heading's as it is pushed. */
  function Tale(o: Output): string {
    match o
    case Prose(_) => Shows(o)
    case Title(_, parts, only) => if only then Join(parts, " ") else ""
    case Sample(_) => ""
    case Span(_, _) => Shows(o)
  }

  function TaleOf(out: seq<Output>): string {
    if out == [] then "" else TaleOf(out[..|out| - 1]) + Tale(out[|out| - 1])
  }

  lemma OutputShows(o: Output, exact: bool)
    requires Honest(o, exact)
    ensures PartsShow(PartsIn(o), Tale(o), exact)
  {
    match o
    case Prose(parts) => JoinShowsParts(parts, exact);
    case Title(_, parts, _) => JoinShowsParts(parts, exact);
    case Sample(_) =>
    case Span(_, _) =>
  }

  lemma {:induction false} OutputsShow(out: seq<Output>, exact: bool)
    requires AllHonest(out, exact)
    ensures PartsShow(PartsOf(out), TaleOf(out), exact)
  {
    if out != [] {
      var init, o := out[..|out| - 1], out[|out| - 1];
      OutputsShow(init, exact);
      OutputShows(o, exact);
      PartsShowBoth(PartsOf(init), TaleOf(init), PartsIn(o), Tale(o), exact);
    }
  }

  /**
   What the items and the headings of their own show, in order, is the text of the
   tree: every character of the kept text nodes, nothing inked besides, and exactly the
   visible text when no text node is faint.
   */
  lemma ReadingShowsAll(ns: Nodes, exact: bool)
    requires exact ==> NoneFaint(ns)
    ensures var shown := TaleOf(Reading(ns).page.out);
            && Within(SolidAll(ProseParts(Emptied(ns))), Solid(shown))
            && Ink(shown) == Ink(AllText(Emptied(ns)))
            && (exact ==> Solid(shown) == Solid(AllText(Emptied(ns))))
  {
    ReadingTellsAll(ns);
    ReadingHonest(ns, exact);
    OutputsShow(Reading(ns).page.out, exact);
    if exact {
      EmptiedFaint(ns);
    }
    PartsWithin(Emptied(ns), exact);
  }

  // ------------------------------------------------------------- headings of their own

  /** The text nodes under headings that no block or heading holds. */
  function HeadingParts(ns: Nodes, read: bool): seq<string>
    decreases ns, 0
  {
    match ns
    case End => []
    case TextNode(_, next) => HeadingParts(next, read)
    case Comment(next) => HeadingParts(next, read)
    case Element(tag, asP, children, next) =>
      HeadingPartsIn(RoleOf(tag, asP, children, read), children, read) + HeadingParts(next, read)
  }

  function HeadingPartsIn(role: Role, children: Nodes, read: bool): seq<string>
    decreases children, 1
  {
    match role
    case Pre => []
    case Heads(_) => if read then [] else ProseParts(children)
    case Block => []
    case Spanning => []
    case Inline => HeadingParts(children, read)
    case Boundary => HeadingParts(children, read)
  }

  function TitleParts(out: seq<Output>): seq<string> {
    if out == [] then []
    else TitleParts(out[..|out| - 1]) + if out[|out| - 1].Title? then PartsIn(out[|out| - 1]) else []
  }

  /** The text nodes recorded with items. */
  function ItemParts(out: seq<Output>): seq<string> {
    if out == [] then []
    else ItemParts(out[..|out| - 1]) + if out[|out| - 1].Title? then [] else PartsIn(out[|out| - 1])
  }

  lemma FlushTitles(p: Page)
    ensures TitleParts(Flushed(p).out) == TitleParts(p.out)
  {
    if p.run != [] {
      PutTitles(p, Prose(p.run));
    }
  }

  lemma PutTitles(p: Page, o: Output)
    ensures TitleParts(Put(p, o).out) == TitleParts(p.out) + if o.Title? then PartsIn(o) else []
  {
    assert (p.out + [o])[..|p.out|] == p.out;
  }

  lemma FlushPutTitles(p: Page, o: Output)
    ensures TitleParts(Put(Flushed(p), o).out) == TitleParts(p.out) + if o.Title? then PartsIn(o) else []
  {
    FlushTitles(p);
    PutTitles(Flushed(p), o);
  }

  /** Under what is read no heading is one of its own. */
  lemma {:induction false} NoneUnderRead(ns: Nodes)
    ensures HeadingParts(ns, true) == []
    decreases ns
  {
    match ns
    case End =>
    case TextNode(_, next) => NoneUnderRead(next);
    case Comment(next) => NoneUnderRead(next);
    case Element(_, _, children, next) =>
      NoneUnderRead(children);
      NoneUnderRead(next);
  }

  lemma {:induction false} WalkTitles(s: State, ns: Nodes, read: bool)
    ensures TitleParts(Walk(s, ns, read).page.out) == TitleParts(s.page.out) + HeadingParts(ns, read)
    decreases ns, 0
  {
    match ns
    case End =>
    case TextNode(data, next) =>
      WalkTitles(s.(page := WithText(s.page, data, read)), next, read);
    case Comment(next) =>
      WalkTitles(s, next, read);
    case Element(tag, asP, children, next) =>
      var role := RoleOf(tag, asP, children, read);
      VisitTitles(s, role, children, read);
      WalkTitles(Visit(s, role, children, read), next, read);
      Regroup(TitleParts(s.page.out), HeadingPartsIn(role, children, read), HeadingParts(next, read));
  }

  lemma {:induction false} VisitTitles(s: State, role: Role, children: Nodes, read: bool)
    ensures TitleParts(Visit(s, role, children, read).page.out) == TitleParts(s.page.out) + HeadingPartsIn(role, children, read)
    decreases children, 1
  {
    FlushTitles(s.page);
    match role
    case Pre =>
      if s.codes != [] {
        FlushPutTitles(s.page, Sample(s.codes[0]));
      }
    case Heads(level) =>
      HeadedTitles(s.page, level, children, read);
      NoneUnderRead(children);
      WalkTitles(s.(page := Headed(s.page, level, children, read)), children, true);
    case Block =>
      BlockedTitles(s.page, children, read);
      NoneUnderRead(children);
      WalkTitles(s.(page := Blocked(s.page, children, read)), children, true);
    case Spanning =>
      SpanTitles(s.page, CodeText(AllText(children)), ProseParts(children));
    case Inline =>
      WalkTitles(s, children, read);
    case Boundary =>
      WalkTitles(Ended(s), children, read);
      FlushTitles(Walk(Ended(s), children, read).page);
  }

  lemma HeadedTitles(p: Page, level: nat, children: Nodes, read: bool)
    ensures TitleParts(Headed(p, level, children, read).out) == TitleParts(p.out) + if read then [] else ProseParts(children)
  {
    FlushPutTitles(p, Title(level, ProseParts(children), !read));
  }

  lemma BlockedTitles(p: Page, children: Nodes, read: bool)
    ensures TitleParts(Blocked(p, children, read).out) == TitleParts(p.out)
  {
    FlushTitles(p);
    FlushPutTitles(p, Prose(ProseParts(children)));
  }

  lemma SpanTitles(p: Page, text: string, parts: seq<string>)
    ensures TitleParts(Put(Flushed(p), Span(text, parts)).out) == TitleParts(p.out)
  {
    FlushPutTitles(p, Span(text, parts));
  }

  lemma ReadingTitles(ns: Nodes)
    ensures TitleParts(Reading(ns).page.out) == HeadingParts(Emptied(ns), false)
  {
    var s := State(BLANK, Codes(ns));
    WalkTitles(s, Emptied(ns), false);
    FlushTitles(Walk(s, Emptied(ns), false).page);
    Alone(HeadingParts(Emptied(ns), false));
  }

  lemma {:induction false} PartsSplit(out: seq<Output>)
    ensures |PartsOf(out)| == |ItemParts(out)| + |TitleParts(out)|
    ensures TitleParts(out) == [] ==> ItemParts(out) == PartsOf(out)
  {
    if out != [] {
      PartsSplit(out[..|out| - 1]);
    }
  }

  /** Every kept text node reaches an item exactly when no heading of its own holds one. */
  lemma ItemsReachAll(ns: Nodes)
    ensures ItemParts(Reading(ns).page.out) == ProseParts(Emptied(ns)) <==> HeadingParts(Emptied(ns), false) == []
  {
    ReadingTellsAll(ns);
    ReadingTitles(ns);
    PartsSplit(Reading(ns).page.out);
  }

  function Lone(tag: string, data: string): Nodes {
    Element(tag, false, TextNode(data, End), End)
  }

  lemma LoneParts(tag: string, data: string)
    requires tag != "pre" && ProseString(data) != ""
    ensures Emptied(Lone(tag, data)) == Lone(tag, data) && Codes(Lone(tag, data)) == []
    ensures ProseParts(Lone(tag, data)) == [ProseString(data)] == ProseParts(TextNode(data, End))
  {
  }

  lemma LoneWalk(level: nat, data: string)
    requires ProseString(data) != ""
    ensures Visit(State(BLANK, []), Heads(level), TextNode(data, End), false) ==
            State(Page([Title(level, [ProseString(data)], true)], []), [])
  {
    var inside, p := TextNode(data, End), Page([Title(level, [ProseString(data)], true)], []);
    assert ProseParts(inside) == [ProseString(data)] + ProseParts(End) == [ProseString(data)];
    assert Headed(BLANK, level, inside, false) == p;
    assert Walk(State(p, []), inside, true) == Walk(State(p, []), End, true) == State(p, []);
  }

  lemma NoItem(title: Output)
    requires title.Title?
    ensures ItemsOf([title]) == []
  {
    assert [title][..0] == [];
  }

  /** A document of one heading that holds text has one title and no item. */
  lemma LoneHeading(tag: string, data: string)
    requires HeadingLevel(tag) > 0 && ProseString(data) != ""
    ensures Reading(Lone(tag, data)).page.out == [Title(HeadingLevel(tag), [ProseString(data)], true)]
    ensures ItemsOf(Reading(Lone(tag, data)).page.out) == []
  {
    var level := HeadingLevel(tag);
    var title := Title(level, [ProseString(data)], true);
    LoneParts(tag, data);
    LoneWalk(level, data);
    NoItem(title);
    assert RoleOf(tag, false, TextNode(data, End), false) == Heads(level);
    assert Walk(State(BLANK, []), Lone(tag, data), false) == State(Page([title], []), []);
  }

  lemma ProseOfX()
    ensures ProseString("x") == "x"
  {
    assert Strip("x") == "x" && !IsZeroWidth("x"[0]);
  }

  /** The text of an h1 that holds x is kept, and reaches no item. */
  lemma HeadingReachesNoItem() returns (ns: Nodes)
    ensures ProseParts(Emptied(ns)) == ["x"] && ItemsOf(Reading(ns).page.out) == []
    ensures ItemParts(Reading(ns).page.out) != ProseParts(Emptied(ns))
  {
    ProseOfX();
    ns := Lone("h1", "x");
    LoneParts("h1", "x");
    LoneHeading("h1", "x");
  }

  // ---------------------------------------------------------------- items, all together

  function ItemTexts(items: seq<Item>): seq<string> {
    if items == [] then [] else ItemTexts(items[..|items| - 1]) + [items[|items| - 1].text]
  }

  lemma ItemTextsSnoc(items: seq<Item>, item: Item)
    ensures ItemTexts(items + [item]) == ItemTexts(items) + [item.text]
  {
    assert (items + [item])[..|items|] == items;
  }

  lemma InkAllSnoc(parts: seq<string>, last: string)
    ensures InkAll(parts + [last]) == InkAll(parts) + Ink(last)
  {
    assert (parts + [last])[..|parts|] == parts;
  }

  /** What the items show, an output at a time. */
  lemma ItemsInk(out: seq<Output>, o: Output)
    ensures InkAll(ItemTexts(ItemsOf(out + [o]))) == InkAll(ItemTexts(ItemsOf(out))) + Ink(Shows(o))
  {
    OutSnoc(out, o);
    if Shows(o) == "" {
      assert ItemsOf(out) + [] == ItemsOf(out);
    } else {
      ItemTextsSnoc(ItemsOf(out), Item(Shows(o), PathOf(out)));
      InkAllSnoc(ItemTexts(ItemsOf(out)), Shows(o));
    }
  }

  /** Ink as a bag: how often each inked character occurs. */
  function Bag(s: string): multiset<char> {
    multiset(Ink(s))
  }

  function BagAll(parts: seq<string>): multiset<char> {
    multiset(InkAll(parts))
  }

  lemma JoinInk(parts: seq<string>)
    ensures Ink(Join(parts, " ")) == InkAll(parts)
  {
    JoinShowsParts(parts, false);
  }

  /** One output's share of each. */
  lemma BalancedOne(o: Output)
    ensures Bag(Shows(o)) + BagAll(TitlesOf(o)) == Bag(Tale(o)) + BagAll(SampleOf(o))
  {
    match o
    case Prose(_) =>
    case Title(_, parts, _) => JoinInk(parts);
    case Sample(text) => InkAllSnoc([], text); assert [] + [text] == [text];
    case Span(_, _) =>
  }

  lemma BagConcat(a: string, b: string)
    ensures Bag(a + b) == Bag(a) + Bag(b)
  {
    InkConcat(a, b);
  }

  lemma BagAllConcat(a: seq<string>, b: seq<string>)
    ensures BagAll(a + b) == BagAll(a) + BagAll(b)
  {
    InkAllConcat(a, b);
  }

  function TitlesOf(o: Output): seq<string> {
    if o.Title? then PartsIn(o) else []
  }

  function SampleOf(o: Output): seq<string> {
    if o.Sample? then [o.text] else []
  }

  /** The first n bags together. */
  function Sum(bags: seq<multiset<char>>, n: nat): multiset<char>
    requires n <= |bags|
  {
    if n == 0 then multiset{} else Sum(bags, n - 1) + bags[n - 1]
  }

  lemma Rebalance(a: multiset<char>, b: multiset<char>, c: multiset<char>, d: multiset<char>,
                  a1: multiset<char>, b1: multiset<char>, c1: multiset<char>, d1: multiset<char>)
    requires a + b == c + d && a1 + b1 == c1 + d1
    ensures (a + a1) + (b + b1) == (c + c1) + (d + d1)
  {
    assert (a + a1) + (b + b1) == (a + b) + (a1 + b1);
    assert (c + c1) + (d + d1) == (c + d) + (c1 + d1);
  }

  lemma {:induction false} SumsBalance(a: seq<multiset<char>>, b: seq<multiset<char>>, c: seq<multiset<char>>, d: seq<multiset<char>>, n: nat)
    requires n <= |a| == |b| == |c| == |d| && forall i :: 0 <= i < |a| ==> a[i] + b[i] == c[i] + d[i]
    ensures Sum(a, n) + Sum(b, n) == Sum(c, n) + Sum(d, n)
  {
    if n > 0 {
      var k := n - 1;
      SumsBalance(a, b, c, d, k);
      Rebalance(Sum(a, k), Sum(b, k), Sum(c, k), Sum(d, k), a[k], b[k], c[k], d[k]);
    }
  }

  /** What each output shows as an item and as a heading, and what it tells and samples. */
  function ItemBags(out: seq<Output>): seq<multiset<char>> {
    seq(|out|, i requires 0 <= i < |out| => Bag(Shows(out[i])))
  }

  function TitleBags(out: seq<Output>): seq<multiset<char>> {
    seq(|out|, i requires 0 <= i < |out| => BagAll(TitlesOf(out[i])))
  }

  function TaleBags(out: seq<Output>): seq<multiset<char>> {
    seq(|out|, i requires 0 <= i < |out| => Bag(Tale(out[i])))
  }

  function SampleBags(out: seq<Output>): seq<multiset<char>> {
    seq(|out|, i requires 0 <= i < |out| => BagAll(SampleOf(out[i])))
  }

  /** Items and headings together show what is told and sampled. */
  lemma BagsBalance(out: seq<Output>)
    ensures Sum(ItemBags(out), |out|) + Sum(TitleBags(out), |out|) == Sum(TaleBags(out), |out|) + Sum(SampleBags(out), |out|)
  {
    forall i | 0 <= i < |out|
      ensures ItemBags(out)[i] + TitleBags(out)[i] == TaleBags(out)[i] + SampleBags(out)[i]
    {
      BalancedOne(out[i]);
    }
    SumsBalance(ItemBags(out), TitleBags(out), TaleBags(out), SampleBags(out), |out|);
  }

  lemma Upto(out: seq<Output>, n: nat)
    requires n < |out|
    ensures out[..n + 1] == out[..n] + [out[n]] && out[..n + 1][..n] == out[..n]
  {
  }

  /** Totals that grow by the bags, one after the other, are their sums. */
  lemma {:induction false} SumIs(bags: seq<multiset<char>>, totals: seq<multiset<char>>, n: nat)
    requires |totals| == |bags| + 1 && n <= |bags| && totals[0] == multiset{}
    requires forall i :: 0 <= i < |bags| ==> totals[i + 1] == totals[i] + bags[i]
    ensures Sum(bags, n) == totals[n]
  {
    if n > 0 {
      SumIs(bags, totals, n - 1);
      assert totals[n - 1 + 1] == totals[n - 1] + bags[n - 1];
    }
  }

  lemma ItemBagStep(out: seq<Output>, n: nat)
    requires n < |out|
    ensures BagAll(ItemTexts(ItemsOf(out[..n + 1]))) == BagAll(ItemTexts(ItemsOf(out[..n]))) + Bag(Shows(out[n]))
  {
    Upto(out, n);
    ItemsInk(out[..n], out[n]);
  }

  lemma ItemBagIs(out: seq<Output>)
    ensures Sum(ItemBags(out), |out|) == BagAll(ItemTexts(ItemsOf(out)))
  {
    var totals := seq(|out| + 1, n requires 0 <= n <= |out| => BagAll(ItemTexts(ItemsOf(out[..n]))));
    forall i | 0 <= i < |out|
      ensures totals[i + 1] == totals[i] + ItemBags(out)[i]
    {
      ItemBagStep(out, i);
    }
    assert out[..0] == [] && out[..|out|] == out;
    SumIs(ItemBags(out), totals, |out|);
  }

  lemma TitlePartsSnoc(out: seq<Output>, o: Output)
    ensures TitleParts(out + [o]) == TitleParts(out) + TitlesOf(o)
  {
    assert (out + [o])[..|out|] == out;
  }

  lemma TitleBagStep(out: seq<Output>, n: nat)
    requires n < |out|
    ensures BagAll(TitleParts(out[..n + 1])) == BagAll(TitleParts(out[..n])) + BagAll(TitlesOf(out[n]))
  {
    Upto(out, n);
    TitlePartsSnoc(out[..n], out[n]);
    BagAllConcat(TitleParts(out[..n]), TitlesOf(out[n]));
  }

  lemma TitleBagIs(out: seq<Output>)
    ensures Sum(TitleBags(out), |out|) == BagAll(TitleParts(out))
  {
    var totals := seq(|out| + 1, n requires 0 <= n <= |out| => BagAll(TitleParts(out[..n])));
    forall i | 0 <= i < |out|
      ensures totals[i + 1] == totals[i] + TitleBags(out)[i]
    {
      TitleBagStep(out, i);
    }
    assert out[..0] == [] && out[..|out|] == out;
    SumIs(TitleBags(out), totals, |out|);
  }

  lemma TaleSnoc(out: seq<Output>, o: Output)
    ensures TaleOf(out + [o]) == TaleOf(out) + Tale(o)
  {
    assert (out + [o])[..|out|] == out;
  }

  lemma TaleBagStep(out: seq<Output>, n: nat)
    requires n < |out|
    ensures Bag(TaleOf(out[..n + 1])) == Bag(TaleOf(out[..n])) + Bag(Tale(out[n]))
  {
    Upto(out, n);
    TaleSnoc(out[..n], out[n]);
    BagConcat(TaleOf(out[..n]), Tale(out[n]));
  }

  lemma TaleBagIs(out: seq<Output>)
    ensures Sum(TaleBags(out), |out|) == Bag(TaleOf(out))
  {
    var totals := seq(|out| + 1, n requires 0 <= n <= |out| => Bag(TaleOf(out[..n])));
    forall i | 0 <= i < |out|
      ensures totals[i + 1] == totals[i] + TaleBags(out)[i]
    {
      TaleBagStep(out, i);
    }
    assert out[..0] == [] && out[..|out|] == out;
    SumIs(TaleBags(out), totals, |out|);
  }

  lemma SamplesSnoc(out: seq<Output>, o: Output)
    ensures SamplesOf(out + [o]) == SamplesOf(out) + SampleOf(o)
  {
    assert (out + [o])[..|out|] == out;
  }

  lemma SampleBagStep(out: seq<Output>, n: nat)
    requires n < |out|
    ensures BagAll(SamplesOf(out[..n + 1])) == BagAll(SamplesOf(out[..n])) + BagAll(SampleOf(out[n]))
  {
    Upto(out, n);
    SamplesSnoc(out[..n], out[n]);
    BagAllConcat(SamplesOf(out[..n]), SampleOf(out[n]));
  }

  lemma SampleBagIs(out: seq<Output>)
    ensures Sum(SampleBags(out), |out|) == BagAll(SamplesOf(out))
  {
    var totals := seq(|out| + 1, n requires 0 <= n <= |out| => BagAll(SamplesOf(out[..n])));
    forall i | 0 <= i < |out|
      ensures totals[i + 1] == totals[i] + SampleBags(out)[i]
    {
      SampleBagStep(out, i);
    }
    assert out[..0] == [] && out[..|out|] == out;
    SumIs(SampleBags(out), totals, |out|);
  }

  lemma OutputsBalance(out: seq<Output>)
    ensures BagAll(ItemTexts(ItemsOf(out))) + BagAll(TitleParts(out)) == Bag(TaleOf(out)) + BagAll(SamplesOf(out))
  {
    BagsBalance(out);
    ItemBagIs(out);
    TitleBagIs(out);
    TaleBagIs(out);
    SampleBagIs(out);
  }

  /** A tree's text is that of its emptied form and of its samples. */
  lemma {:induction false} SamplesApart(ns: Nodes)
    ensures Bag(AllText(ns)) == Bag(AllText(Emptied(ns))) + BagAll(Codes(ns))
  {
    match ns
    case End =>
    case TextNode(data, next) =>
      SamplesApart(next);
      BagConcat(data, AllText(next));
      BagConcat(data, AllText(Emptied(next)));
    case Comment(next) =>
      SamplesApart(next);
    case Element(tag, asP, children, next) =>
      SamplesApart(next);
      if tag == "pre" {
        CodeInk(AllText(children));
        ApartBoth(AllText(children), "", [CodeText(AllText(children))], AllText(next), AllText(Emptied(next)), Codes(next));
      } else {
        SamplesApart(children);
        ApartBoth(AllText(children), AllText(Emptied(children)), Codes(children), AllText(next), AllText(Emptied(next)), Codes(next));
      }
  }

  lemma ApartBoth(s: string, bare: string, codes: seq<string>, s1: string, bare1: string, codes1: seq<string>)
    requires Bag(s) == Bag(bare) + BagAll(codes) && Bag(s1) == Bag(bare1) + BagAll(codes1)
    ensures Bag(s + s1) == Bag(bare + bare1) + BagAll(codes + codes1)
  {
    BagConcat(s, s1);
    BagConcat(bare, bare1);
    BagAllConcat(codes, codes1);
  }

  lemma CodeInk(text: string)
    ensures InkAll([CodeText(text)]) == Ink(text)
  {
    var code := CodeText(text);
    CodeKeepsSolid(text);
    InkOfSolid(text);
    InkOfSolid(code);
    InkAllSnoc([], code);
    assert [] + [code] == [code];
  }

  /**
   Conservation: the inked characters of all items, of the headings of their own and of
   the samples never met are, each as often, those of the whole tree.
   */
  lemma ItemsConserveText(ns: Nodes)
    ensures BagAll(ItemTexts(ItemsOf(Reading(ns).page.out))) + BagAll(HeadingParts(Emptied(ns), false)) + BagAll(Reading(ns).codes) ==
            Bag(AllText(ns))
  {
    var out := Reading(ns).page.out;
    OutputsBalance(out);
    ReadingTitles(ns);
    ReadingShowsAll(ns, false);
    SamplesInOrder(ns);
    BagAllConcat(SamplesOf(out), Reading(ns).codes);
    SamplesApart(ns);
  }

  // ------------------------------------------------------------------- heading paths

  /** The headings with text among the outputs. */
  function TitlesIn(out: seq<Output>): seq<Heading> {
    if out == [] then []
    else
      var o := out[|out| - 1];
      TitlesIn(out[..|out| - 1]) + if o.Title? && Join(o.parts, " ") != "" then [Heading(o.level, Join(o.parts, " "))] else []
  }

  lemma {:induction false} PathPrefix(headings: seq<Heading>, more: seq<Heading>, n: nat)
    requires n <= |headings|
    ensures PathAfter(headings + more, n) == PathAfter(headings, n)
  {
    if n > 0 {
      PathPrefix(headings, more, n - 1);
    }
  }

  lemma {:induction false} PathIsAfter(out: seq<Output>)
    ensures PathOf(out) == PathAfter(TitlesIn(out), |TitlesIn(out)|)
  {
    if out != [] {
      var init, o := out[..|out| - 1], out[|out| - 1];
      PathIsAfter(init);
      var more := if o.Title? && Join(o.parts, " ") != "" then [Heading(o.level, Join(o.parts, " "))] else [];
      PathPrefix(TitlesIn(init), more, |TitlesIn(init)|);
    }
  }

  /** An output that shows text makes the item after those of the outputs before it. */
  lemma {:induction false} ItemOfOutput(out: seq<Output>, j: nat)
    requires j < |out| && Shows(out[j]) != ""
    ensures var k := |ItemsOf(out[..j])|; k < |ItemsOf(out)| && ItemsOf(out)[k] == Item(Shows(out[j]), PathOf(out[..j]))
  {
    var init := out[..|out| - 1];
    if j < |init| {
      ItemOfOutput(init, j);
      assert init[..j] == out[..j];
    }
  }

  /**
   The heading path of the item an output makes: as long as the last heading before it is
   deep, with, for each depth, the nearest heading before at that depth unless one above
   it came since.
   */
  lemma ItemPathMeans(out: seq<Output>, j: nat)
    requires j < |out| && Shows(out[j]) != ""
    ensures |ItemsOf(out[..j])| < |ItemsOf(out)|
    ensures var item, titles := ItemsOf(out)[|ItemsOf(out[..j])|], TitlesIn(out[..j]);
            && item.text == Shows(out[j]) && |item.path| == Depth(titles, |titles|)
            && forall i :: 0 <= i < |item.path| ==> item.path[i] == EntryAt(titles, |titles|, i + 1)
  {
    ItemOfOutput(out, j);
    PathIsAfter(out[..j]);
    var titles := TitlesIn(out[..j]);
    PathMeans(titles, |titles|, 0);
    forall i | 0 <= i < |PathOf(out[..j])|
      ensures PathOf(out[..j])[i] == EntryAt(titles, |titles|, i + 1)
    {
      PathMeans(titles, |titles|, i);
    }
  }
}
