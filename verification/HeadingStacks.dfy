/** Heading paths as headings are met one after another (internal/domain/heading.go). */
module HeadingStacks {

  function Blanks(n: int): seq<string> {
    if n <= 0 then [] else Blanks(n - 1) + [""]
  }

  /** How much of a path a push keeps: what is above its level, a level below 1 counting from the innermost. */
  function Cut(path: seq<string>, level: int): (n: nat)
    ensures n <= |path|
  {
    var cut := if level - 1 >= 0 then level - 1 else if |path| + level - 1 > 0 then |path| + level - 1 else 0;
    if cut < |path| then cut else |path|
  }

  /** A path with a heading put at a level; "" fills the levels between. */
  function Pushed(path: seq<string>, level: int, heading: string): seq<string> {
    path[..Cut(path, level)] + Blanks(level - 1 - Cut(path, level)) + [heading]
  }

  class HeadingStack {
    var path: seq<string>

    constructor ()
      ensures path == []
    {
      path := [];
    }

    /** The field becomes what Pushed says, by truncating, padding and appending. */
    method Push(level: int, heading: string)
      modifies this
      ensures path == Pushed(old(path), level, heading)
    {
      var cut := level - 1;
      if cut < 0 {
        cut := if |path| + cut > 0 then |path| + cut else 0;
      }
      if cut < |path| {
        path := path[..cut];
      }
      ghost var kept := path;
      assert kept == old(path)[..Cut(old(path), level)];
      ghost var n := 0;
      while |path| < level - 1
        invariant n >= 0 && path == kept + Blanks(n) && |Blanks(n)| == n && (n == 0 || |path| <= level - 1)
        decreases level - |path|
      {
        path := path + [""];
        n := n + 1;
      }
      BlanksLength(level - 1 - |kept|);
      assert n == 0 ==> Blanks(level - 1 - |kept|) == [];
      path := path + [heading];
    }
  }

  lemma {:induction false} BlanksLength(n: int)
    ensures |Blanks(n)| == (if n < 0 then 0 else n) && forall i :: 0 <= i < |Blanks(n)| ==> Blanks(n)[i] == ""
  {
    if n > 0 {
      BlanksLength(n - 1);
    }
  }

  // -------------------------------------------------------------------- what a path means

  datatype Heading = Heading(level: int, text: string)

  /** The path after the first n headings. */
  function PathAfter(headings: seq<Heading>, n: nat): seq<string>
    requires n <= |headings|
  {
    if n == 0 then [] else Pushed(PathAfter(headings, n - 1), headings[n - 1].level, headings[n - 1].text)
  }

  /** Where the last of the first n headings stands: at its level, or, for one below 1, as far from the innermost. */
  function Depth(headings: seq<Heading>, n: nat): (d: nat)
    requires n <= |headings|
    ensures n > 0 ==> d >= 1
  {
    if n == 0 then 0
    else if headings[n - 1].level >= 1 then headings[n - 1].level
    else if Depth(headings, n - 1) + headings[n - 1].level >= 1 then Depth(headings, n - 1) + headings[n - 1].level
    else 1
  }

  /** Of the first n headings, the text of the last at or above a depth, if it is at that depth; "" if it is above. */
  function EntryAt(headings: seq<Heading>, n: nat, depth: nat): string
    requires n <= |headings|
  {
    if n == 0 || Depth(headings, n) < depth then ""
    else if Depth(headings, n) == depth then headings[n - 1].text
    else EntryAt(headings, n - 1, depth)
  }

  lemma PushedAt(path: seq<string>, level: int, heading: string, i: nat)
    requires i <= Cut(path, level) || i < level
    ensures |Pushed(path, level, heading)| == if level >= 1 then level else Cut(path, level) + 1
    ensures i < |Pushed(path, level, heading)|
    ensures Pushed(path, level, heading)[i] ==
            if i == |Pushed(path, level, heading)| - 1 then heading else if i < |path| then path[i] else ""
  {
    BlanksLength(level - 1 - Cut(path, level));
  }

  /**
   The path is as long as the last heading is deep, and its entry for a depth is the
   nearest heading before at that depth, unless a heading above it came since.
   */
  lemma {:induction false} PathMeans(headings: seq<Heading>, n: nat, i: nat)
    requires n <= |headings|
    ensures |PathAfter(headings, n)| == Depth(headings, n)
    ensures i < |PathAfter(headings, n)| ==> PathAfter(headings, n)[i] == EntryAt(headings, n, i + 1)
  {
    if n > 0 {
      PathMeans(headings, n - 1, i);
      var before, h := PathAfter(headings, n - 1), headings[n - 1];
      PushedAt(before, h.level, h.text, Cut(before, h.level));
      if i < Depth(headings, n) {
        PushedAt(before, h.level, h.text, i);
      }
    }
  }
}
