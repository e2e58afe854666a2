/**
 Strings as the ingest pipeline reads them: a sequence of code points, with the
 space and line-break tables of internal/pystr, Python's strip and splitlines,
 and the standard library's join and split.
 */
module Text {
  import opened Sequences

  datatype Option<+T> = None | Some(value: T)

  /** Whitespace, by the ranges of the source's table. */
  predicate IsSpace(c: char) {
    var r := c as int;
    || 0x09 <= r <= 0x0d || 0x1c <= r <= 0x20 || r == 0x85 || r == 0xa0 || r == 0x1680
    || 0x2000 <= r <= 0x200a || r == 0x2028 || r == 0x2029 || r == 0x202f || r == 0x205f || r == 0x3000
  }

  /** Line breaks, by the ranges of the source's table. */
  predicate IsLineBreak(c: char) {
    var r := c as int;
    0x0a <= r <= 0x0d || 0x1c <= r <= 0x1e || r == 0x85 || r == 0x2028 || r == 0x2029
  }

  predicate AllSpace(s: string) {
    forall i :: 0 <= i < |s| ==> IsSpace(s[i])
  }

  // ---------------------------------------------------------------- solid text

  /** The characters of s that are not whitespace, in order. */
  function Solid(s: string): string {
    if s == "" then ""
    else (if IsSpace(s[0]) then "" else [s[0]]) + Solid(s[1..])
  }

  lemma {:induction false} SolidConcat(a: string, b: string)
    ensures Solid(a + b) == Solid(a) + Solid(b)
  {
    if a == "" {
      assert a + b == b;
    } else {
      assert (a + b)[1..] == a[1..] + b;
      SolidConcat(a[1..], b);
    }
  }

  lemma {:induction false} SolidEmpty(s: string)
    ensures Solid(s) == "" <==> AllSpace(s)
  {
    if s != "" {
      SolidEmpty(s[1..]);
      assert AllSpace(s) <==> IsSpace(s[0]) && AllSpace(s[1..]) by {
        assert forall i :: 1 <= i < |s| ==> s[i] == s[1..][i - 1];
      }
    }
  }

  // --------------------------------------------------------------------- strip

  function TrimLeft(s: string): string {
    if s != "" && IsSpace(s[0]) then TrimLeft(s[1..]) else s
  }

  function TrimRight(s: string): string {
    if s != "" && IsSpace(s[|s| - 1]) then TrimRight(s[..|s| - 1]) else s
  }

  /** Python's str.strip(). */
  function Strip(s: string): string {
    TrimRight(TrimLeft(s))
  }

  lemma {:induction false} TrimLeftSplits(s: string) returns (a: string)
    ensures AllSpace(a) && s == a + TrimLeft(s)
    ensures TrimLeft(s) != "" ==> !IsSpace(TrimLeft(s)[0])
  {
    a := "";
    if s != "" && IsSpace(s[0]) {
      var rest := TrimLeftSplits(s[1..]);
      a := [s[0]] + rest;
      assert s == [s[0]] + s[1..];
    }
  }

  lemma TrimRightSpace(s: string, c: char)
    requires IsSpace(c)
    ensures TrimRight(s + [c]) == TrimRight(s)
  {
    Parts(s, [c]);
  }

  lemma {:induction false} TrimRightSplits(s: string) returns (b: string)
    ensures AllSpace(b) && s == TrimRight(s) + b
    ensures TrimRight(s) != "" ==> !IsSpace(TrimRight(s)[|TrimRight(s)| - 1])
  {
    if s != "" && IsSpace(s[|s| - 1]) {
      var init, last := s[..|s| - 1], s[|s| - 1];
      InitLast(s);
      TrimRightSpace(init, last);
      var rest := TrimRightSplits(init);
      b := rest + [last];
      Assoc(TrimRight(init), rest, [last]);
    } else {
      b := "";
    }
  }

  /** Strip cuts whitespace at both ends and nothing else, and leaves none there. */
  lemma StripSplits(s: string) returns (a: string, b: string)
    ensures AllSpace(a) && AllSpace(b) && s == a + Strip(s) + b
    ensures Strip(s) != "" ==> !IsSpace(Strip(s)[0]) && !IsSpace(Strip(s)[|Strip(s)| - 1])
  {
    a := TrimLeftSplits(s);
    b := TrimRightSplits(TrimLeft(s));
    assert Strip(s) != "" ==> Strip(s)[0] == TrimLeft(s)[0];
  }

  lemma StripKeepsSolid(s: string)
    ensures Solid(Strip(s)) == Solid(s)
    ensures Strip(s) == "" <==> Solid(s) == ""
  {
    var a, b := StripSplits(s);
    SolidConcat(a + Strip(s), b);
    SolidConcat(a, Strip(s));
    SolidEmpty(a);
    SolidEmpty(b);
    SolidEmpty(Strip(s));
  }

  // ------------------------------------------------------------- join and split

  function Join(parts: seq<string>, sep: string): string {
    if parts == [] then ""
    else if |parts| == 1 then parts[0]
    else parts[0] + sep + Join(parts[1..], sep)
  }

  /** The parts one after the other. */
  function Concat(parts: seq<string>): string {
    if parts == [] then "" else parts[0] + Concat(parts[1..])
  }

  function SolidAll(parts: seq<string>): string {
    if parts == [] then "" else Solid(parts[0]) + SolidAll(parts[1..])
  }

  lemma {:induction false} SolidAllConcat(a: seq<string>, b: seq<string>)
    ensures SolidAll(a + b) == SolidAll(a) + SolidAll(b)
  {
    if a == [] {
      assert a + b == b;
    } else {
      assert (a + b)[1..] == a[1..] + b;
      SolidAllConcat(a[1..], b);
    }
  }

  lemma {:induction false} JoinKeepsSolid(parts: seq<string>, sep: string)
    requires AllSpace(sep)
    ensures Solid(Join(parts, sep)) == SolidAll(parts)
  {
    if |parts| == 1 {
      assert SolidAll(parts) == Solid(parts[0]) + SolidAll(parts[1..]);
      assert SolidAll(parts[1..]) == "";
    } else if |parts| > 1 {
      JoinKeepsSolid(parts[1..], sep);
      SolidConcat(parts[0] + sep, Join(parts[1..], sep));
      SolidConcat(parts[0], sep);
      SolidEmpty(sep);
    }
  }

  /** sep stands in s at offset i. */
  predicate OccursAt(s: string, sep: string, i: int) {
    0 <= i <= |s| - |sep| && s[i..i + |sep|] == sep
  }

  predicate Occurs(s: string, sep: string) {
    exists i :: 0 <= i <= |s| - |sep| && OccursAt(s, sep, i)
  }

  /** The first offset from which sep stands in s, or |s| when it does nowhere. */
  function IndexFrom(s: string, sep: string, from: nat): (i: nat)
    requires from <= |s|
    ensures from <= i <= |s|
    ensures forall j :: from <= j < i ==> !OccursAt(s, sep, j)
    ensures i < |s| ==> OccursAt(s, sep, i)
    decreases |s| - from
  {
    if from == |s| then from
    else if OccursAt(s, sep, from) then from
    else IndexFrom(s, sep, from + 1)
  }

  /** strings.Split for a non-empty separator. */
  function Split(s: string, sep: string): (parts: seq<string>)
    requires sep != ""
    ensures |parts| >= 1
    decreases |s|
  {
    var i := IndexFrom(s, sep, 0);
    if i == |s| then [s] else [s[..i]] + Split(s[i + |sep|..], sep)
  }

  /** Splitting loses nothing. */
  lemma {:induction false} SplitRoundTrip(s: string, sep: string)
    requires sep != ""
    ensures Join(Split(s, sep), sep) == s
    decreases |s|
  {
    var i := IndexFrom(s, sep, 0);
    if i < |s| {
      var rest := s[i + |sep|..];
      SplitRoundTrip(rest, sep);
      OccurrenceSplits(s, sep, i);
    }
  }

  lemma OccurrenceSplits(s: string, sep: string, i: nat)
    requires OccursAt(s, sep, i)
    ensures s == s[..i] + sep + s[i + |sep|..]
  {
  }

  /** No part holds the separator, and there is one part only when s does not either. */
  lemma {:induction false} SplitPartsWhole(s: string, sep: string)
    requires sep != ""
    ensures forall p :: p in Split(s, sep) ==> !Occurs(p, sep)
    ensures |Split(s, sep)| == 1 <==> !Occurs(s, sep)
    decreases |s|
  {
    var i := IndexFrom(s, sep, 0);
    if i < |s| {
      var rest := s[i + |sep|..];
      SplitPartsWhole(rest, sep);
      HeadPartWhole(s, sep, i);
      assert Split(s, sep) == [s[..i]] + Split(rest, sep);
    }
  }

  lemma HeadPartWhole(s: string, sep: string, i: nat)
    requires i <= |s| && forall j :: 0 <= j < i ==> !OccursAt(s, sep, j)
    requires sep != ""
    ensures !Occurs(s[..i], sep)
  {
    forall j | 0 <= j <= i - |sep|
      ensures !OccursAt(s[..i], sep, j)
    {
      assert s[..i][j..j + |sep|] == s[j..j + |sep|];
      assert !OccursAt(s, sep, j);
    }
  }

  /** A separator is marked at m by a character it does not have before. */
  predicate MarkedAt(sep: string, m: nat) {
    m < |sep| && forall x :: 0 <= x < m ==> sep[x] != sep[m]
  }

  lemma OccurrenceHolds(s: string, sep: string, m: nat, j: int)
    requires m < |sep| && OccursAt(s, sep, j)
    ensures j + m < |s| && s[j + m] == sep[m] && sep[m] in s
  {
    assert s[j..j + |sep|][m] == s[j + m];
  }

  /** Past a part without its mark a separator stands nowhere earlier than at the part's end. */
  lemma SeparatorPast(part: string, sep: string, m: nat, tail: string, j: int)
    requires MarkedAt(sep, m) && sep[m] !in part && OccursAt(part + sep + tail, sep, j)
    ensures j >= |part|
  {
    var s := part + sep + tail;
    OccurrenceHolds(s, sep, m, j);
  }

  lemma SplitHead(part: string, sep: string, m: nat, tail: string)
    requires MarkedAt(sep, m) && sep[m] !in part
    ensures Split(part + sep + tail, sep) == [part] + Split(tail, sep)
  {
    var s := part + sep + tail;
    assert s[|part|..|part| + |sep|] == sep;
    assert OccursAt(s, sep, |part|);
    var i := IndexFrom(s, sep, 0);
    SeparatorPast(part, sep, m, tail, i);
    assert i == |part|;
    Parts(part + sep, tail);
    Parts(part, sep + tail);
    Assoc(part, sep, tail);
  }

  /** Splitting what was joined gives the parts back, if none holds the separator's mark. */
  lemma {:induction false} JoinSplits(parts: seq<string>, sep: string, m: nat)
    requires parts != [] && MarkedAt(sep, m) && forall p :: p in parts ==> sep[m] !in p
    ensures Split(Join(parts, sep), sep) == parts
  {
    if |parts| == 1 {
      SplitOne(parts[0], sep, m);
    } else {
      JoinSplits(parts[1..], sep, m);
      SplitHead(parts[0], sep, m, Join(parts[1..], sep));
      DropOne(parts, 0);
      Whole(parts);
    }
  }

  lemma SplitOne(part: string, sep: string, m: nat)
    requires MarkedAt(sep, m) && sep[m] !in part
    ensures Split(part, sep) == [part]
  {
    var i := IndexFrom(part, sep, 0);
    if i < |part| {
      OccurrenceHolds(part, sep, m, i);
    }
  }

  /** Joining parts that do not hold a one-character separator, and splitting again. */
  lemma JoinRoundTrip(parts: seq<string>, sep: char)
    requires parts != []
    requires forall p :: p in parts ==> sep !in p
    ensures Split(Join(parts, [sep]), [sep]) == parts
  {
    JoinSplits(parts, [sep], 0);
  }

  // ----------------------------------------------------------------- splitlines

  /** The width of the line break at offset i: two for \r\n, and else one. */
  function BreakWidth(s: string, i: nat): (w: nat)
    requires i < |s|
    ensures 1 <= w <= 2 && i + w <= |s|
  {
    if s[i] == '\r' && i + 1 < |s| && s[i + 1] == '\n' then 2 else 1
  }

  function FirstBreak(s: string, from: nat): (at: nat)
    requires from <= |s|
    ensures from <= at <= |s|
    ensures forall j :: from <= j < at ==> !IsLineBreak(s[j])
    ensures at < |s| ==> IsLineBreak(s[at])
    decreases |s| - from
  {
    if from < |s| && !IsLineBreak(s[from]) then FirstBreak(s, from + 1) else from
  }

  function LinesOf(s: string): seq<string>
    decreases |s|
  {
    if s == "" then []
    else
      var at := FirstBreak(s, 0);
      if at == |s| then [s] else [s[..at]] + LinesOf(s[at + BreakWidth(s, at)..])
  }

  function LinesWithEnds(s: string): seq<string>
    decreases |s|
  {
    if s == "" then []
    else
      var at := FirstBreak(s, 0);
      if at == |s| then [s]
      else [s[..at + BreakWidth(s, at)]] + LinesWithEnds(s[at + BreakWidth(s, at)..])
  }

  /** The lines so far and the first of the rest. */
  lemma LinesStep(lines: seq<string>, rest: string, at: nat, width: nat)
    requires rest != "" && at == FirstBreak(rest, 0) < |rest| && width == BreakWidth(rest, at)
    ensures lines + LinesOf(rest) == lines + [rest[..at]] + LinesOf(rest[at + width..])
  {
    Assoc(lines, [rest[..at]], LinesOf(rest[at + width..]));
  }

  lemma LinesWithEndsStep(lines: seq<string>, rest: string, at: nat, width: nat)
    requires rest != "" && at == FirstBreak(rest, 0) < |rest| && width == BreakWidth(rest, at)
    ensures lines + LinesWithEnds(rest) == lines + [rest[..at + width]] + LinesWithEnds(rest[at + width..])
  {
    Assoc(lines, [rest[..at + width]], LinesWithEnds(rest[at + width..]));
  }

  /** Where FirstBreak is and how wide, or -1 where there is none. */
  method FirstLineBreak(s: string) returns (at: int, width: nat)
    ensures at < 0 ==> at == -1 && FirstBreak(s, 0) == |s|
    ensures at >= 0 ==> at == FirstBreak(s, 0) < |s| && width == BreakWidth(s, at)
  {
    var i := 0;
    while i < |s|
      invariant 0 <= i <= |s|
      invariant FirstBreak(s, 0) == FirstBreak(s, i)
    {
      if IsLineBreak(s[i]) {
        if s[i] == '\r' && "\n" <= s[i + 1..] {
          assert s[i + 1..][0] == '\n';
          return i, 2;
        }
        assert i + 1 < |s| && s[i + 1] == '\n' ==> "\n" <= s[i + 1..];
        return i, 1;
      }
      i := i + 1;
    }
    return -1, 0;
  }

  /** Python's str.splitlines(). */
  method SplitLines(s: string) returns (lines: seq<string>)
    ensures lines == LinesOf(s)
  {
    lines := [];
    var rest := s;
    while rest != ""
      invariant LinesOf(s) == lines + LinesOf(rest)
      decreases |rest|
    {
      var at, width := FirstLineBreak(rest);
      if at < 0 {
        assert LinesOf(rest) == [rest];
        return lines + [rest];
      }
      LinesStep(lines, rest, at, width);
      lines := lines + [rest[..at]];
      rest := rest[at + width..];
    }
  }

  /** Python's str.splitlines(keepends=True). */
  method SplitLinesKeepEnds(s: string) returns (lines: seq<string>)
    ensures lines == LinesWithEnds(s)
  {
    lines := [];
    var rest := s;
    while rest != ""
      invariant LinesWithEnds(s) == lines + LinesWithEnds(rest)
      decreases |rest|
    {
      var at, width := FirstLineBreak(rest);
      if at < 0 {
        return lines + [rest];
      }
      LinesWithEndsStep(lines, rest, at, width);
      lines := lines + [rest[..at + width]];
      rest := rest[at + width..];
    }
  }

  predicate NoBreak(s: string) {
    forall i :: 0 <= i < |s| ==> !IsLineBreak(s[i])
  }

  /** A line's separator: one break character, or \r\n. */
  predicate IsSeparator(s: string) {
    (|s| == 1 && IsLineBreak(s[0])) || s == "\r\n"
  }

  /** A line and the same line with its end, which only the last line may lack. */
  predicate LineAndEnd(line: string, ended: string, last: bool) {
    && NoBreak(line) && line <= ended
    && (IsSeparator(ended[|line|..]) || (last && line != "" && ended == line))
  }

  predicate LinesAndEnds(lines: seq<string>, ended: seq<string>) {
    && |lines| == |ended|
    && forall i :: 0 <= i < |lines| ==> LineAndEnd(lines[i], ended[i], i == |lines| - 1)
  }

  /** With their ends the lines are the whole string, in order. */
  lemma {:induction false} LinesRebuild(s: string)
    ensures Concat(LinesWithEnds(s)) == s
    decreases |s|
  {
    if s != "" {
      var at := FirstBreak(s, 0);
      if at == |s| {
        assert Concat([s]) == s + Concat([]);
      } else {
        var cut := at + BreakWidth(s, at);
        LinesRebuild(s[cut..]);
        assert LinesWithEnds(s)[1..] == LinesWithEnds(s[cut..]);
        assert s == s[..cut] + s[cut..];
      }
    }
  }

  /**
   Each line is break-free, and with its end it carries exactly one separator
   more, which only the last line may lack.
   */
  lemma {:induction false} LinesBreakFree(s: string)
    ensures LinesAndEnds(LinesOf(s), LinesWithEnds(s))
    decreases |s|
  {
    if s != "" {
      var at := FirstBreak(s, 0);
      if at < |s| {
        var cut := at + BreakWidth(s, at);
        LinesBreakFree(s[cut..]);
        var line, ended := s[..at], s[..cut];
        assert ended[..at] == line && ended[at..] == s[at..cut];
        assert IsSeparator(s[at..cut]);
        LinesAndEndsCons(line, ended, LinesOf(s[cut..]), LinesWithEnds(s[cut..]));
      }
    }
  }

  lemma LinesAndEndsCons(line: string, ended: string, lines: seq<string>, ends: seq<string>)
    requires NoBreak(line) && line <= ended && IsSeparator(ended[|line|..]) && LinesAndEnds(lines, ends)
    ensures LinesAndEnds([line] + lines, [ended] + ends)
  {
  }

  lemma {:induction false} LinesKeepSolid(s: string)
    ensures SolidAll(LinesOf(s)) == Solid(s)
    decreases |s|
  {
    if s != "" {
      var at := FirstBreak(s, 0);
      if at == |s| {
        assert SolidAll([s]) == Solid(s) + SolidAll([]);
      } else {
        var cut := at + BreakWidth(s, at);
        assert s == s[..at] + s[at..cut] + s[cut..];
        SolidConcat(s[..at] + s[at..cut], s[cut..]);
        SolidConcat(s[..at], s[at..cut]);
        SolidEmpty(s[at..cut]);
        LinesKeepSolid(s[cut..]);
      }
    }
  }
}
