/**
 Offline token estimation (internal/domain/tokens.go). An atom is a run of word
 characters or one punctuation character; CJK characters are counted apart and
 scaled. Floating point is exact here: 1.3 is 13/10, and the CJK weight 10/13.
 */
module Tokens {
  import opened Text

  /** What Python's \w matches: the Unicode tables are a parameter. */
  datatype WordClass = WordClass(matches: char -> bool) {
    /** No space is a word character: the one fact about the tables the proofs use. */
    ghost predicate Sound() {
      forall c: char :: IsSpace(c) ==> !matches(c)
    }
  }

  predicate IsCjk(c: char) {
    var r := c as int;
    || 0x3000 <= r <= 0x303f || 0x3040 <= r <= 0x30ff || 0x3400 <= r <= 0x4dbf
    || 0x4e00 <= r <= 0x9fff || 0xac00 <= r <= 0xd7af || 0xf900 <= r <= 0xfaff
  }

  predicate CjkFree(s: string) {
    forall i :: 0 <= i < |s| ==> !IsCjk(s[i])
  }

  /** A character that carries a word on: CJK characters never do. */
  predicate InWord(w: WordClass, c: char) {
    !IsCjk(c) && w.matches(c)
  }

  /** An atom begins at offset i: a word character after none, or a punctuation character. */
  predicate AtomAt(w: WordClass, s: string, i: nat)
    requires i < |s|
  {
    && !IsCjk(s[i])
    && if w.matches(s[i]) then i == 0 || !InWord(w, s[i - 1]) else !IsSpace(s[i])
  }

  /** How many offsets of s begin an atom. */
  function Atoms(w: WordClass, s: string): nat {
    if s == "" then 0
    else Atoms(w, s[..|s| - 1]) + if AtomAt(w, s, |s| - 1) then 1 else 0
  }

  function CjkCount(s: string): nat {
    if s == "" then 0
    else CjkCount(s[..|s| - 1]) + if IsCjk(s[|s| - 1]) then 1 else 0
  }

  /** cjk * 10/13 rounded to nearest; 13 is odd, so no tie arises. */
  function CjkAtoms(cjk: nat): nat {
    (20 * cjk + 13) / 26
  }

  function AtomCount(w: WordClass, s: string): nat {
    if CjkCount(s) == 0 then Atoms(w, s) else Atoms(w, s) + CjkAtoms(CjkCount(s))
  }

  function TokensFromAtoms(atoms: nat): nat {
    atoms * 13 / 10
  }

  function EstimateTokens(w: WordClass, s: string): nat {
    TokensFromAtoms(AtomCount(w, s))
  }

  /** One scan counts the atoms, however words, spaces and CJK characters alternate. */
  method CountAtoms(w: WordClass, text: string) returns (n: nat)
    ensures n == AtomCount(w, text)
  {
    var atoms, cjk := 0, 0;
    var inWord := false;
    var i := 0;
    while i < |text|
      invariant 0 <= i <= |text|
      invariant atoms == Atoms(w, text[..i]) && cjk == CjkCount(text[..i])
      invariant inWord == (i > 0 && InWord(w, text[i - 1]))
    {
      var r := text[i];
      assert text[..i + 1][..i] == text[..i];
      if IsCjk(r) {
        cjk := cjk + 1;
        inWord := false;
      } else if w.matches(r) {
        if !inWord {
          atoms := atoms + 1;
          inWord := true;
        }
      } else if IsSpace(r) {
        inWord := false;
      } else {
        atoms := atoms + 1;
        inWord := false;
      }
      i := i + 1;
    }
    assert text[..|text|] == text;
    if cjk == 0 {
      return atoms;
    }
    return atoms + CjkAtoms(cjk);
  }

  // ------------------------------------------------------------------ additivity

  /** No word runs across the boundary between a and b. */
  predicate WordBreak(w: WordClass, a: string, b: string) {
    a == "" || b == "" || !InWord(w, a[|a| - 1]) || !InWord(w, b[0])
  }

  lemma InitOfConcat(a: string, b: string)
    requires b != ""
    ensures (a + b)[..|a + b| - 1] == a + b[..|b| - 1]
  {
  }

  lemma {:induction false} AtomsConcat(w: WordClass, a: string, b: string)
    requires WordBreak(w, a, b)
    ensures Atoms(w, a + b) == Atoms(w, a) + Atoms(w, b)
  {
    if b == "" {
      assert a + b == a;
    } else {
      var s, b' := a + b, b[..|b| - 1];
      InitOfConcat(a, b);
      AtomsConcat(w, a, b');
      assert AtomAt(w, s, |s| - 1) == AtomAt(w, b, |b| - 1);
    }
  }

  lemma {:induction false} CjkConcat(a: string, b: string)
    ensures CjkCount(a + b) == CjkCount(a) + CjkCount(b)
  {
    if b == "" {
      assert a + b == a;
    } else {
      assert (a + b)[..|a + b| - 1] == a + b[..|b| - 1];
      CjkConcat(a, b[..|b| - 1]);
    }
  }

  lemma {:induction false} SpacesHoldNoAtom(w: WordClass, s: string)
    requires w.Sound() && AllSpace(s)
    ensures Atoms(w, s) == 0
  {
    if s != "" {
      SpacesHoldNoAtom(w, s[..|s| - 1]);
    }
  }

  lemma {:induction false} CjkFreeCount(s: string)
    ensures CjkCount(s) == 0 <==> CjkFree(s)
  {
    if s != "" {
      var t := s[..|s| - 1];
      CjkFreeCount(t);
      assert CjkFree(s) <==> CjkFree(t) && !IsCjk(s[|s| - 1]) by {
        assert forall i :: 0 <= i < |t| ==> t[i] == s[i];
      }
    }
  }

  /** What strings are joined by: whitespace, at least one character, none of it CJK. */
  predicate Spacer(sep: string) {
    sep != "" && AllSpace(sep) && CjkFree(sep)
  }

  function AtomsAll(w: WordClass, parts: seq<string>): nat {
    if parts == [] then 0 else Atoms(w, parts[0]) + AtomsAll(w, parts[1..])
  }

  function CjkAll(parts: seq<string>): nat {
    if parts == [] then 0 else CjkCount(parts[0]) + CjkAll(parts[1..])
  }

  lemma {:induction false} AtomsJoin(w: WordClass, parts: seq<string>, sep: string)
    requires w.Sound() && Spacer(sep)
    ensures Atoms(w, Join(parts, sep)) == AtomsAll(w, parts)
    ensures CjkCount(Join(parts, sep)) == CjkAll(parts)
  {
    if |parts| == 1 {
      assert AtomsAll(w, parts[1..]) == 0 && CjkAll(parts[1..]) == 0;
    } else if |parts| > 1 {
      var rest := Join(parts[1..], sep);
      AtomsJoin(w, parts[1..], sep);
      SpacerConcat(w, parts[0], sep, rest);
    }
  }

  lemma SpacerConcat(w: WordClass, a: string, sep: string, b: string)
    requires w.Sound() && Spacer(sep)
    ensures Atoms(w, a + sep + b) == Atoms(w, a) + Atoms(w, b)
    ensures CjkCount(a + sep + b) == CjkCount(a) + CjkCount(b)
  {
    AtomsConcat(w, a, sep);
    assert WordBreak(w, a + sep, b);
    AtomsConcat(w, a + sep, b);
    SpacesHoldNoAtom(w, sep);
    CjkConcat(a + sep, b);
    CjkConcat(a, sep);
    CjkFreeCount(sep);
  }

  // ------------------------------------------------- measuring pieces of a budget

  function CountAll(w: WordClass, parts: seq<string>): nat {
    if parts == [] then 0 else AtomCount(w, parts[0]) + CountAll(w, parts[1..])
  }

  function EstimateAll(w: WordClass, parts: seq<string>): nat {
    if parts == [] then 0 else EstimateTokens(w, parts[0]) + EstimateAll(w, parts[1..])
  }

  predicate AllCjkFree(parts: seq<string>) {
    forall i :: 0 <= i < |parts| ==> CjkFree(parts[i])
  }

  /** Without CJK the atoms of joined pieces are exactly the sum over the pieces. */
  lemma JoinedAtomsExact(w: WordClass, parts: seq<string>, sep: string)
    requires w.Sound() && Spacer(sep) && AllCjkFree(parts)
    ensures AtomCount(w, Join(parts, sep)) == CountAll(w, parts)
  {
    AtomsJoin(w, parts, sep);
    CountAllCjkFree(w, parts);
  }

  lemma {:induction false} CountAllCjkFree(w: WordClass, parts: seq<string>)
    requires AllCjkFree(parts)
    ensures CountAll(w, parts) == AtomsAll(w, parts) && CjkAll(parts) == 0
  {
    if parts != [] {
      assert AllCjkFree(parts[1..]) by {
        assert forall i :: 0 <= i < |parts[1..]| ==> parts[1..][i] == parts[i + 1];
      }
      CjkFreeCount(parts[0]);
      CountAllCjkFree(w, parts[1..]);
    }
  }

  /** With CJK each rounding moves the sum by less than a half, so n pieces by at most (n+1)/2. */
  lemma JoinedAtomsNear(w: WordClass, parts: seq<string>, sep: string)
    requires w.Sound() && Spacer(sep)
    ensures 2 * AtomCount(w, Join(parts, sep)) <= 2 * CountAll(w, parts) + |parts| + 1
    ensures 2 * CountAll(w, parts) <= 2 * AtomCount(w, Join(parts, sep)) + |parts| + 1
  {
    AtomsJoin(w, parts, sep);
    CountAllNear(w, parts);
  }

  lemma {:induction false} CountAllNear(w: WordClass, parts: seq<string>)
    ensures 26 * CountAll(w, parts) <= 26 * AtomsAll(w, parts) + 20 * CjkAll(parts) + 13 * |parts|
    ensures 26 * AtomsAll(w, parts) + 20 * CjkAll(parts) - 12 * |parts| <= 26 * CountAll(w, parts)
  {
    if parts != [] {
      CountAllNear(w, parts[1..]);
    }
  }

  /**
   Why sizes are accumulated in atoms: summing each piece's own estimate never
   overcounts the joined text and undercounts it by less than one token a piece.
   */
  lemma SummedEstimatesUndercount(w: WordClass, parts: seq<string>, sep: string)
    requires w.Sound() && Spacer(sep) && AllCjkFree(parts)
    ensures EstimateAll(w, parts) <= EstimateTokens(w, Join(parts, sep))
    ensures parts != [] ==> EstimateTokens(w, Join(parts, sep)) < EstimateAll(w, parts) + |parts|
  {
    JoinedAtomsExact(w, parts, sep);
    EstimateAllNear(w, parts);
  }

  lemma {:induction false} EstimateAllNear(w: WordClass, parts: seq<string>)
    ensures 10 * EstimateAll(w, parts) <= 13 * CountAll(w, parts)
    ensures 13 * CountAll(w, parts) <= 10 * EstimateAll(w, parts) + 9 * |parts|
  {
    if parts != [] {
      EstimateAllNear(w, parts[1..]);
    }
  }

  /** Stripping whitespace changes no CJK-free text's size. */
  lemma StripKeepsAtoms(w: WordClass, s: string)
    requires w.Sound() && CjkFree(s)
    ensures CjkFree(Strip(s)) && AtomCount(w, Strip(s)) == AtomCount(w, s)
  {
    var a, b := StripSplits(s);
    var t := Strip(s);
    assert forall i :: 0 <= i < |t| ==> t[i] == s[|a| + i];
    AtomsConcat(w, a + t, b);
    AtomsConcat(w, a, t);
    SpacesHoldNoAtom(w, a);
    SpacesHoldNoAtom(w, b);
    CjkFreeCount(s);
    CjkFreeCount(t);
  }
}
