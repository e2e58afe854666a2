/**
 The well-formed byte sequences of UTF-8 as internal/pystr/decode.go tabulates them
 (Table 3-7 of the Unicode Standard), against the encoding of section 3 of RFC 3629.
 */
module Utf8 {

  type Byte = x: int | 0 <= x < 256

  /** A Unicode scalar value: a code point that is no surrogate. */
  predicate IsScalar(c: int) {
    0 <= c < 0x11_0000 && !(0xd800 <= c <= 0xdfff)
  }

  /** The bytes of a scalar value. */
  function Encode(c: int): (p: seq<Byte>)
    requires IsScalar(c)
    ensures 1 <= |p| <= 4
  {
    if c < 0x80 then [c]
    else if c < 0x800 then [0xc0 + c / 64, 0x80 + c % 64]
    else if c < 0x1_0000 then [0xe0 + c / 64 / 64, 0x80 + c / 64 % 64, 0x80 + c % 64]
    else [0xf0 + c / 64 / 64 / 64, 0x80 + c / 64 / 64 % 64, 0x80 + c / 64 % 64, 0x80 + c % 64]
  }

  // ----------------------------------------------------------------------- the table

  /** One row of the table: a range of lead bytes, the range of the byte after, and how many follow the lead. */
  datatype Row = Row(need: nat, from: Byte, to: Byte, lo: Byte, hi: Byte)

  const ROWS := [
    Row(1, 0xc2, 0xdf, 0x80, 0xbf),
    Row(2, 0xe0, 0xe0, 0xa0, 0xbf),
    Row(2, 0xe1, 0xec, 0x80, 0xbf),
    Row(2, 0xed, 0xed, 0x80, 0x9f),
    Row(2, 0xee, 0xef, 0x80, 0xbf),
    Row(3, 0xf0, 0xf0, 0x90, 0xbf),
    Row(3, 0xf1, 0xf3, 0x80, 0xbf),
    Row(3, 0xf4, 0xf4, 0x80, 0x8f)
  ]

  const NO_ROW := Row(0, 0, 0, 0, 0)

  function RowFrom(lead: Byte, k: nat): Row
    requires k <= 8
    decreases 8 - k
  {
    if k == 8 then NO_ROW else if ROWS[k].from <= lead <= ROWS[k].to then ROWS[k] else RowFrom(lead, k + 1)
  }

  /** The row a lead byte begins. */
  method LeadSequence(lead: Byte) returns (row: Row)
    ensures row == RowFrom(lead, 0) == RowOf(lead)
  {
    for k := 0 to |ROWS|
      invariant RowFrom(lead, 0) == RowFrom(lead, k)
    {
      if ROWS[k].from <= lead <= ROWS[k].to {
        return ROWS[k];
      }
    }
    row := NO_ROW;
  }

  /** The same rows, by case. */
  function RowOf(lead: Byte): Row {
    if lead < 0xc2 then NO_ROW
    else if lead <= 0xdf then Row(1, 0xc2, 0xdf, 0x80, 0xbf)
    else if lead <= 0xe0 then Row(2, 0xe0, 0xe0, 0xa0, 0xbf)
    else if lead <= 0xec then Row(2, 0xe1, 0xec, 0x80, 0xbf)
    else if lead <= 0xed then Row(2, 0xed, 0xed, 0x80, 0x9f)
    else if lead <= 0xef then Row(2, 0xee, 0xef, 0x80, 0xbf)
    else if lead <= 0xf0 then Row(3, 0xf0, 0xf0, 0x90, 0xbf)
    else if lead <= 0xf3 then Row(3, 0xf1, 0xf3, 0x80, 0xbf)
    else if lead <= 0xf4 then Row(3, 0xf4, 0xf4, 0x80, 0x8f)
    else NO_ROW
  }

  predicate IsCont(b: Byte) {
    0x80 <= b <= 0xbf
  }

  /** p starts as its lead byte's row says, for as many bytes as it has. */
  predicate Follows(p: seq<Byte>) {
    && p != []
    && (|p| > 1 ==> RowOf(p[0]).lo <= p[1] <= RowOf(p[0]).hi)
    && (|p| > 2 ==> IsCont(p[2]))
    && (|p| > 3 ==> IsCont(p[3]))
  }

  /** A well-formed sequence, by the table. */
  predicate IsSequence(p: seq<Byte>) {
    p != [] && (if p[0] < 0x80 then |p| == 1 else RowOf(p[0]).need > 0 && |p| == RowOf(p[0]).need + 1 && Follows(p))
  }

  /** A value and one continuation byte more. */
  function Shift(high: int, cont: int): int {
    high * 64 + (cont - 0x80)
  }

  /** The scalar value of a well-formed sequence. */
  function ScalarOf(p: seq<Byte>): int
    requires IsSequence(p)
  {
    if |p| == 1 then p[0]
    else if |p| == 2 then Shift(p[0] - 0xc0, p[1])
    else if |p| == 3 then Shift(Shift(p[0] - 0xe0, p[1]), p[2])
    else Shift(Shift(Shift(p[0] - 0xf0, p[1]), p[2]), p[3])
  }

  /** The table admits every encoded scalar value, and reads it back. */
  lemma EncodedIsSequence(c: int)
    requires IsScalar(c)
    ensures IsSequence(Encode(c)) && ScalarOf(Encode(c)) == c
  {
  }

  lemma ShiftDigits(high: int, cont: int)
    requires 0x80 <= cont <= 0xbf
    ensures Shift(high, cont) / 64 == high && Shift(high, cont) % 64 == cont - 0x80
  {
  }

  lemma TwoBytes(a: int, b: int)
    requires 0xc2 <= a <= 0xdf && 0x80 <= b <= 0xbf
    ensures var c := Shift(a - 0xc0, b); 0x80 <= c < 0x800 && Encode(c) == [a, b]
  {
    ShiftDigits(a - 0xc0, b);
  }

  lemma ThreeBytes(a: int, b: int, d: int)
    requires 0xe0 <= a <= 0xef && 0x80 <= b <= 0xbf && 0x80 <= d <= 0xbf && (a == 0xe0 ==> b >= 0xa0) && (a == 0xed ==> b <= 0x9f)
    ensures var c := Shift(Shift(a - 0xe0, b), d); IsScalar(c) && 0x800 <= c < 0x1_0000 && Encode(c) == [a, b, d]
  {
    ShiftDigits(a - 0xe0, b);
    ShiftDigits(Shift(a - 0xe0, b), d);
  }

  lemma FourBytes(a: int, b: int, d: int, e: int)
    requires 0xf0 <= a <= 0xf4 && 0x80 <= b <= 0xbf && 0x80 <= d <= 0xbf && 0x80 <= e <= 0xbf
    requires (a == 0xf0 ==> b >= 0x90) && (a == 0xf4 ==> b <= 0x8f)
    ensures var c := Shift(Shift(Shift(a - 0xf0, b), d), e); IsScalar(c) && 0x1_0000 <= c && Encode(c) == [a, b, d, e]
  {
    ShiftDigits(a - 0xf0, b);
    ShiftDigits(Shift(a - 0xf0, b), d);
    ShiftDigits(Shift(Shift(a - 0xf0, b), d), e);
  }

  lemma SequenceOfTwo(p: seq<Byte>)
    requires IsSequence(p) && |p| == 2
    ensures IsScalar(ScalarOf(p)) && Encode(ScalarOf(p)) == p
  {
    TwoBytes(p[0], p[1]);
    assert p == [p[0], p[1]];
  }

  lemma SequenceOfThree(p: seq<Byte>)
    requires IsSequence(p) && |p| == 3
    ensures IsScalar(ScalarOf(p)) && Encode(ScalarOf(p)) == p
  {
    ThreeBytes(p[0], p[1], p[2]);
    assert p == [p[0], p[1], p[2]];
  }

  lemma SequenceOfFour(p: seq<Byte>)
    requires IsSequence(p) && |p| == 4
    ensures IsScalar(ScalarOf(p)) && Encode(ScalarOf(p)) == p
  {
    FourBytes(p[0], p[1], p[2], p[3]);
    assert p == [p[0], p[1], p[2], p[3]];
  }

  /** What the table admits is an encoded scalar value. */
  lemma SequenceIsEncoded(p: seq<Byte>)
    requires IsSequence(p)
    ensures IsScalar(ScalarOf(p)) && Encode(ScalarOf(p)) == p
  {
    if |p| == 1 {
      assert p == [p[0]];
    } else if |p| == 2 {
      SequenceOfTwo(p);
    } else if |p| == 3 {
      SequenceOfThree(p);
    } else {
      SequenceOfFour(p);
    }
  }

  ghost predicate Encodes(p: seq<Byte>, c: int) {
    IsScalar(c) && Encode(c) == p
  }

  /** The table's sequences are exactly the encodings of scalar values, each of one. */
  lemma TableIsEncoding(p: seq<Byte>)
    ensures IsSequence(p) <==> exists c :: Encodes(p, c)
    ensures forall c :: Encodes(p, c) ==> c == ScalarOf(p)
  {
    if IsSequence(p) {
      SequenceIsEncoded(p);
      assert Encodes(p, ScalarOf(p));
    }
    forall c | Encodes(p, c)
      ensures IsSequence(p) && c == ScalarOf(p)
    {
      EncodedIsSequence(c);
    }
  }

  // ---------------------------------------------------------------- initial subsequences

  /** p is the start of some well-formed sequence, but not the whole of it. */
  ghost predicate IsInitial(p: seq<Byte>) {
    p != [] && exists q :: IsSequence(q) && |p| < |q| && q[..|p|] == p
  }

  /** By the table: its lead needs more bytes than it has, and those it has follow. */
  predicate FitsRow(p: seq<Byte>) {
    p != [] && |p| <= RowOf(p[0]).need && Follows(p)
  }

  function Filler(p: seq<Byte>): Byte
    requires p != []
  {
    if |p| == 1 then RowOf(p[0]).lo else 0x80
  }

  lemma {:induction false} FitsIsInitial(p: seq<Byte>) returns (q: seq<Byte>)
    requires FitsRow(p)
    ensures IsSequence(q) && |p| < |q| && q[..|p|] == p
    decreases RowOf(p[0]).need - |p|
  {
    var longer := p + [Filler(p)];
    if |p| == RowOf(p[0]).need {
      q := longer;
    } else {
      q := FitsIsInitial(longer);
      assert q[..|p|] == q[..|longer|][..|p|];
    }
  }

  lemma InitialFits(p: seq<Byte>)
    ensures IsInitial(p) <==> FitsRow(p)
  {
    if FitsRow(p) {
      var q := FitsIsInitial(p);
    }
    if IsInitial(p) {
      var q :| IsSequence(q) && |p| < |q| && q[..|p|] == p;
      assert forall i :: 0 <= i < |p| ==> p[i] == q[i];
    }
  }
}
