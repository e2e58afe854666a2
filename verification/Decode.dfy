/**
 Reading a file's bytes as text (internal/pystr/decode.go): UTF-8 decoding in which
 every maximal ill-formed subpart becomes one U+FFFD, then universal newlines.
 */
module Decode {
  import opened Sequences
  import opened Utf8

  const REPLACEMENT := 0xfffd
  const CR := 13
  const LF := 10

  // ------------------------------------------------------------------- one step's bytes

  /** The length of the well-formed sequence b starts with, or 0. */
  function SequenceAt(b: seq<Byte>): (n: nat)
    requires b != []
    ensures n <= |b| && n <= 4
    ensures n > 0 ==> IsSequence(b[..n])
    ensures n == 0 ==> forall m :: 0 <= m <= |b| ==> !IsSequence(b[..m])
  {
    var n := if b[0] < 0x80 then 1 else RowOf(b[0]).need + 1;
    if n <= |b| && IsSequence(b[..n]) then n else NoSequence(b); 0
  }

  lemma NoSequence(b: seq<Byte>)
    requires b != []
    requires var n := if b[0] < 0x80 then 1 else RowOf(b[0]).need + 1; !(n <= |b| && IsSequence(b[..n]))
    ensures forall m :: 0 <= m <= |b| ==> !IsSequence(b[..m])
  {
    forall m | 0 <= m <= |b|
      ensures !IsSequence(b[..m])
    {
      assert m > 0 ==> b[..m][0] == b[0];
    }
  }

  /** A rune and how many bytes it took, as utf8.DecodeRune gives them: U+FFFD and 1 for bytes it cannot read. */
  function DecodeRune(b: seq<Byte>): (int, nat)
    requires b != []
  {
    var n := SequenceAt(b);
    if n > 0 then (ScalarOf(b[..n]), n) else (REPLACEMENT, 1)
  }

  /** n bytes are the longest start of b that is the start of some well-formed sequence, or one byte if none is. */
  ghost predicate IsMaximalSubpart(b: seq<Byte>, n: nat) {
    && 1 <= n <= |b|
    && (n > 1 ==> IsInitial(b[..n]))
    && forall m :: n < m <= |b| ==> !IsInitial(b[..m])
  }

  /** The length of the maximal subpart that begins b. */
  method InvalidPrefix(b: seq<Byte>) returns (n: nat)
    requires b != [] && SequenceAt(b) == 0
    ensures IsMaximalSubpart(b, n) && n <= 3
  {
    var row := LeadSequence(b[0]);
    var lo, hi := row.lo, row.hi;
    n := 1;
    while n <= row.need && n < |b| && lo <= b[n] <= hi
      invariant 1 <= n <= |b| && n <= row.need + 1
      invariant if n == 1 then lo == row.lo && hi == row.hi else lo == 0x80 && hi == 0xbf
      invariant Follows(b[..n])
      decreases |b| - n
    {
      assert forall k :: 0 <= k < n ==> b[..n + 1][k] == b[..n][k];
      lo, hi := 0x80, 0xbf;
      n := n + 1;
    }
    Maximal(b, n);
  }

  /** Where the bytes stop following their lead byte's row is where the subpart ends. */
  lemma Maximal(b: seq<Byte>, n: nat)
    requires b != [] && SequenceAt(b) == 0 && 1 <= n <= |b| && n <= RowOf(b[0]).need + 1 && Follows(b[..n])
    requires n <= RowOf(b[0]).need && n < |b| ==>
               !((if n == 1 then RowOf(b[0]).lo else 0x80) <= b[n] <= (if n == 1 then RowOf(b[0]).hi else 0xbf))
    ensures IsMaximalSubpart(b, n) && n <= 3
  {
    var row := RowOf(b[0]);
    assert b[..n][0] == b[0];
    if 1 < n <= row.need {
      InitialFits(b[..n]);
    }
    forall m | n < m <= |b|
      ensures !IsInitial(b[..m])
    {
      InitialFits(b[..m]);
      assert b[..m][0] == b[0] && b[..m][n] == b[n];
    }
  }

  // ------------------------------------------------------------------------ whole texts

  /** What decoding reads at one place: a scalar value, or bytes it replaces. */
  datatype Piece = Rune(c: int) | Subpart(bytes: seq<Byte>) {
    ghost predicate Valid() {
      Rune? ==> IsScalar(c)
    }

    function Bytes(): seq<Byte> {
      match this
      case Rune(c) => if IsScalar(c) then Encode(c) else []
      case Subpart(bytes) => bytes
    }

    function Char(): int {
      if Rune? then c else REPLACEMENT
    }
  }

  ghost predicate IsPrefix(p: seq<Byte>, b: seq<Byte>) {
    |p| <= |b| && b[..|p|] == p
  }

  /** b starts with a well-formed sequence. */
  ghost predicate StartsWell(b: seq<Byte>) {
    exists c :: IsScalar(c) && IsPrefix(Encode(c), b)
  }

  /** The piece is what is to be read at the start of b. */
  ghost predicate ReadsFirst(b: seq<Byte>, piece: Piece) {
    && piece.Valid() && IsPrefix(piece.Bytes(), b)
    && (piece.Subpart? ==> !StartsWell(b) && IsMaximalSubpart(b, |piece.bytes|))
  }

  /** The pieces are what is read from b up to rest. */
  ghost predicate Reading(b: seq<Byte>, pieces: seq<Piece>, rest: seq<Byte>)
    decreases |pieces|
  {
    if pieces == [] then b == rest
    else ReadsFirst(b, pieces[0]) && Reading(b[|pieces[0].Bytes()|..], pieces[1..], rest)
  }

  lemma {:induction false} ReadingSnoc(b: seq<Byte>, pieces: seq<Piece>, rest: seq<Byte>, piece: Piece)
    requires Reading(b, pieces, rest) && ReadsFirst(rest, piece)
    ensures Reading(b, pieces + [piece], rest[|piece.Bytes()|..])
    decreases |pieces|
  {
    var longer := pieces + [piece];
    if pieces == [] {
      assert longer == [piece] && longer[1..] == [];
    } else {
      ReadingSnoc(b[|pieces[0].Bytes()|..], pieces[1..], rest, piece);
      assert longer[0] == pieces[0] && longer[1..] == pieces[1..] + [piece];
    }
  }

  /** A well-formed start, by the table. */
  lemma StartsByTable(b: seq<Byte>)
    requires b != []
    ensures StartsWell(b) <==> SequenceAt(b) > 0
    ensures SequenceAt(b) > 0 ==> ReadsFirst(b, Rune(ScalarOf(b[..SequenceAt(b)]))) && Encode(ScalarOf(b[..SequenceAt(b)])) == b[..SequenceAt(b)]
  {
    var n := SequenceAt(b);
    if n > 0 {
      SequenceIsEncoded(b[..n]);
    }
    if c :| IsScalar(c) && IsPrefix(Encode(c), b) {
      EncodedIsSequence(c);
    }
  }

  function Chars(pieces: seq<Piece>): seq<int> {
    seq(|pieces|, i requires 0 <= i < |pieces| => pieces[i].Char())
  }

  /**
   Decodes a file's bytes: every well-formed sequence as its scalar value, every
   maximal ill-formed subpart as one U+FFFD, then each line end as one line feed.
   */
  method ReadText(b: seq<Byte>) returns (text: seq<int>)
    ensures exists pieces :: Reading(b, pieces, []) && text == Newlines(Chars(pieces))
  {
    var out: seq<int> := [];
    ghost var pieces: seq<Piece> := [];
    var rest := b;
    while rest != []
      invariant Reading(b, pieces, rest) && out == Chars(pieces)
      decreases |rest|
    {
      var r, n := ReadOne(rest);
      ghost var piece: Piece :| ReadsFirst(rest, piece) && r == piece.Char() && n == |piece.Bytes()|;
      ReadingSnoc(b, pieces, rest, piece);
      out := out + [r];
      pieces := pieces + [piece];
      rest := rest[n..];
    }
    text := ReplaceCr(ReplaceCrLf(out));
    NewlinesInTwo(out);
  }

  /** Decodes what b starts with. */
  method ReadOne(b: seq<Byte>) returns (r: int, n: nat)
    requires b != []
    ensures 0 < n <= |b| && exists piece :: ReadsFirst(b, piece) && r == piece.Char() && n == |piece.Bytes()|
  {
    r, n := DecodeRune(b).0, DecodeRune(b).1;
    StartsByTable(b);
    if r == REPLACEMENT && n == 1 {
      TableIsEncoding(b[..1]);
      n := InvalidPrefix(b);
      assert ReadsFirst(b, Subpart(b[..n]));
    } else {
      assert ReadsFirst(b, Rune(r));
    }
  }

  // -------------------------------------------------------------------------- newlines

  /** What strings.ReplaceAll does for a carriage return and line feed. */
  function ReplaceCrLf(s: seq<int>): seq<int> {
    if s == [] then []
    else if |s| > 1 && s[0] == CR && s[1] == LF then [LF] + ReplaceCrLf(s[2..])
    else [s[0]] + ReplaceCrLf(s[1..])
  }

  /** What it then does for a carriage return alone. */
  function ReplaceCr(s: seq<int>): seq<int> {
    if s == [] then [] else [if s[0] == CR then LF else s[0]] + ReplaceCr(s[1..])
  }

  /** Universal newlines in one pass: each line end, however it is written, as one line feed. */
  function Newlines(s: seq<int>): seq<int> {
    if s == [] then []
    else if s[0] == CR then [LF] + Newlines(if |s| > 1 && s[1] == LF then s[2..] else s[1..])
    else [s[0]] + Newlines(s[1..])
  }

  lemma {:induction false} NewlinesInTwo(s: seq<int>)
    ensures ReplaceCr(ReplaceCrLf(s)) == Newlines(s)
    decreases |s|
  {
    if s != [] {
      if |s| > 1 && s[0] == CR && s[1] == LF {
        NewlinesInTwo(s[2..]);
        assert ([LF] + ReplaceCrLf(s[2..]))[1..] == ReplaceCrLf(s[2..]);
      } else {
        NewlinesInTwo(s[1..]);
        assert ([s[0]] + ReplaceCrLf(s[1..]))[1..] == ReplaceCrLf(s[1..]);
      }
    }
  }

  /** No carriage return is left, and text without one is left alone. */
  lemma {:induction false} NewlinesLeaveNoReturn(s: seq<int>)
    ensures CR !in Newlines(s)
    ensures CR !in s ==> Newlines(s) == s
    decreases |s|
  {
    if s != [] {
      NewlinesLeaveNoReturn(if s[0] == CR && |s| > 1 && s[1] == LF then s[2..] else s[1..]);
    }
  }

  // ------------------------------------------------------------------- what reading means

  function BytesOf(pieces: seq<Piece>): seq<Byte> {
    if pieces == [] then [] else pieces[0].Bytes() + BytesOf(pieces[1..])
  }

  /** Reading consumes all of its input, a piece at a time. */
  lemma {:induction false} ReadingConsumes(b: seq<Byte>, pieces: seq<Piece>, rest: seq<Byte>)
    requires Reading(b, pieces, rest)
    ensures b == BytesOf(pieces) + rest
    decreases |pieces|
  {
    if pieces != [] {
      var first := pieces[0].Bytes();
      ReadingConsumes(b[|first|..], pieces[1..], rest);
      assert b == first + b[|first|..];
      Assoc(first, BytesOf(pieces[1..]), rest);
    }
  }

  /** A piece of what is read: a scalar value, or from one to three bytes that U+FFFD stands for. */
  ghost predicate WellRead(piece: Piece) {
    if piece.Rune? then IsScalar(piece.c) else 1 <= |piece.bytes| <= 3
  }

  lemma {:induction false} PiecesWellRead(b: seq<Byte>, pieces: seq<Piece>, rest: seq<Byte>, i: nat)
    requires Reading(b, pieces, rest) && i < |pieces|
    ensures WellRead(pieces[i])
    decreases |pieces|
  {
    var n := |pieces[0].Bytes()|;
    if i > 0 {
      PiecesWellRead(b[n..], pieces[1..], rest, i - 1);
    } else if pieces[0].Subpart? {
      SubpartShort(b, n);
    }
  }

  lemma SubpartShort(b: seq<Byte>, n: nat)
    requires IsMaximalSubpart(b, n)
    ensures 1 <= n <= 3
  {
    if n > 1 {
      InitialFits(b[..n]);
    }
  }

  /** Only one piece can be read at the start of a sequence. */
  lemma FirstIsUnique(b: seq<Byte>, p: Piece, q: Piece)
    requires ReadsFirst(b, p) && ReadsFirst(b, q)
    ensures p == q
  {
    if p.Rune? && q.Rune? {
      EncodedIsSequence(p.c);
      EncodedIsSequence(q.c);
      assert p.Bytes()[0] == b[0] == q.Bytes()[0];
    }
  }

  /** What is read from given bytes is unique. */
  lemma {:induction false} ReadingIsUnique(b: seq<Byte>, p: seq<Piece>, q: seq<Piece>)
    requires Reading(b, p, []) && Reading(b, q, [])
    ensures p == q
    decreases |p|
  {
    if p != [] && q != [] {
      FirstIsUnique(b, p[0], q[0]);
      ReadingIsUnique(b[|p[0].Bytes()|..], p[1..], q[1..]);
      assert p == [p[0]] + p[1..] && q == [q[0]] + q[1..];
    }
  }

  ghost predicate AllScalar(text: seq<int>) {
    forall i :: 0 <= i < |text| ==> IsScalar(text[i])
  }

  function EncodeAll(text: seq<int>): seq<Byte>
    requires AllScalar(text)
  {
    if text == [] then [] else Encode(text[0]) + EncodeAll(text[1..])
  }

  function Runes(text: seq<int>): seq<Piece> {
    seq(|text|, i requires 0 <= i < |text| => Rune(text[i]))
  }

  lemma {:induction false} EncodedReads(text: seq<int>)
    requires AllScalar(text)
    ensures Reading(EncodeAll(text), Runes(text), [])
    decreases |text|
  {
    if text != [] {
      EncodedReads(text[1..]);
      var n := |Encode(text[0])|;
      assert EncodeAll(text)[..n] == Encode(text[0]) && EncodeAll(text)[n..] == EncodeAll(text[1..]);
      assert Runes(text)[1..] == Runes(text[1..]);
    }
  }

  /** Encoded text reads back as itself, up to how its lines end. */
  lemma EncodedRoundTrip(text: seq<int>, pieces: seq<Piece>)
    requires AllScalar(text) && Reading(EncodeAll(text), pieces, [])
    ensures Chars(pieces) == text && Newlines(Chars(pieces)) == Newlines(text)
  {
    EncodedReads(text);
    ReadingIsUnique(EncodeAll(text), pieces, Runes(text));
  }
}
