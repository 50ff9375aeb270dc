/**
 The escaper that the XML reporter writes text and attribute values with. It replaces the characters
 XML gives a meaning to by entities, copies what looks like UTF-8, and writes control characters and
 stray bytes as `\xNN`.
 */
module XmlEncode {

  type Text = seq<bv8>

  const LT: bv8 := 0x3C
  const AMP: bv8 := 0x26
  const GT: bv8 := 0x3E
  const QUOT: bv8 := 0x22
  const BRACKET: bv8 := 0x5D

  const LT_ENTITY: Text := [0x26, 0x6C, 0x74, 0x3B]                  // &lt;
  const AMP_ENTITY: Text := [0x26, 0x61, 0x6D, 0x70, 0x3B]           // &amp;
  const GT_ENTITY: Text := [0x26, 0x67, 0x74, 0x3B]                  // &gt;
  const QUOT_ENTITY: Text := [0x26, 0x71, 0x75, 0x6F, 0x74, 0x3B]    // &quot;

  function HexDigit(n: bv8): bv8 {
    if n < 10 then 0x30 + n else 0x37 + n
  }

  /** A backslash, an x and two upper-case hexadecimal digits. */
  function HexEscape(c: bv8): Text {
    [0x5C, 0x78, HexDigit(c >> 4), HexDigit(c & 0x0F)]
  }

  /** How many bytes the sequence with this lead byte has, itself included. */
  function TrailingBytes(c: bv8): (n: nat)
    requires 0xC0 <= c < 0xF8
    ensures 2 <= n <= 4
  {
    if c & 0xE0 == 0xC0 then 2 else if c & 0xF0 == 0xE0 then 3 else 4
  }

  function HeaderValue(c: bv8): bv8
    requires 0xC0 <= c < 0xF8
  {
    if c & 0xE0 == 0xC0 then c & 0x1F else if c & 0xF0 == 0xE0 then c & 0x0F else c & 0x07
  }

  predicate IsContinuation(c: bv8) {
    c & 0xC0 == 0x80
  }

  /** Six more bits of the code point. */
  function Continue(value: bv32, nc: bv8): bv32 {
    (value << 6) | ((nc & 0x3F) as bv32)
  }

  /** The code point read from the first n bytes of the sequence at idx. */
  function CodePoint(s: Text, idx: nat, n: nat): bv32
    requires 1 <= n && idx + n <= |s| && 0xC0 <= s[idx] < 0xF8
  {
    if n == 1 then HeaderValue(s[idx]) as bv32
    else Continue(CodePoint(s, idx, n - 1), s[idx + n - 1])
  }

  /** The ranges as the code tests them. */
  predicate SaneValue(value: bv32, encBytes: nat) {
    && value >= 0x80
    && !(value < 0x800 && encBytes > 2)
    && !(0x800 < value < 0x10000 && encBytes > 3)
    && value < 0x110000
  }

  predicate GoodSequence(s: Text, idx: nat)
    requires idx < |s| && 0xC0 <= s[idx] < 0xF8
  {
    var n := TrailingBytes(s[idx]);
    && idx + n - 1 < |s|
    && (forall k :: idx < k < idx + n ==> IsContinuation(s[k]))
    && SaneValue(CodePoint(s, idx, n), n)
  }

  predicate IsControl(c: bv8) {
    c < 0x09 || 0x0D < c < 0x20 || c == 0x7F
  }

  /** The bytes that come out as `\xNN`. */
  predicate MustEscape(s: Text, idx: nat)
    requires idx < |s|
  {
    var c := s[idx];
    IsControl(c) || (c >= 0x7F && (c < 0xC0 || c >= 0xF8 || !GoodSequence(s, idx)))
  }

  /** How many input bytes are dealt with at idx. */
  function Width(s: Text, idx: nat): (n: nat)
    requires idx < |s|
    ensures 1 <= n && idx + n <= |s|
    ensures s[idx] < 0xC0 || MustEscape(s, idx) ==> n == 1
  {
    if s[idx] >= 0xC0 && !MustEscape(s, idx) then TrailingBytes(s[idx]) else 1
  }

  /** The condition under which the loop writes `&gt;`. */
  predicate EndsCdata(s: Text, idx: nat)
    requires idx < |s|
  {
    idx > 2 && s[idx - 1] == BRACKET && s[idx - 2] == BRACKET
  }

  /** What is written for the bytes at idx. */
  function Piece(s: Text, idx: nat, forAttributes: bool): Text
    requires idx < |s|
  {
    var c := s[idx];
    if c == LT then LT_ENTITY
    else if c == AMP then AMP_ENTITY
    else if c == GT && EndsCdata(s, idx) then GT_ENTITY
    else if c == QUOT && forAttributes then QUOT_ENTITY
    else if MustEscape(s, idx) then HexEscape(c)
    else s[idx..idx + Width(s, idx)]
  }

  function Encode(s: Text, idx: nat, forAttributes: bool): Text
    requires idx <= |s|
    decreases |s| - idx
  {
    if idx == |s| then [] else Piece(s, idx, forAttributes) + Encode(s, idx + Width(s, idx), forAttributes)
  }

  lemma EncodeStep(s: Text, idx: nat, forAttributes: bool)
    requires idx < |s|
    ensures Encode(s, idx, forAttributes) ==
            Piece(s, idx, forAttributes) + Encode(s, idx + Width(s, idx), forAttributes)
  {}

  lemma EncodeEnd(s: Text, forAttributes: bool)
    ensures Encode(s, |s|, forAttributes) == []
  {}

  lemma CodePointStart(s: Text, idx: nat)
    requires idx < |s| && 0xC0 <= s[idx] < 0xF8
    ensures CodePoint(s, idx, 1) == HeaderValue(s[idx]) as bv32
  {}

  lemma CodePointStep(s: Text, idx: nat, n: nat)
    requires 2 <= n && idx + n <= |s| && 0xC0 <= s[idx] < 0xF8
    ensures CodePoint(s, idx, n) == Continue(CodePoint(s, idx, n - 1), s[idx + n - 1])
  {}

  lemma SaneValueMeans(value: bv32, encBytes: nat)
    ensures SaneValue(value, encBytes) <==>
            !(value < 0x80 || (value < 0x800 && encBytes > 2)
              || (0x800 < value && value < 0x10000 && encBytes > 3) || value >= 0x110000)
  {}

  /** The loop over the bytes that follow a lead byte. */
  method ReadSequence(s: Text, idx: nat, encBytes: nat) returns (valid: bool, value: bv32)
    requires 1 <= encBytes && idx + encBytes <= |s| && 0xC0 <= s[idx] < 0xF8
    ensures valid <==> forall k :: idx < k < idx + encBytes ==> IsContinuation(s[k])
    ensures value == CodePoint(s, idx, encBytes)
  {
    hide CodePoint, HeaderValue, Continue, IsContinuation;
    CodePointStart(s, idx);
    valid := true;
    value := HeaderValue(s[idx]) as bv32;
    for n := 1 to encBytes
      invariant valid <==> forall k :: idx < k < idx + n ==> IsContinuation(s[k])
      invariant value == CodePoint(s, idx, n)
    {
      var nc := s[idx + n];
      valid := valid && IsContinuation(nc);
      CodePointStep(s, idx, n + 1);
      value := Continue(value, nc);
    }
  }

  method CheckSequence(s: Text, idx: nat) returns (good: bool, encBytes: nat)
    requires idx < |s| && 0xC0 <= s[idx] < 0xF8
    ensures good <==> GoodSequence(s, idx)
    ensures encBytes == TrailingBytes(s[idx]) && (good ==> idx + encBytes <= |s|)
  {
    hide SaneValue, CodePoint, TrailingBytes, HeaderValue;
    encBytes := TrailingBytes(s[idx]);
    if idx + encBytes - 1 >= |s| {
      return false, encBytes;
    }
    var valid, value := ReadSequence(s, idx, encBytes);
    SaneValueMeans(value, encBytes);
    good := !(!valid || value < 0x80 || (value < 0x800 && encBytes > 2)
              || (0x800 < value && value < 0x10000 && encBytes > 3) || value >= 0x110000);
  }

  /** What the loop writes for the byte at idx, and how many more bytes it skips. */
  method EncodeByte(s: Text, idx: nat, forAttributes: bool) returns (written: Text, skip: nat)
    requires idx < |s|
    ensures written == Piece(s, idx, forAttributes) && skip + 1 == Width(s, idx)
  {
    hide GoodSequence, HexEscape, TrailingBytes;
    var c := s[idx];
    assert s[idx..idx + 1] == [c];
    skip := 0;
    if c == LT {
      written := LT_ENTITY;
    } else if c == AMP {
      written := AMP_ENTITY;
    } else if c == GT {
      written := if idx > 2 && s[idx - 1] == BRACKET && s[idx - 2] == BRACKET then GT_ENTITY else [c];
    } else if c == QUOT {
      written := if forAttributes then QUOT_ENTITY else [c];
    } else if c < 0x09 || (c > 0x0D && c < 0x20) || c == 0x7F {
      written := HexEscape(c);
    } else if c < 0x7F {
      written := [c];
    } else if c < 0xC0 || c >= 0xF8 {
      written := HexEscape(c);
    } else {
      var good, encBytes := CheckSequence(s, idx);
      if good {
        written := s[idx..idx + encBytes];
        skip := encBytes - 1;
      } else {
        written := HexEscape(c);
      }
    }
  }

  method EncodeTo(s: Text, forAttributes: bool) returns (os: Text)
    ensures os == Encode(s, 0, forAttributes)
  {
    hide Encode, Piece, Width;
    os := [];
    EncodeEnd(s, forAttributes);
    var idx := 0;
    while idx < |s|
      invariant 0 <= idx <= |s|
      invariant Encode(s, 0, forAttributes) == os + Encode(s, idx, forAttributes)
      decreases |s| - idx
    {
      EncodeStep(s, idx, forAttributes);
      var written, skip := EncodeByte(s, idx, forAttributes);
      os := os + written;
      idx := idx + 1 + skip;
    }
  }

  // ---------- the output is safe to put into XML ----------

  /** `&lt;`, `&amp;`, `&gt;` or `&quot;`. */
  predicate StartsEntity(out: Text) {
    || [0x26, 0x6C, 0x74, 0x3B] <= out || [0x26, 0x61, 0x6D, 0x70, 0x3B] <= out
    || [0x26, 0x67, 0x74, 0x3B] <= out || [0x26, 0x71, 0x75, 0x6F, 0x74, 0x3B] <= out
  }

  /** No raw `<`, no `&` but at the start of an entity, and in an attribute no raw quote. */
  ghost predicate Safe(out: Text, forAttributes: bool) {
    forall i :: 0 <= i < |out| ==>
      && out[i] != 0x3C
      && (out[i] == 0x26 ==> StartsEntity(out[i..]))
      && (forAttributes ==> out[i] != 0x22)
  }

  lemma SafeConcat(a: Text, b: Text, forAttributes: bool)
    requires Safe(a, forAttributes) && Safe(b, forAttributes)
    ensures Safe(a + b, forAttributes)
  {}

  lemma HexIsPlain(c: bv8)
    ensures forall k :: 0 <= k < 4 ==> HexEscape(c)[k] != LT && HexEscape(c)[k] != AMP && HexEscape(c)[k] != QUOT
  {}

  /** A byte copied as it is was none of the special ones, or it is a quote outside attributes. */
  lemma CopiedIsPlain(s: Text, idx: nat, k: nat)
    requires idx < |s| && k < Width(s, idx)
    requires s[idx] != LT && s[idx] != AMP && !MustEscape(s, idx)
    ensures s[idx + k] != LT && s[idx + k] != AMP && (s[idx + k] == QUOT ==> k == 0)
  {}

  lemma PieceIsSafe(s: Text, idx: nat, forAttributes: bool)
    requires idx < |s|
    ensures Safe(Piece(s, idx, forAttributes), forAttributes)
  {
    HexIsPlain(s[idx]);
    var out := Piece(s, idx, forAttributes);
    if s[idx] != LT && s[idx] != AMP && !MustEscape(s, idx) && out == s[idx..idx + Width(s, idx)] {
      forall k | 0 <= k < |out|
        ensures out[k] != LT && out[k] != AMP && (out[k] == QUOT ==> k == 0)
      {
        CopiedIsPlain(s, idx, k);
      }
    }
  }

  lemma {:induction false} EncodedIsSafe(s: Text, idx: nat, forAttributes: bool)
    requires idx <= |s|
    ensures Safe(Encode(s, idx, forAttributes), forAttributes)
    decreases |s| - idx
  {
    hide Encode, Piece, Width, StartsEntity;
    if idx == |s| {
      EncodeEnd(s, forAttributes);
    } else {
      var next := idx + Width(s, idx);
      PieceIsSafe(s, idx, forAttributes);
      EncodedIsSafe(s, next, forAttributes);
      EncodeStep(s, idx, forAttributes);
      SafeConcat(Piece(s, idx, forAttributes), Encode(s, next, forAttributes), forAttributes);
    }
  }

  // ---------- the end of a CDATA section ----------

  predicate CdataEndAt(out: Text, i: nat) {
    i + 2 < |out| && out[i] == 0x5D && out[i + 1] == 0x5D && out[i + 2] == 0x3E
  }

  /** A bracket and a raw `>` come out only as the single byte they were. */
  lemma PieceBytes(s: Text, idx: nat, forAttributes: bool)
    requires idx < |s|
    ensures var piece := Piece(s, idx, forAttributes);
            && piece != []
            && (s[idx] == BRACKET || s[idx] == GT ==> Width(s, idx) == 1)
            && (if s[idx] == BRACKET then piece == [BRACKET]
                else if s[idx] == GT && !EndsCdata(s, idx) then piece == [GT]
                else piece[0] != GT && forall k :: 0 <= k < |piece| ==> piece[k] != BRACKET)
  {}

  /** What the output from idx on begins with. */
  lemma EncodeBegins(s: Text, idx: nat, forAttributes: bool)
    requires idx <= |s|
    ensures var out := Encode(s, idx, forAttributes);
            && (out != [] && out[0] == BRACKET <==> idx < |s| && s[idx] == BRACKET)
            && (out != [] && out[0] == GT <==> idx < |s| && s[idx] == GT && !EndsCdata(s, idx))
            && (idx < |s| && s[idx] == BRACKET ==> out == [BRACKET] + Encode(s, idx + 1, forAttributes))
  {
    hide Piece, Width, EndsCdata, Encode;
    if idx < |s| {
      PieceBytes(s, idx, forAttributes);
      EncodeStep(s, idx, forAttributes);
    } else {
      EncodeEnd(s, forAttributes);
    }
  }

  lemma BeginsWithCdataEnd(s: Text, idx: nat, forAttributes: bool)
    requires idx <= |s|
    ensures CdataEndAt(Encode(s, idx, forAttributes), 0) <==> idx == 0 && CdataEndAt(s, 0)
  {
    hide Encode;
    EncodeBegins(s, idx, forAttributes);
    if idx < |s| && s[idx] == BRACKET {
      EncodeBegins(s, idx + 1, forAttributes);
      if idx + 1 < |s| && s[idx + 1] == BRACKET {
        EncodeBegins(s, idx + 2, forAttributes);
      }
    }
  }

  lemma {:induction false} CdataEndsFrom(s: Text, idx: nat, forAttributes: bool, i: nat)
    requires idx <= |s|
    ensures CdataEndAt(Encode(s, idx, forAttributes), i) <==> i == 0 && idx == 0 && CdataEndAt(s, 0)
    decreases |s| - idx
  {
    hide Piece, Width;
    BeginsWithCdataEnd(s, idx, forAttributes);
    if i > 0 && idx < |s| {
      PieceBytes(s, idx, forAttributes);
      var piece, next := Piece(s, idx, forAttributes), idx + Width(s, idx);
      if i >= |piece| {
        CdataEndsFrom(s, next, forAttributes, i - |piece|);
      }
    }
  }

  /** `]]>` never comes out raw, but from a text that begins with it. */
  lemma RawCdataEndIff(s: Text, forAttributes: bool)
    ensures (exists i: nat :: CdataEndAt(Encode(s, 0, forAttributes), i)) <==> CdataEndAt(s, 0)
  {
    forall i: nat
      ensures CdataEndAt(Encode(s, 0, forAttributes), i) <==> i == 0 && CdataEndAt(s, 0)
    {
      CdataEndsFrom(s, 0, forAttributes, i);
    }
    if CdataEndAt(s, 0) {
      assert CdataEndAt(Encode(s, 0, forAttributes), 0);
    }
  }

  // ---------- control bytes ----------

  /** Section 2.2 of XML 1.0 allows no control character below the space but tab and the two line ends. */
  predicate IsForbidden(c: bv8) {
    c < 0x20 && c != 0x09 && c != 0x0A && c != 0x0D
  }

  /** The vertical tab and the form feed, which the loop takes for plain characters. */
  predicate SlipsThrough(c: bv8) {
    c == 0x0B || c == 0x0C
  }

  ghost predicate HasForbidden(out: Text) {
    exists i :: 0 <= i < |out| && IsForbidden(out[i])
  }

  ghost predicate HasSlip(s: Text, idx: nat) {
    exists i :: idx <= i < |s| && SlipsThrough(s[i])
  }

  lemma HexIsAllowed(c: bv8)
    ensures forall k :: 0 <= k < 4 ==> !IsForbidden(HexEscape(c)[k])
  {
    assert c >> 4 < 16 && c & 0x0F < 16;
  }

  lemma SkippedIsHigh(s: Text, idx: nat, k: nat)
    requires idx < |s| && 0 < k < Width(s, idx)
    ensures s[idx + k] >= 0x80
  {
    assert IsContinuation(s[idx + k]);
    assert s[idx + k] & 0xC0 == 0x80;
  }

  lemma PieceForbids(s: Text, idx: nat, forAttributes: bool)
    requires idx < |s|
    ensures HasForbidden(Piece(s, idx, forAttributes)) <==> SlipsThrough(s[idx])
  {
    hide GoodSequence;
    var piece := Piece(s, idx, forAttributes);
    if MustEscape(s, idx) {
      HexIsAllowed(s[idx]);
    } else {
      forall k | 0 < k < |piece|
        ensures !IsForbidden(piece[k])
      {
        if piece == s[idx..idx + Width(s, idx)] {
          SkippedIsHigh(s, idx, k);
        }
      }
      if SlipsThrough(s[idx]) {
        assert IsForbidden(piece[0]);
      }
    }
  }

  lemma SlipAtOrAfter(s: Text, idx: nat)
    requires idx < |s|
    ensures HasSlip(s, idx) <==> SlipsThrough(s[idx]) || HasSlip(s, idx + Width(s, idx))
  {
    hide Width;
    if i :| idx <= i < |s| && SlipsThrough(s[i]) {
      if idx < i < idx + Width(s, idx) {
        SkippedIsHigh(s, idx, i - idx);
        assert false;
      }
    }
  }

  lemma ForbiddenConcat(a: Text, b: Text)
    ensures HasForbidden(a + b) <==> HasForbidden(a) || HasForbidden(b)
  {
    if i :| 0 <= i < |a| && IsForbidden(a[i]) {
      assert (a + b)[i] == a[i];
    }
    if i :| 0 <= i < |b| && IsForbidden(b[i]) {
      assert (a + b)[|a| + i] == b[i];
    }
  }

  lemma {:induction false} ForbiddenFrom(s: Text, idx: nat, forAttributes: bool)
    requires idx <= |s|
    ensures HasForbidden(Encode(s, idx, forAttributes)) <==> HasSlip(s, idx)
    decreases |s| - idx
  {
    hide HasForbidden, HasSlip, Piece, Width, SlipsThrough;
    if idx == |s| {
      NothingForbidden(s, forAttributes);
    } else {
      var next := idx + Width(s, idx);
      ForbiddenFrom(s, next, forAttributes);
      PieceForbids(s, idx, forAttributes);
      SlipAtOrAfter(s, idx);
      ForbiddenConcat(Piece(s, idx, forAttributes), Encode(s, next, forAttributes));
    }
  }

  lemma NothingForbidden(s: Text, forAttributes: bool)
    ensures !HasForbidden(Encode(s, |s|, forAttributes)) && !HasSlip(s, |s|)
  {}

  /** The output holds a control byte that XML forbids, if and only if the text holds 0x0B or 0x0C. */
  lemma RawControlIff(s: Text, forAttributes: bool)
    ensures HasForbidden(Encode(s, 0, forAttributes)) <==> exists i :: 0 <= i < |s| && (s[i] == 0x0B || s[i] == 0x0C)
  {
    ForbiddenFrom(s, 0, forAttributes);
    if i :| 0 <= i < |s| && (s[i] == 0x0B || s[i] == 0x0C) {
      assert SlipsThrough(s[i]);
    }
  }

  // ---------- decoding gives the text back ----------

  /** What an XML reader makes of `&lt;`, `&amp;`, `&gt;` and `&quot;`. */
  function Decode(out: Text): Text {
    if out == [] then []
    else if [0x26, 0x6C, 0x74, 0x3B] <= out then [0x3C] + Decode(out[4..])
    else if [0x26, 0x61, 0x6D, 0x70, 0x3B] <= out then [0x26] + Decode(out[5..])
    else if [0x26, 0x67, 0x74, 0x3B] <= out then [0x3E] + Decode(out[4..])
    else if [0x26, 0x71, 0x75, 0x6F, 0x74, 0x3B] <= out then [0x22] + Decode(out[6..])
    else [out[0]] + Decode(out[1..])
  }

  lemma DecodeByte(c: bv8, rest: Text)
    requires c != AMP
    ensures Decode([c] + rest) == [c] + Decode(rest)
  {
    assert ([c] + rest)[0] == c && ([c] + rest)[1..] == rest;
  }

  lemma {:induction false} DecodePlain(plain: Text, rest: Text)
    requires forall k :: 0 <= k < |plain| ==> plain[k] != AMP
    ensures Decode(plain + rest) == plain + Decode(rest)
  {
    hide Decode;
    if plain == [] {
      assert plain + rest == rest;
    } else {
      DecodePlain(plain[1..], rest);
      DecodeByte(plain[0], plain[1..] + rest);
      assert plain + rest == [plain[0]] + (plain[1..] + rest);
    }
  }

  lemma DecodeEntities(rest: Text)
    ensures Decode(LT_ENTITY + rest) == [LT] + Decode(rest)
    ensures Decode(AMP_ENTITY + rest) == [AMP] + Decode(rest)
    ensures Decode(GT_ENTITY + rest) == [GT] + Decode(rest)
    ensures Decode(QUOT_ENTITY + rest) == [QUOT] + Decode(rest)
  {
    assert (LT_ENTITY + rest)[4..] == rest && (GT_ENTITY + rest)[4..] == rest;
    assert (AMP_ENTITY + rest)[5..] == rest && (QUOT_ENTITY + rest)[6..] == rest;
    assert (AMP_ENTITY + rest)[1] == 0x61 && (GT_ENTITY + rest)[1] == 0x67 && (QUOT_ENTITY + rest)[1] == 0x71;
  }

  /** The text with only its bad bytes replaced. */
  function Sanitized(s: Text, idx: nat): Text
    requires idx <= |s|
    decreases |s| - idx
  {
    if idx == |s| then [] else SanitizedPiece(s, idx) + Sanitized(s, idx + Width(s, idx))
  }

  function SanitizedPiece(s: Text, idx: nat): Text
    requires idx < |s|
  {
    if MustEscape(s, idx) then HexEscape(s[idx]) else s[idx..idx + Width(s, idx)]
  }

  /** How many bytes the loop escapes. */
  function Escapes(s: Text, idx: nat): nat
    requires idx <= |s|
    decreases |s| - idx
  {
    if idx == |s| then 0 else (if MustEscape(s, idx) then 1 else 0) + Escapes(s, idx + Width(s, idx))
  }

  /** A piece that is not an entity holds no ampersand and is what it stands for. */
  lemma PieceMeans(s: Text, idx: nat, forAttributes: bool)
    requires idx < |s|
    ensures var piece := Piece(s, idx, forAttributes);
            if s[idx] == LT then piece == LT_ENTITY && SanitizedPiece(s, idx) == [LT]
            else if s[idx] == AMP then piece == AMP_ENTITY && SanitizedPiece(s, idx) == [AMP]
            else if piece == GT_ENTITY then SanitizedPiece(s, idx) == [GT]
            else if piece == QUOT_ENTITY then SanitizedPiece(s, idx) == [QUOT]
            else piece == SanitizedPiece(s, idx) && forall k :: 0 <= k < |piece| ==> piece[k] != AMP
  {
    hide GoodSequence;
    HexIsPlain(s[idx]);
    var piece := Piece(s, idx, forAttributes);
    if s[idx] != LT && s[idx] != AMP && !MustEscape(s, idx) && piece == SanitizedPiece(s, idx) {
      forall k | 0 <= k < |piece|
        ensures piece[k] != AMP
      {
        CopiedIsPlain(s, idx, k);
      }
    }
  }

  lemma DecodePiece(s: Text, idx: nat, forAttributes: bool, rest: Text)
    requires idx < |s|
    ensures Decode(Piece(s, idx, forAttributes) + rest) == SanitizedPiece(s, idx) + Decode(rest)
  {
    PieceMeans(s, idx, forAttributes);
    DecodeEntities(rest);
    hide Decode, Piece, SanitizedPiece;
    var piece := Piece(s, idx, forAttributes);
    if s[idx] != LT && s[idx] != AMP && piece != GT_ENTITY && piece != QUOT_ENTITY {
      DecodePlain(piece, rest);
    }
  }

  lemma {:induction false} DecodeEncodeFrom(s: Text, idx: nat, forAttributes: bool)
    requires idx <= |s|
    ensures Decode(Encode(s, idx, forAttributes)) == Sanitized(s, idx)
    decreases |s| - idx
  {
    hide Piece, SanitizedPiece, Width, Encode, Decode;
    if idx == |s| {
      EncodeEnd(s, forAttributes);
      DecodeNothing();
    } else {
      var next := idx + Width(s, idx);
      EncodeStep(s, idx, forAttributes);
      DecodeEncodeFrom(s, next, forAttributes);
      DecodePiece(s, idx, forAttributes, Encode(s, next, forAttributes));
    }
  }

  lemma DecodeNothing()
    ensures Decode([]) == []
  {}

  lemma PieceLength(s: Text, idx: nat)
    requires idx < |s|
    ensures |SanitizedPiece(s, idx)| == Width(s, idx) + if MustEscape(s, idx) then 3 else 0
  {}

  lemma {:induction false} SanitizedLength(s: Text, idx: nat)
    requires idx <= |s|
    ensures |Sanitized(s, idx)| == |s| - idx + 3 * Escapes(s, idx)
    decreases |s| - idx
  {
    hide MustEscape, Width, SanitizedPiece;
    if idx < |s| {
      PieceLength(s, idx);
      SanitizedLength(s, idx + Width(s, idx));
    }
  }

  lemma {:induction false} CleanIsUnchanged(s: Text, idx: nat)
    requires idx <= |s| && Escapes(s, idx) == 0
    ensures Sanitized(s, idx) == s[idx..]
    decreases |s| - idx
  {
    hide MustEscape, Width;
    if idx < |s| {
      var next := idx + Width(s, idx);
      CleanIsUnchanged(s, next);
      assert s[idx..] == s[idx..next] + s[next..];
    }
  }

  /**
   Reading the output back gives the text with its control characters and stray bytes spelled out; it
   gives the very text if and only if the loop has nothing to escape.
   */
  lemma RoundTrip(s: Text, forAttributes: bool)
    ensures Decode(Encode(s, 0, forAttributes)) == Sanitized(s, 0)
    ensures Decode(Encode(s, 0, forAttributes)) == s <==> Escapes(s, 0) == 0
  {
    DecodeEncodeFrom(s, 0, forAttributes);
    SanitizedLength(s, 0);
    if Escapes(s, 0) == 0 {
      CleanIsUnchanged(s, 0);
      assert s[0..] == s;
    }
  }

  // ---------- reading the escapes back ----------

  predicate IsHexDigit(d: bv8) {
    0x30 <= d <= 0x39 || 0x41 <= d <= 0x46
  }

  /** The digits `0` to `9` and `A` to `F`. */
  function HexValue(d: bv8): bv8 {
    if d <= 0x39 then d - 0x30 else d - 0x41 + 10
  }

  predicate StartsEscape(out: Text) {
    |out| >= 4 && out[0] == 0x5C && out[1] == 0x78 && IsHexDigit(out[2]) && IsHexDigit(out[3])
  }

  /** Every `\xNN` replaced by the byte it names. */
  function Unescape(out: Text): Text {
    if out == [] then []
    else if StartsEscape(out) then [16 * HexValue(out[2]) + HexValue(out[3])] + Unescape(out[4..])
    else [out[0]] + Unescape(out[1..])
  }

  /** The digits read back. */
  lemma HexReadsBack(c: bv8)
    ensures StartsEscape(HexEscape(c)) && |HexEscape(c)| == 4
    ensures var d1, d0 := HexValue(HexEscape(c)[2]), HexValue(HexEscape(c)[3]);
            d1 < 16 && d0 < 16 && 16 * d1 + d0 == c && 16 * (d1 as int) + (d0 as int) == c as int
  {
    assert c >> 4 < 16 && c & 0x0F < 16;
    assert 16 * (c >> 4) + (c & 0x0F) == c;
  }

  lemma UnescapeHex(c: bv8, rest: Text)
    ensures Unescape(HexEscape(c) + rest) == [c] + Unescape(rest)
  {
    HexReadsBack(c);
    var out := HexEscape(c) + rest;
    assert out[4..] == rest && out[..4] == HexEscape(c);
    assert StartsEscape(out);
  }

  lemma {:induction false} UnescapePlain(plain: Text, rest: Text)
    requires forall k :: 0 <= k < |plain| ==> plain[k] != 0x5C
    ensures Unescape(plain + rest) == plain + Unescape(rest)
  {
    if plain == [] {
      assert plain + rest == rest;
    } else {
      UnescapePlain(plain[1..], rest);
      UnescapeByte(plain[0], plain[1..] + rest);
      assert plain + rest == [plain[0]] + (plain[1..] + rest);
      hide Unescape;
    }
  }

  lemma UnescapeByte(c: bv8, rest: Text)
    requires c != 0x5C
    ensures Unescape([c] + rest) == [c] + Unescape(rest)
  {
    assert ([c] + rest)[0] == c && ([c] + rest)[1..] == rest;
  }

  lemma {:induction false} UnescapeSanitized(s: Text, idx: nat)
    requires idx <= |s| && 0x5C !in s
    ensures Unescape(Sanitized(s, idx)) == s[idx..]
    decreases |s| - idx
  {
    hide Unescape, MustEscape, Width, HexEscape;
    if idx == |s| {
      UnescapeNothing();
    } else {
      var next := idx + Width(s, idx);
      UnescapeSanitized(s, next);
      EscapedWidth(s, idx);
      if MustEscape(s, idx) {
        UnescapeHex(s[idx], Sanitized(s, next));
      } else {
        UnescapePlain(s[idx..next], Sanitized(s, next));
      }
      assert s[idx..] == s[idx..next] + s[next..];
    }
  }

  lemma EscapedWidth(s: Text, idx: nat)
    requires idx < |s|
    ensures MustEscape(s, idx) ==> Width(s, idx) == 1
  {
    hide GoodSequence;
  }

  lemma UnescapeNothing()
    ensures Unescape([]) == []
  {}

  /** A text without backslashes comes back when the entities and the escapes are read. */
  lemma ReadsBack(s: Text, forAttributes: bool)
    requires 0x5C !in s
    ensures Unescape(Decode(Encode(s, 0, forAttributes))) == s
  {
    hide Decode, Encode, Unescape, Sanitized;
    DecodeEncodeFrom(s, 0, forAttributes);
    UnescapeSanitized(s, 0);
    assert s[0..] == s;
  }

  // ---------- which sequences the code takes for UTF-8 ----------

  predicate Follows(s: Text, k: nat) {
    k < |s| && 0x80 <= s[k] <= 0xBF
  }

  /**
   The sequences of the Unicode standard, with two more: those of surrogates, and the overlong
   F0 80 A0 80 for U+0800, since one comparison of the code is strict where the others are not.
   */
  predicate TakenForUtf8(s: Text, idx: nat)
    requires idx < |s|
  {
    var c := s[idx];
    || (0xC2 <= c <= 0xDF && Follows(s, idx + 1))
    || (0xE0 <= c <= 0xEF && Follows(s, idx + 1) && Follows(s, idx + 2) && (c == 0xE0 ==> s[idx + 1] >= 0xA0))
    || (0xF0 <= c <= 0xF4 && Follows(s, idx + 1) && Follows(s, idx + 2) && Follows(s, idx + 3)
        && (c == 0xF4 ==> s[idx + 1] <= 0x8F)
        && (c == 0xF0 ==> s[idx + 1] >= 0x90 || (s[idx + 1] == 0x80 && s[idx + 2] == 0xA0 && s[idx + 3] == 0x80)))
  }

  lemma ContinuationIff(c: bv8)
    ensures IsContinuation(c) <==> 0x80 <= c <= 0xBF
  {
    assert c & 0xC0 == 0x80 <==> 0x80 <= c <= 0xBF;
  }

  lemma LeadBytes(c: bv8)
    requires 0xC0 <= c < 0xF8
    ensures TrailingBytes(c) == if c < 0xE0 then 2 else if c < 0xF0 then 3 else 4
    ensures HeaderValue(c) == if c < 0xE0 then c - 0xC0 else if c < 0xF0 then c - 0xE0 else c - 0xF0
  {
    assert c & 0xE0 == 0xC0 <==> c < 0xE0;
    assert c & 0xF0 == 0xE0 <==> 0xE0 <= c < 0xF0;
  }

  /** The code point in arithmetic. */
  lemma ContinueMeans(value: bv32, c: bv8)
    requires value < 0x10000 && 0x80 <= c <= 0xBF
    ensures Continue(value, c) == 64 * value + ((c - 0x80) as bv32)
  {
    assert (c & 0x3F) == c - 0x80;
  }
  lemma TwoBytes(c: bv8, b1: bv8)
    requires 0xC0 <= c < 0xE0 && 0x80 <= b1 <= 0xBF
    ensures SaneValue(Continue(HeaderValue(c) as bv32, b1), 2) <==> c >= 0xC2
  {
    LeadBytes(c);
    ContinueMeans(HeaderValue(c) as bv32, b1);
    hide Continue, HeaderValue;
  }

  lemma ThreeBytes(c: bv8, b1: bv8, b2: bv8)
    requires 0xE0 <= c < 0xF0 && 0x80 <= b1 <= 0xBF && 0x80 <= b2 <= 0xBF
    ensures SaneValue(Continue(Continue(HeaderValue(c) as bv32, b1), b2), 3) <==> (c == 0xE0 ==> b1 >= 0xA0)
  {
    LeadBytes(c);
    ContinueMeans(HeaderValue(c) as bv32, b1);
    ContinueMeans(Continue(HeaderValue(c) as bv32, b1), b2);
    hide Continue, HeaderValue;
  }

  lemma FourBytes(c: bv8, b1: bv8, b2: bv8, b3: bv8)
    requires 0xF0 <= c < 0xF8 && 0x80 <= b1 <= 0xBF && 0x80 <= b2 <= 0xBF && 0x80 <= b3 <= 0xBF
    ensures SaneValue(Continue(Continue(Continue(HeaderValue(c) as bv32, b1), b2), b3), 4) <==>
            c <= 0xF4 && (c == 0xF4 ==> b1 <= 0x8F)
            && (c == 0xF0 ==> b1 >= 0x90 || (b1 == 0x80 && b2 == 0xA0 && b3 == 0x80))
  {
    LeadBytes(c);
    var v1 := Continue(HeaderValue(c) as bv32, b1);
    ContinueMeans(HeaderValue(c) as bv32, b1);
    ContinueMeans(v1, b2);
    ContinueMeans(Continue(v1, b2), b3);
    hide Continue, HeaderValue;
  }

  lemma CodePoints(s: Text, idx: nat)
    requires idx < |s| && 0xC0 <= s[idx] < 0xF8
    ensures var v := HeaderValue(s[idx]) as bv32;
            && (idx + 2 <= |s| ==> CodePoint(s, idx, 2) == Continue(v, s[idx + 1]))
            && (idx + 3 <= |s| ==> CodePoint(s, idx, 3) == Continue(Continue(v, s[idx + 1]), s[idx + 2]))
            && (idx + 4 <= |s| ==>
                 CodePoint(s, idx, 4) == Continue(Continue(Continue(v, s[idx + 1]), s[idx + 2]), s[idx + 3]))
  {
    hide Continue, HeaderValue;
    CodePointStart(s, idx);
  }

  /** What the code copies, byte range by byte range. */
  lemma GoodSequenceIff(s: Text, idx: nat)
    requires idx < |s| && 0xC0 <= s[idx] < 0xF8
    ensures GoodSequence(s, idx) <==> TakenForUtf8(s, idx)
  {
    hide CodePoint, Continue, HeaderValue, TrailingBytes, SaneValue, IsContinuation;
    var c := s[idx];
    LeadBytes(c);
    CodePoints(s, idx);
    var n := TrailingBytes(c);
    if idx + n <= |s| {
      AllFollow(s, idx, n);
      if forall k :: idx < k < idx + n ==> Follows(s, k) {
        assert Follows(s, idx + 1) && (n > 2 ==> Follows(s, idx + 2)) && (n > 3 ==> Follows(s, idx + 3));
        if n == 2 {
          TwoBytes(c, s[idx + 1]);
        } else if n == 3 {
          ThreeBytes(c, s[idx + 1], s[idx + 2]);
        } else {
          FourBytes(c, s[idx + 1], s[idx + 2], s[idx + 3]);
        }
      }
    }
  }

  lemma AllFollow(s: Text, idx: nat, n: nat)
    requires idx + n <= |s|
    ensures (forall k :: idx < k < idx + n ==> IsContinuation(s[k]))
            <==> forall k :: idx < k < idx + n ==> Follows(s, k)
  {
    forall k | idx < k < idx + n
      ensures IsContinuation(s[k]) <==> Follows(s, k)
    {
      ContinuationIff(s[k]);
    }
  }

  /** Which bytes come out as `\xNN`, in the code's own ranges. */
  lemma EscapedIff(s: Text, idx: nat)
    requires idx < |s|
    ensures MustEscape(s, idx) <==>
            var c := s[idx];
            c < 0x09 || 0x0E <= c < 0x20 || 0x7F <= c < 0xC0 || c >= 0xF8 || (0xC0 <= c && !TakenForUtf8(s, idx))
  {
    if 0xC0 <= s[idx] < 0xF8 {
      GoodSequenceIff(s, idx);
    }
    hide GoodSequence, TakenForUtf8;
  }
}
