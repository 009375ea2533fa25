/** Base64url without padding (RFC 4648 section 5): the encoder, the lenient standard decoder, and
    the token service's decoder, which accepts one text per byte string. */
module Base64Url {
  import opened Prelude

  type Byte = x: int | 0 <= x < 256
  type Bytes = seq<Byte>
  type Sextet = x: int | 0 <= x < 64

  function Digit(v: Sextet): char {
    if v < 26 then ('A' as int + v) as char
    else if v < 52 then ('a' as int + (v - 26)) as char
    else if v < 62 then ('0' as int + (v - 52)) as char
    else if v == 62 then '-'
    else '_'
  }

  function Value(c: char): Option<Sextet> {
    if 'A' <= c <= 'Z' then Some(c as int - 'A' as int)
    else if 'a' <= c <= 'z' then Some(c as int - 'a' as int + 26)
    else if '0' <= c <= '9' then Some(c as int - '0' as int + 52)
    else if c == '-' then Some(62)
    else if c == '_' then Some(63)
    else None
  }

  function Encode(b: Bytes): string {
    if b == [] then ""
    else if |b| == 1 then [Digit(b[0] / 4), Digit(b[0] % 4 * 16)]
    else if |b| == 2 then [Digit(b[0] / 4), Digit(b[0] % 4 * 16 + b[1] / 16), Digit(b[1] % 16 * 4)]
    else
      [Digit(b[0] / 4), Digit(b[0] % 4 * 16 + b[1] / 16), Digit(b[1] % 16 * 4 + b[2] / 64), Digit(b[2] % 64)]
      + Encode(b[3..])
  }

  /** Leftover bits of a final group are ignored, and one leftover character is an error. */
  function DecodeGroups(t: string): Option<Bytes> {
    if t == "" then Some([])
    else if |t| == 1 then None
    else
      var v0 :- Value(t[0]);
      var v1 :- Value(t[1]);
      if |t| == 2 then Some([v0 * 4 + v1 / 16]) else
      var v2 :- Value(t[2]);
      if |t| == 3 then Some([v0 * 4 + v1 / 16, v1 % 16 * 16 + v2 / 4]) else
      var v3 :- Value(t[3]);
      var rest :- DecodeGroups(t[4..]);
      Some([v0 * 4 + v1 / 16, v1 % 16 * 16 + v2 / 4, v2 % 4 * 64 + v3] + rest)
  }

  function WithoutLineBreaks(t: string): string {
    if t == "" then ""
    else (if t[0] == '\r' || t[0] == '\n' then "" else [t[0]]) + WithoutLineBreaks(t[1..])
  }

  /** The standard decoder: line breaks anywhere are skipped. */
  function DecodeString(t: string): Option<Bytes> {
    DecodeGroups(WithoutLineBreaks(t))
  }

  datatype PartError = InvalidEncoding | TooLarge

  function DecodeCompactPart(part: string, maxLength: nat): Result<Bytes, PartError> {
    if |part| > maxLength * 2 || '=' in part then Err(InvalidEncoding) else
    var decoded := DecodeString(part);
    if decoded.None? || Encode(decoded.value) != part then Err(InvalidEncoding)
    else if |decoded.value| > maxLength then Err(TooLarge)
    else Ok(decoded.value)
  }

  // ---------------------------------------------------------------- properties

  lemma DigitHasValue(v: Sextet)
    ensures Value(Digit(v)) == Some(v)
    ensures Digit(v) != '=' && Digit(v) != '.' && Digit(v) != '\r' && Digit(v) != '\n'
  {
  }

  /** Encoded text consists of alphabet characters only. */
  predicate InAlphabet(t: string) {
    forall i :: 0 <= i < |t| ==> Value(t[i]).Some?
  }

  lemma {:induction false} EncodedLength(b: Bytes)
    ensures |Encode(b)| == (4 * |b| + 2) / 3
    decreases |b|
  {
    if |b| >= 3 {
      EncodedLength(b[3..]);
    }
  }

  lemma {:induction false} EncodedIsInAlphabet(b: Bytes)
    ensures InAlphabet(Encode(b))
    decreases |b|
  {
    forall v: Sextet
      ensures Value(Digit(v)).Some?
    {
      DigitHasValue(v);
    }
    if |b| >= 3 {
      EncodedIsInAlphabet(b[3..]);
    }
  }

  lemma OnlyAlphabet(t: string, c: char)
    requires InAlphabet(t) && Value(c).None?
    ensures c !in t
  {
    forall i | 0 <= i < |t|
      ensures t[i] != c
    {
      assert Value(t[i]).Some?;
    }
  }

  lemma {:induction false} NoLineBreaks(t: string)
    requires InAlphabet(t)
    ensures WithoutLineBreaks(t) == t
  {
    if t != "" {
      assert Value(t[0]).Some?;
      assert forall i :: 0 <= i < |t[1..]| ==> t[1..][i] == t[i + 1];
      NoLineBreaks(t[1..]);
    }
  }

  lemma GroupRoundTrip(x: Byte, y: Byte, z: Byte)
    ensures var v0, v1, v2, v3 := x / 4, x % 4 * 16 + y / 16, y % 16 * 4 + z / 64, z % 64;
            && v0 < 64 && v1 < 64 && v2 < 64
            && v0 * 4 + v1 / 16 == x && v1 % 16 * 16 + v2 / 4 == y && v2 % 4 * 64 + v3 == z
  {
  }

  lemma PairRoundTrip(x: Byte, y: Byte)
    ensures var v0, v1, v2 := x / 4, x % 4 * 16 + y / 16, y % 16 * 4;
            && v0 < 64 && v1 < 64 && v2 < 64
            && v0 * 4 + v1 / 16 == x && v1 % 16 * 16 + v2 / 4 == y
  {
  }

  lemma DecodeTwo(v0: Sextet, v1: Sextet)
    ensures DecodeGroups([Digit(v0), Digit(v1)]) == Some([v0 * 4 + v1 / 16])
  {
    DigitHasValue(v0);
    DigitHasValue(v1);
  }

  lemma DecodeThree(v0: Sextet, v1: Sextet, v2: Sextet)
    ensures DecodeGroups([Digit(v0), Digit(v1), Digit(v2)]) == Some([v0 * 4 + v1 / 16, v1 % 16 * 16 + v2 / 4])
  {
    DigitHasValue(v0);
    DigitHasValue(v1);
    DigitHasValue(v2);
  }

  lemma DecodeFour(v0: Sextet, v1: Sextet, v2: Sextet, v3: Sextet, rest: string, b: Bytes)
    requires DecodeGroups(rest) == Some(b)
    ensures DecodeGroups([Digit(v0), Digit(v1), Digit(v2), Digit(v3)] + rest)
            == Some([v0 * 4 + v1 / 16, v1 % 16 * 16 + v2 / 4, v2 % 4 * 64 + v3] + b)
  {
    DigitHasValue(v0);
    DigitHasValue(v1);
    DigitHasValue(v2);
    DigitHasValue(v3);
    assert ([Digit(v0), Digit(v1), Digit(v2), Digit(v3)] + rest)[4..] == rest;
  }

  lemma OneByte(x: Byte)
    ensures DecodeGroups(Encode([x])) == Some([x])
  {
    GroupRoundTrip(x, 0, 0);
    DecodeTwo(x / 4, x % 4 * 16);
    assert Encode([x]) == [Digit(x / 4), Digit(x % 4 * 16)];
  }

  lemma PairOfBytes(x: Byte, y: Byte)
    ensures DecodeGroups([Digit(x / 4), Digit(x % 4 * 16 + y / 16), Digit(y % 16 * 4)]) == Some([x, y])
  {
    PairRoundTrip(x, y);
    DecodeThree(x / 4, x % 4 * 16 + y / 16, y % 16 * 4);
  }

  lemma TwoBytes(x: Byte, y: Byte)
    ensures DecodeGroups(Encode([x, y])) == Some([x, y])
  {
    PairOfBytes(x, y);
  }

  lemma ThreeBytes(x: Byte, y: Byte, z: Byte, text: string, rest: Bytes)
    requires DecodeGroups(text) == Some(rest)
    ensures DecodeGroups([Digit(x / 4), Digit(x % 4 * 16 + y / 16), Digit(y % 16 * 4 + z / 64), Digit(z % 64)] + text)
            == Some([x, y, z] + rest)
  {
    GroupRoundTrip(x, y, z);
    DecodeFour(x / 4, x % 4 * 16 + y / 16, y % 16 * 4 + z / 64, z % 64, text, rest);
  }

  lemma {:induction false} FirstGroup(b: Bytes)
    requires |b| >= 3
    requires DecodeGroups(Encode(b[3..])) == Some(b[3..])
    ensures DecodeGroups(Encode(b)) == Some(b)
  {
    ThreeBytes(b[0], b[1], b[2], Encode(b[3..]), b[3..]);
    assert [b[0], b[1], b[2]] + b[3..] == b;
  }

  lemma LastGroup(b: Bytes)
    requires 0 < |b| < 3
    ensures DecodeGroups(Encode(b)) == Some(b)
  {
    if |b| == 1 {
      OneByte(b[0]);
      assert [b[0]] == b;
    } else {
      TwoBytes(b[0], b[1]);
      assert [b[0], b[1]] == b;
    }
  }

  /** Decoding undoes encoding. */
  lemma {:induction false} DecodeUndoesEncode(b: Bytes)
    ensures DecodeGroups(Encode(b)) == Some(b)
    decreases |b|
  {
    if b == [] {
    } else if |b| < 3 {
      LastGroup(b);
    } else {
      DecodeUndoesEncode(b[3..]);
      FirstGroup(b);
    }
  }

  lemma EncodedPartDecodes(b: Bytes, maxLength: nat)
    requires |b| <= maxLength
    ensures DecodeCompactPart(Encode(b), maxLength) == Ok(b)
  {
    EncodedIsInAlphabet(b);
    EncodedLength(b);
    NoLineBreaks(Encode(b));
    DecodeUndoesEncode(b);
    OnlyAlphabet(Encode(b), '=');
    assert (4 * |b| + 2) / 3 <= 2 * maxLength;
  }

  lemma DecodedPartEncodes(part: string, maxLength: nat, b: Bytes)
    requires DecodeCompactPart(part, maxLength) == Ok(b)
    ensures part == Encode(b) && |b| <= maxLength
  {
  }

  /** The token service's decoder accepts exactly one text for each byte string up to the limit. */
  lemma PartDecodesExactly(part: string, maxLength: nat, b: Bytes)
    ensures DecodeCompactPart(part, maxLength) == Ok(b) <==> part == Encode(b) && |b| <= maxLength
  {
    if part == Encode(b) && |b| <= maxLength {
      EncodedPartDecodes(b, maxLength);
    } else if DecodeCompactPart(part, maxLength) == Ok(b) {
      DecodedPartEncodes(part, maxLength, b);
    }
  }

  lemma EncodeIsInjective(a: Bytes, b: Bytes)
    requires Encode(a) == Encode(b)
    ensures a == b
  {
    DecodeUndoesEncode(a);
    DecodeUndoesEncode(b);
  }

  lemma GroupsOfTwo(c: char)
    requires c == 'A' || c == 'B'
    ensures DecodeGroups(['A', c]) == Some([0])
  {
    assert Value('A') == Some(0) && Value(c).Some? && Value(c).value < 2;
  }

  lemma TextOfTwo(c: char)
    requires c == 'A' || c == 'B'
    ensures DecodeString(['A', c]) == Some([0])
  {
    NoLineBreaks(['A', c]);
    GroupsOfTwo(c);
  }

  lemma LineBreaksAreSkipped()
    ensures DecodeString(['A', '\n', 'A']) == Some([0])
  {
    assert ['A', '\n', 'A'][1..] == ['\n', 'A'] && ['\n', 'A'][1..] == ['A'] && ['A'][1..] == "";
    assert WithoutLineBreaks(['A']) == ['A'];
    assert WithoutLineBreaks(['\n', 'A']) == ['A'];
    assert WithoutLineBreaks(['A', '\n', 'A']) == ['A', 'A'];
    GroupsOfTwo('A');
  }

  lemma NothingEncodesToIt(b: Bytes)
    ensures Encode(b) != ['A', 'B']
  {
    assert Encode([0]) == ['A', 'A'];
    GroupsOfTwo('B');
    DecodeUndoesEncode(b);
  }

  lemma OneTextIsRefused(b: Bytes, maxLength: nat)
    ensures DecodeCompactPart(['A', 'B'], maxLength) != Ok(b)
  {
    NothingEncodesToIt(b);
    PartDecodesExactly(['A', 'B'], maxLength, b);
  }

  /** The comparison with the re-encoded text is what makes it one: the standard decoder alone reads
      the same byte from several texts. */
  lemma StandardDecoderIsLenient()
    ensures DecodeString("AA") == Some([0]) && DecodeString("AB") == Some([0]) && DecodeString("A\nA") == Some([0])
    ensures forall b: Bytes, maxLength: nat :: DecodeCompactPart("AB", maxLength) != Ok(b)
  {
    TextOfTwo('A');
    TextOfTwo('B');
    LineBreaksAreSkipped();
    forall b: Bytes, maxLength: nat
      ensures DecodeCompactPart("AB", maxLength) != Ok(b)
    {
      OneTextIsRefused(b, maxLength);
    }
  }
}
