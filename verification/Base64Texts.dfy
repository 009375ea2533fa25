/** The texts themselves: the alphabet and the grouping of RFC 4648 sections 4 and 5. */
module Base64Texts {
  import opened Prelude
  import opened Base64Url

  const CAPITALS := "ABCDEFGHIJKLMNOPQRSTUVWXYZ"
  const SMALL := "abcdefghijklmnopqrstuvwxyz"
  const ALPHABET := CAPITALS + SMALL + "0123456789-_"

  /** Digits are the alphabet's characters in order, and no other character has a value. */
  lemma AlphabetInOrder(v: Sextet, c: char)
    ensures |ALPHABET| == 64 && Digit(v) == ALPHABET[v]
    ensures Value(c).Some? <==> c in ALPHABET
    ensures Value(c) == Some(v) <==> c == ALPHABET[v]
  {
    DigitIsListed(v);
    if Value(c).Some? {
      DigitIsListed(Value(c).value);
      ValueHasDigit(c);
    } else {
      NoValueIsUnlisted(c);
    }
    DigitHasValue(v);
  }

  lemma DigitIsListed(v: Sextet)
    ensures Digit(v) == ALPHABET[v]
  {
    if v < 26 {
      Letters(v);
    } else if v < 52 {
      SmallLetters(v - 26);
    }
  }

  lemma Letters(k: int)
    requires 0 <= k < 26
    ensures ALPHABET[k] as int == CAPITALS[k] as int == 'A' as int + k
  {
  }

  lemma SmallLetters(k: int)
    requires 0 <= k < 26
    ensures ALPHABET[26 + k] as int == SMALL[k] as int == 'a' as int + k
  {
    assert ALPHABET[26 + k] == SMALL[k];
  }

  lemma ValueHasDigit(c: char)
    requires Value(c).Some?
    ensures Digit(Value(c).value) == c
  {
  }

  lemma NoValueIsUnlisted(c: char)
    requires Value(c).None?
    ensures c !in ALPHABET
  {
    forall i | 0 <= i < |ALPHABET| ensures ALPHABET[i] != c {
      DigitIsListed(i);
      DigitHasValue(i);
    }
  }

  /** The number that the characters of a group write in base 64, first one highest. */
  function Number(t: string): Option<int> {
    if t == "" then Some(0) else
    var high :- Number(t[..|t| - 1]);
    var low :- Value(t[|t| - 1]);
    Some(high * 64 + low)
  }

  lemma NumberOfTwo(a: Sextet, b: Sextet)
    ensures Number([Digit(a), Digit(b)]) == Some(a * 64 + b)
  {
    DigitHasValue(a);
    DigitHasValue(b);
    assert [Digit(a), Digit(b)][..1] == [Digit(a)] && [Digit(a)][..0] == "";
    assert Number([Digit(a)]) == Some(a);
  }

  lemma NumberOfMore(t: string, n: int, d: Sextet)
    requires Number(t) == Some(n)
    ensures Number(t + [Digit(d)]) == Some(n * 64 + d)
  {
    DigitHasValue(d);
    assert (t + [Digit(d)])[..|t|] == t;
  }

  lemma OneByteNumber(x: Byte)
    ensures |Encode([x])| == 2 && Number(Encode([x])) == Some(x * 16)
  {
    NumberOfTwo(x / 4, x % 4 * 16);
    assert Encode([x]) == [Digit(x / 4), Digit(x % 4 * 16)];
  }

  lemma TwoByteNumber(x: Byte, y: Byte)
    ensures |Encode([x, y])| == 3 && Number(Encode([x, y])) == Some((x * 256 + y) * 4)
  {
    var a, b, c := x / 4, x % 4 * 16 + y / 16, y % 16 * 4;
    NumberOfTwo(a, b);
    NumberOfMore([Digit(a), Digit(b)], a * 64 + b, c);
    assert Encode([x, y]) == [Digit(a), Digit(b)] + [Digit(c)];
  }

  lemma ThreeByteNumber(x: Byte, y: Byte, z: Byte)
    ensures Number([Digit(x / 4), Digit(x % 4 * 16 + y / 16), Digit(y % 16 * 4 + z / 64), Digit(z % 64)])
            == Some((x * 256 + y) * 256 + z)
  {
    var a, b, c, d := x / 4, x % 4 * 16 + y / 16, y % 16 * 4 + z / 64, z % 64;
    NumberOfTwo(a, b);
    NumberOfMore([Digit(a), Digit(b)], a * 64 + b, c);
    NumberOfMore([Digit(a), Digit(b)] + [Digit(c)], (a * 64 + b) * 64 + c, d);
    assert [Digit(a), Digit(b)] + [Digit(c)] + [Digit(d)] == [Digit(a), Digit(b), Digit(c), Digit(d)];
  }

  /** Three bytes are four characters that write the same 24-bit number, and the rest follows. */
  lemma FullGroup(b: Bytes)
    requires |b| >= 3
    ensures |Encode(b)| >= 4 && Encode(b)[4..] == Encode(b[3..])
    ensures Number(Encode(b)[..4]) == Some((b[0] as int * 256 + b[1] as int) * 256 + b[2] as int)
  {
    ThreeByteNumber(b[0], b[1], b[2]);
    var first :=
      [Digit(b[0] / 4), Digit(b[0] % 4 * 16 + b[1] / 16), Digit(b[1] % 16 * 4 + b[2] / 64), Digit(b[2] % 64)];
    assert Encode(b) == first + Encode(b[3..]);
    assert Encode(b)[..4] == first;
  }

  /** A last group of one or two bytes is two or three characters, with zero bits added. */
  lemma LastGroup(b: Bytes)
    requires |b| < 3
    ensures b == [] ==> Encode(b) == ""
    ensures |b| == 1 ==> |Encode(b)| == 2 && Number(Encode(b)) == Some(b[0] as int * 16)
    ensures |b| == 2 ==> |Encode(b)| == 3 && Number(Encode(b)) == Some((b[0] as int * 256 + b[1] as int) * 4)
  {
    if |b| == 1 {
      OneByteNumber(b[0]);
      assert b == [b[0]];
    } else if |b| == 2 {
      TwoByteNumber(b[0], b[1]);
      assert b == [b[0], b[1]];
    }
  }
}
