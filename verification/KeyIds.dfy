/** Key ids: the letter v and a decimal. Tokens and the key cache each read them in their own way. */
module KeyIds {
  import opened Prelude

  const INT64_LIMIT := 0x8000_0000_0000_0000
  const UINT64_LIMIT := 0x1_0000_0000_0000_0000

  predicate AllDigits(t: string) {
    forall i :: 0 <= i < |t| ==> '0' <= t[i] <= '9'
  }

  function Decimal(t: string): nat
    requires AllDigits(t)
  {
    if t == "" then 0 else Decimal(t[..|t| - 1]) * 10 + (t[|t| - 1] as int - '0' as int)
  }

  function Digits(n: nat): string {
    (if n < 10 then "" else Digits(n / 10)) + [('0' as int + n % 10) as char]
  }

  /** Go's strconv.Itoa and strconv.Atoi on 64-bit integers. */
  function Itoa(v: int): string {
    if v < 0 then "-" + Digits(-v) else Digits(v)
  }

  function Atoi(t: string): Option<int> {
    var digits := if t != "" && (t[0] == '-' || t[0] == '+') then t[1..] else t;
    if digits == "" || !AllDigits(digits) then None else
    var size: int := Decimal(digits);
    var v := if t[0] == '-' then -size else size;
    if -INT64_LIMIT <= v < INT64_LIMIT then Some(v) else None
  }

  /** What a token's header may name: digits are checked one by one, then read without a sign. */
  predicate ValidTransitVersion(t: string) {
    && |t| >= 2
    && t[0] == 'v'
    && t[1] != '0'
    && AllDigits(t[1..])
    && Decimal(t[1..]) < UINT64_LIMIT
  }

  /** What the key cache reads: a number that is written back as it was. */
  function TransitKeyVersion(t: string): (version: Option<nat>)
    ensures version.Some? ==> 0 < version.value < INT64_LIMIT
  {
    if |t| < 2 || t[0] != 'v' then None else
    var version :- Atoi(t[1..]);
    if version <= 0 || "v" + Itoa(version) != t then None else Some(version)
  }

  // ---------------------------------------------------------------- decimals

  lemma OneMoreDigit(t: string, d: nat)
    requires AllDigits(t) && d < 10
    ensures AllDigits(t + [('0' as int + d) as char])
    ensures Decimal(t + [('0' as int + d) as char]) == Decimal(t) * 10 + d
  {
    assert (t + [('0' as int + d) as char])[..|t|] == t;
  }

  /** Digits are read back, and lead with none that is superfluous. */
  lemma {:induction false} DigitsAreRead(n: nat)
    ensures AllDigits(Digits(n)) && Digits(n) != ""
    ensures Decimal(Digits(n)) == n
    ensures n > 0 ==> Digits(n)[0] != '0'
  {
    if n < 10 {
      OneMoreDigit("", n);
    } else {
      DigitsAreRead(n / 10);
      OneMoreDigit(Digits(n / 10), n % 10);
    }
  }

  lemma {:induction false} DecimalIsPositive(t: string)
    requires t != "" && t[0] != '0' && AllDigits(t)
    ensures Decimal(t) > 0
    decreases |t|
  {
    if |t| > 1 {
      DecimalIsPositive(t[..|t| - 1]);
    } else {
      assert Decimal(t[..0]) == 0;
    }
  }

  lemma DigitsStep(q: nat, d: nat)
    requires d < 10
    ensures Digits(q * 10 + d) == (if q == 0 then "" else Digits(q)) + [('0' as int + d) as char]
  {
    assert (q * 10 + d) / 10 == q && (q * 10 + d) % 10 == d;
  }

  /** A decimal without leading zeros is the one way to write its number. */
  lemma {:induction false} DecimalIsWritten(t: string)
    requires t != "" && t[0] != '0' && AllDigits(t)
    ensures Digits(Decimal(t)) == t
    decreases |t|
  {
    var rest, d := t[..|t| - 1], t[|t| - 1] as int - '0' as int;
    assert Decimal(t) == Decimal(rest) * 10 + d;
    DigitsStep(Decimal(rest), d);
    assert t == rest + [('0' as int + d) as char];
    if rest != "" {
      DecimalIsPositive(rest);
      DecimalIsWritten(rest);
    }
  }

  // ---------------------------------------------------------------- ids

  lemma DigitsAreAccepted(v: nat)
    requires v < INT64_LIMIT
    ensures Atoi(Digits(v)) == Some(v)
  {
    DigitsAreRead(v);
    assert '0' <= Digits(v)[0] <= '9';
  }

  /** The cache reads a version from the one id that is written for it, and from nothing else. */
  lemma VersionsAreWrittenIds(t: string, v: int)
    ensures TransitKeyVersion(t) == Some(v) <==> 0 < v < INT64_LIMIT && t == "v" + Itoa(v)
  {
    if 0 < v < INT64_LIMIT && t == "v" + Itoa(v) {
      DigitsAreAccepted(v);
      assert t[1..] == Digits(v);
      assert Digits(v) != "";
    }
  }

  /** So a version has one id, and keys may be kept by id or by version. */
  lemma OneIdPerVersion(a: string, b: string)
    requires TransitKeyVersion(a).Some? && TransitKeyVersion(a) == TransitKeyVersion(b)
    ensures a == b
  {
  }

  /** Signs, leading zeros and overflow included, the cache knows exactly the ids that a token may
      name and whose number fits 63 bits. */
  lemma CachedIdsAreTokenIds(t: string)
    ensures TransitKeyVersion(t).Some? <==> ValidTransitVersion(t) && Decimal(t[1..]) < INT64_LIMIT
  {
    if TransitKeyVersion(t).Some? {
      var v := TransitKeyVersion(t).value;
      DigitsAreRead(v);
      assert t[1..] == Digits(v);
    } else if ValidTransitVersion(t) {
      DecimalIsPositive(t[1..]);
      DecimalIsWritten(t[1..]);
      assert t == "v" + t[1..];
      VersionsAreWrittenIds(t, Decimal(t[1..]));
    }
  }
}
