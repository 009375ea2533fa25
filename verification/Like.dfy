/** The search filter: an escaped term between two wildcards, under SQL's pattern matching. */
module Like {
  import opened Prelude

  predicate IsMeta(c: char) {
    c == '\\' || c == '%' || c == '_'
  }

  /** Every backslash, percent sign and underscore gets a backslash in front, in one pass. */
  function EscapeLikeWildcards(term: string): string {
    if term == "" then ""
    else (if IsMeta(term[0]) then ['\\', term[0]] else [term[0]]) + EscapeLikeWildcards(term[1..])
  }

  /** The pattern a `contains` filter turns into. */
  function ContainsPattern(term: string): string {
    "%" + EscapeLikeWildcards(term) + "%"
  }

  /** SQL matching of a whole string: `%` is any run of characters, `_` any one, a backslash takes
      the next character literally. Literal characters are compared after `fold`, which is the
      identity for LIKE and case folding for ILIKE. */
  predicate Matches(fold: char -> char, s: string, pattern: string)
    decreases |pattern|, |s|
  {
    if pattern == "" then s == ""
    else if pattern[0] == '%' then
      Matches(fold, s, pattern[1..]) || (s != "" && Matches(fold, s[1..], pattern))
    else if pattern[0] == '_' then
      s != "" && Matches(fold, s[1..], pattern[1..])
    else if pattern[0] == '\\' then
      |pattern| > 1 && s != "" && fold(s[0]) == fold(pattern[1]) && Matches(fold, s[1..], pattern[2..])
    else
      s != "" && fold(s[0]) == fold(pattern[0]) && Matches(fold, s[1..], pattern[1..])
  }

  /** A backslash with nothing after it, which the database refuses as a pattern. */
  predicate EndsInDanglingEscape(pattern: string) {
    if pattern == "" then false
    else if pattern[0] == '\\' then |pattern| == 1 || EndsInDanglingEscape(pattern[2..])
    else EndsInDanglingEscape(pattern[1..])
  }

  predicate OccursAt(fold: char -> char, s: string, t: string, k: int) {
    && 0 <= k
    && k + |t| <= |s|
    && forall i :: 0 <= i < |t| ==> fold(s[k + i]) == fold(t[i])
  }

  predicate Occurs(fold: char -> char, s: string, t: string) {
    exists k | 0 <= k <= |s| :: OccursAt(fold, s, t, k)
  }

  lemma {:induction false} AnyRun(fold: char -> char, s: string)
    ensures Matches(fold, s, "%")
  {
    if s != "" {
      AnyRun(fold, s[1..]);
    }
  }

  lemma {:induction false} EscapedThenAnything(fold: char -> char, s: string, t: string)
    ensures Matches(fold, s, EscapeLikeWildcards(t) + "%") <==> OccursAt(fold, s, t, 0)
  {
    var rest := EscapeLikeWildcards(t[if t == "" then 0 else 1..]) + "%";
    if t == "" {
      AnyRun(fold, s);
      assert EscapeLikeWildcards(t) + "%" == "%";
    } else {
      var pattern := EscapeLikeWildcards(t) + "%";
      assert pattern == (if IsMeta(t[0]) then ['\\', t[0]] else [t[0]]) + rest;
      assert (if IsMeta(t[0]) then pattern[2..] else pattern[1..]) == rest;
      if s != "" {
        EscapedThenAnything(fold, s[1..], t[1..]);
        OccursFirst(fold, s, t);
      }
    }
  }

  lemma OccursFirst(fold: char -> char, s: string, t: string)
    requires s != "" && t != ""
    ensures OccursAt(fold, s, t, 0) <==> fold(s[0]) == fold(t[0]) && OccursAt(fold, s[1..], t[1..], 0)
  {
    if fold(s[0]) == fold(t[0]) && OccursAt(fold, s[1..], t[1..], 0) {
      forall i | 0 <= i < |t|
        ensures fold(s[i]) == fold(t[i])
      {
        if i > 0 {
          assert s[1..][i - 1] == s[i] && t[1..][i - 1] == t[i];
        }
      }
    }
    if OccursAt(fold, s, t, 0) {
      forall i | 0 <= i < |t[1..]|
        ensures fold(s[1..][i]) == fold(t[1..][i])
      {
        assert s[0 + (i + 1)] == s[1..][i] && t[i + 1] == t[1..][i];
      }
    }
  }

  lemma OccursLater(fold: char -> char, s: string, t: string, k: nat)
    requires s != ""
    ensures OccursAt(fold, s[1..], t, k) <==> OccursAt(fold, s, t, k + 1)
  {
    if OccursAt(fold, s, t, k + 1) {
      forall i | 0 <= i < |t|
        ensures fold(s[1..][k + i]) == fold(t[i])
      {
        assert s[1..][k + i] == s[k + 1 + i];
      }
    }
    if OccursAt(fold, s[1..], t, k) {
      forall i | 0 <= i < |t|
        ensures fold(s[k + 1 + i]) == fold(t[i])
      {
        assert s[1..][k + i] == s[k + 1 + i];
      }
    }
  }

  /** Search is substring search: the filter matches exactly the strings the term occurs in. */
  lemma {:induction false} ContainsIsSubstring(fold: char -> char, s: string, t: string)
    ensures Matches(fold, s, ContainsPattern(t)) <==> Occurs(fold, s, t)
  {
    var pattern := ContainsPattern(t);
    assert pattern[1..] == EscapeLikeWildcards(t) + "%";
    EscapedThenAnything(fold, s, t);
    if s != "" {
      ContainsIsSubstring(fold, s[1..], t);
      if Occurs(fold, s, t) {
        var k :| 0 <= k <= |s| && OccursAt(fold, s, t, k);
        if k > 0 {
          OccursLater(fold, s, t, k - 1);
        }
      }
      if Occurs(fold, s[1..], t) {
        var k :| 0 <= k <= |s[1..]| && OccursAt(fold, s[1..], t, k);
        OccursLater(fold, s, t, k);
      }
    }
  }

  lemma EscapedFirst(t: string, tail: string)
    requires t != ""
    ensures var pattern, rest := EscapeLikeWildcards(t) + tail, EscapeLikeWildcards(t[1..]) + tail;
            if IsMeta(t[0]) then pattern == ['\\', t[0]] + rest else pattern == [t[0]] + rest
  {
    Regroup(if IsMeta(t[0]) then ['\\', t[0]] else [t[0]], EscapeLikeWildcards(t[1..]), tail);
  }

  lemma EndsAfter(c: char, meta: bool, rest: string)
    requires meta || c != '\\'
    ensures EndsInDanglingEscape(if meta then ['\\', c] + rest else [c] + rest) <==> EndsInDanglingEscape(rest)
  {
    if meta {
      assert (['\\', c] + rest)[2..] == rest;
    } else {
      assert ([c] + rest)[1..] == rest;
    }
  }

  lemma {:induction false} EscapedHasNoDanglingEscape(t: string, tail: string)
    requires !EndsInDanglingEscape(tail)
    ensures !EndsInDanglingEscape(EscapeLikeWildcards(t) + tail)
  {
    if t == "" {
      assert EscapeLikeWildcards(t) + tail == tail;
    } else {
      EscapedHasNoDanglingEscape(t[1..], tail);
      EscapedFirst(t, tail);
      EndsAfter(t[0], IsMeta(t[0]), EscapeLikeWildcards(t[1..]) + tail);
    }
  }

  /** The database accepts the filter's pattern whatever the term is. */
  lemma PatternIsAccepted(t: string)
    ensures !EndsInDanglingEscape(ContainsPattern(t))
  {
    assert !EndsInDanglingEscape("");
    assert !EndsInDanglingEscape("%");
    EscapedHasNoDanglingEscape(t, "%");
    assert ContainsPattern(t)[1..] == EscapeLikeWildcards(t) + "%";
  }

  /** Without escaping the filter finds more: the term `%%` finds every string. */
  lemma UnescapedPercentMatchesAll(fold: char -> char, s: string)
    ensures Matches(fold, s, "%" + "%%" + "%")
  {
    AnyRun(fold, s);
    var four := "%" + "%%" + "%";
    assert four[1..][1..][1..] == "%";
    assert Matches(fold, s, four[1..][1..]);
    assert Matches(fold, s, four[1..]);
  }
}
