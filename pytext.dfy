/** The few Python `str` operations the tool relies on, as pure functions on
    `string` (= `seq<char>`): `split()` with no argument, `strip()`,
    `isdigit()`, `int()` on a decimal string, and the `:<w` format spec.
    Their Unicode behaviour is restricted to ASCII (see README). */
module PyText {
  import opened Wrappers

  /** `c.isspace()` for ASCII characters: space, \t \n \v \f \r, and the
      separators 0x1C-0x1F. */
  predicate IsSpace(c: char) {
    var n := c as int;
    n == 32 || 9 <= n <= 13 || 28 <= n <= 31
  }

  predicate AllSpace(s: string) {
    forall i :: 0 <= i < |s| ==> IsSpace(s[i])
  }

  predicate NoSpace(s: string) {
    forall i :: 0 <= i < |s| ==> !IsSpace(s[i])
  }

  /** A non-empty run of non-whitespace: what `split()` returns as a token. */
  predicate Word(s: string) {
    s != [] && NoSpace(s)
  }

  /** Length of the longest prefix of `s` made only of whitespace (`space`)
      or only of non-whitespace (`!space`). */
  function Span(s: string, space: bool): nat {
    if s == [] || IsSpace(s[0]) != space then 0 else 1 + Span(s[1..], space)
  }

  /** The prefix `Span` measures is maximal: every character in it is of the
      kind asked for, and the one after it (if any) is not. */
  lemma {:induction false} SpanBounds(s: string, space: bool)
    ensures Span(s, space) <= |s|
    ensures forall i :: 0 <= i < Span(s, space) ==> IsSpace(s[i]) == space
    ensures Span(s, space) < |s| ==> IsSpace(s[Span(s, space)]) != space
  {
    if s != [] && IsSpace(s[0]) == space {
      SpanBounds(s[1..], space);
      assert forall i :: 1 <= i <= |s| - 1 ==> s[i] == s[1..][i - 1];
    }
  }

  /** Length of the longest suffix of `s` made only of whitespace. */
  function TrailingSpace(s: string): (n: nat)
    ensures n <= |s|
    ensures forall i :: |s| - n <= i < |s| ==> IsSpace(s[i])
    ensures n < |s| ==> !IsSpace(s[|s| - 1 - n])
  {
    if s == [] || !IsSpace(s[|s| - 1]) then 0 else 1 + TrailingSpace(s[..|s| - 1])
  }

  /** `s.split()`: the maximal runs of non-whitespace characters, in order. */
  function Split(s: string): seq<string>
    decreases |s|
  {
    var a := Span(s, true);
    SpanBounds(s, true);
    if a == |s| then []
    else
      var b := Span(s[a..], false);
      SpanBounds(s[a..], false);
      assert b > 0 by { assert s[a..][0] == s[a]; }
      [s[a..a + b]] + Split(s[a + b..])
  }

  /** Every token is a non-empty word without whitespace. */
  lemma {:induction false} SplitGivesWords(s: string)
    ensures forall i :: 0 <= i < |Split(s)| ==> Word(Split(s)[i])
    decreases |s|
  {
    var a := Span(s, true);
    SpanBounds(s, true);
    if a < |s| {
      var b := Span(s[a..], false);
      SpanBounds(s[a..], false);
      var w := s[a..a + b];
      assert Split(s) == [w] + Split(s[a + b..]);
      assert Word(w) by {
        assert s[a..][0] == s[a];
        assert forall i :: 0 <= i < b ==> w[i] == s[a..][i];
      }
      SplitGivesWords(s[a + b..]);
    }
  }

  /** A string of whitespace only splits into nothing. */
  lemma SplitAllSpace(s: string)
    requires AllSpace(s)
    ensures Split(s) == []
  {
    SpanIs(s, true, |s|);
  }

  /** Leading whitespace, then a word, then a word boundary: the word is the
      first token and splitting resumes at the boundary. Together with
      SplitAllSpace this determines `Split` on every input. */
  lemma SplitToken(lead: string, word: string, rest: string)
    requires AllSpace(lead) && word != [] && NoSpace(word)
    requires rest == [] || IsSpace(rest[0])
    ensures Split(lead + word + rest) == [word] + Split(rest)
  {
    var s := lead + word + rest;
    assert Span(s, true) == |lead| by {
      assert s[|lead|] == word[0];
      SpanIs(s, true, |lead|);
    }
    var t := s[|lead|..];
    assert t == word + rest;
    assert Span(t, false) == |word| by {
      assert |word| < |t| ==> t[|word|] == rest[0];
      SpanIs(t, false, |word|);
    }
    assert Split(s) == [s[|lead|..|lead| + |word|]] + Split(s[|lead| + |word|..]);
    assert s[|lead|..|lead| + |word|] == word;
    assert s[|lead| + |word|..] == rest;
  }

  /** The second token of `key` + whitespace + `token` + a word boundary is
      `token`: how a status line such as "Pid:\t42\n" is read. */
  lemma SecondToken(key: string, gap: string, token: string, rest: string)
    requires key != [] && NoSpace(key) && gap != [] && AllSpace(gap)
    requires token != [] && NoSpace(token)
    requires rest == [] || IsSpace(rest[0])
    ensures |Split(key + gap + token + rest)| >= 2 && Split(key + gap + token + rest)[1] == token
  {
    var tail := gap + token + rest;
    var line := key + gap + token + rest;
    assert line == key + tail;
    assert Split(tail) == [token] + Split(rest) by {
      SplitToken(gap, token, rest);
    }
    assert Split(key + tail) == [key] + Split(tail) by {
      assert tail[0] == gap[0];
      SplitWord(key, tail);
    }
  }

  /** A word followed by a word boundary is the first token. */
  lemma SplitWord(word: string, rest: string)
    requires word != [] && NoSpace(word)
    requires rest == [] || IsSpace(rest[0])
    ensures Split(word + rest) == [word] + Split(rest)
  {
    var s := word + rest;
    assert s[0] == word[0];
    SpanIs(s, true, 0);
    assert s[0..] == s;
    assert |word| < |s| ==> s[|word|] == rest[0];
    SpanIs(s, false, |word|);
    assert s[0..|word|] == word;
    assert s[|word|..] == rest;
  }

  /** The contract of `SpanBounds` determines `Span`. */
  lemma {:induction false} SpanIs(s: string, space: bool, n: nat)
    requires n <= |s|
    requires forall i :: 0 <= i < n ==> IsSpace(s[i]) == space
    requires n < |s| ==> IsSpace(s[n]) != space
    ensures Span(s, space) == n
  {
    if n > 0 {
      assert forall i :: 0 <= i < n - 1 ==> s[1..][i] == s[i + 1];
      SpanIs(s[1..], space, n - 1);
    }
  }

  /** The contract of `TrailingSpace` determines it. */
  lemma TrailingSpaceIs(s: string, n: nat)
    requires n <= |s|
    requires forall i :: |s| - n <= i < |s| ==> IsSpace(s[i])
    requires n < |s| ==> !IsSpace(s[|s| - 1 - n])
    ensures TrailingSpace(s) == n
  {
  }

  /** `s.strip()`: `s` without its leading and trailing whitespace. */
  function Strip(s: string): (r: string)
    ensures |r| <= |s|
    ensures r == [] || (!IsSpace(r[0]) && !IsSpace(r[|r| - 1]))
    ensures r == [] ==> AllSpace(s)
  {
    var lo := Span(s, true);
    SpanBounds(s, true);
    if lo == |s| then []
    else
      var hi := |s| - TrailingSpace(s);
      assert lo < hi;
      s[lo..hi]
  }

  /** Stripping removes exactly the surrounding whitespace, whatever the core
      holds inside: the core is recovered from any whitespace wrapping. */
  lemma StripUnwraps(lead: string, core: string, trail: string)
    requires AllSpace(lead) && AllSpace(trail)
    requires core == [] || (!IsSpace(core[0]) && !IsSpace(core[|core| - 1]))
    ensures Strip(lead + core + trail) == core
  {
    var s := lead + core + trail;
    if core == [] {
      assert s == lead + trail;
      assert AllSpace(s) by {
        forall i | 0 <= i < |s| ensures IsSpace(s[i]) {
          if i < |lead| { assert s[i] == lead[i]; } else { assert s[i] == trail[i - |lead|]; }
        }
      }
      SpanIs(s, true, |s|);
    } else {
      assert s[|lead|] == core[0];
      SpanIs(s, true, |lead|);
      assert s[|s| - 1 - |trail|] == core[|core| - 1];
      assert forall i :: |s| - |trail| <= i < |s| ==> s[i] == trail[i - (|s| - |trail|)];
      TrailingSpaceIs(s, |trail|);
      assert s[|lead|..|s| - |trail|] == core;
    }
  }

  predicate IsDigit(c: char) {
    '0' as int <= c as int <= '9' as int
  }

  /** `s.isdigit()` for ASCII: non-empty and made of decimal digits only. */
  predicate IsDigits(s: string) {
    |s| > 0 && forall i :: 0 <= i < |s| ==> IsDigit(s[i])
  }

  /** A decimal number is a single word. */
  lemma DigitsAreWord(s: string)
    requires IsDigits(s)
    ensures Word(s)
  {
    assert forall i :: 0 <= i < |s| ==> IsDigit(s[i]);
  }

  /** The value of a string of decimal digits, most significant first. */
  function DigitsValue(s: string): nat
    requires forall i :: 0 <= i < |s| ==> IsDigit(s[i])
  {
    if s == [] then 0
    else 10 * DigitsValue(s[..|s| - 1]) + DigitValue(s[|s| - 1])
  }

  function DigitValue(c: char): (d: nat)
    requires IsDigit(c)
    ensures d < 10
  {
    c as int - '0' as int
  }

  /** `int(s)`: the value of `s` when `s.isdigit()`, otherwise a failure
      (Python raises ValueError). */
  function ParseInt(s: string): (r: Option<nat>)
    ensures r.Some? <==> IsDigits(s)
  {
    if IsDigits(s) then Some(DigitsValue(s)) else None
  }

  /** `str(n)`: the decimal text of `n`, used to state round trips. */
  function Decimal(n: nat): (s: string)
    ensures IsDigits(s)
  {
    if n < 10 then [('0' as int + n) as char]
    else Decimal(n / 10) + [('0' as int + n % 10) as char]
  }

  /** `int(str(n)) == n`. */
  lemma {:induction false} ParseIntDecimal(n: nat)
    ensures ParseInt(Decimal(n)) == Some(n)
  {
    var s := Decimal(n);
    if n >= 10 {
      ParseIntDecimal(n / 10);
      assert s[..|s| - 1] == Decimal(n / 10);
      assert DigitValue(s[|s| - 1]) == n % 10;
    } else {
      assert s[..|s| - 1] == [];
      assert DigitsValue(s) == DigitValue(s[0]) == n;
    }
  }

  /** `f"{s:<w}"`: `s` left-aligned in a field of width `w`, padded on the
      right with spaces; a longer `s` is kept whole. */
  function FormatLeft(s: string, w: nat): (r: string)
    ensures |r| == if |s| < w then w else |s|
    ensures r[..|s|] == s
    ensures forall i :: |s| <= i < |r| ==> r[i] == ' '
  {
    if |s| < w then s + seq(w - |s|, _ => ' ') else s
  }
}
