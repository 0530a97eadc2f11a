/** Character and string helpers used by the file-name and settings logic:
    ASCII case folding, suffix tests, last-index search, the first
    space-separated token, and decimal rendering and parsing of naturals. */
module Text {
  import opened Options

  // ---------------------------------------------------------------- case

  predicate IsUpperAscii(c: char) { 'A' <= c <= 'Z' }

  predicate IsLowerAscii(c: char) { 'a' <= c <= 'z' }

  function LowerChar(c: char): char {
    if IsUpperAscii(c) then (c as int + 32) as char else c
  }

  function UpperChar(c: char): char {
    if IsLowerAscii(c) then (c as int - 32) as char else c
  }

  /** `String.toLowerCase`, restricted to ASCII letters. */
  function Lower(s: string): (r: string)
    ensures |r| == |s|
    ensures forall i :: 0 <= i < |s| ==> r[i] == LowerChar(s[i])
  {
    if |s| == 0 then [] else [LowerChar(s[0])] + Lower(s[1..])
  }

  /** `String.toUpperCase`, restricted to ASCII letters. */
  function Upper(s: string): (r: string)
    ensures |r| == |s|
    ensures forall i :: 0 <= i < |s| ==> r[i] == UpperChar(s[i])
  {
    if |s| == 0 then [] else [UpperChar(s[0])] + Upper(s[1..])
  }

  lemma LowerAppend(a: string, b: string)
    ensures Lower(a + b) == Lower(a) + Lower(b)
  {
    assert forall i :: 0 <= i < |a + b| ==> Lower(a + b)[i] == (Lower(a) + Lower(b))[i];
  }

  lemma LowerIdempotent(s: string)
    ensures Lower(Lower(s)) == Lower(s)
  {
  }

  /** Lower-casing keeps the dots of a string exactly where they were. */
  lemma LowerKeepsDots(s: string)
    ensures forall i :: 0 <= i < |s| ==> (Lower(s)[i] == '.' <==> s[i] == '.')
  {
  }

  /** For an upper-case letter `w`, a character upper-cases to `w` exactly
      when it lower-cases to the lower-case form of `w`. */
  lemma UpperCharMatchesIffLowerCharMatches(c: char, w: char)
    requires IsUpperAscii(w)
    ensures UpperChar(c) == w <==> LowerChar(c) == LowerChar(w)
  {
  }

  /** Comparing the upper-cased string with an upper-case word is the same
      as comparing the lower-cased string with that word in lower case. */
  lemma UpperMatchesIffLowerMatches(s: string, word: string)
    requires forall i :: 0 <= i < |word| ==> IsUpperAscii(word[i])
    ensures Upper(s) == word <==> Lower(s) == Lower(word)
  {
    if |s| == |word| {
      forall i | 0 <= i < |s|
        ensures UpperChar(s[i]) == word[i] <==> LowerChar(s[i]) == LowerChar(word[i])
      {
        UpperCharMatchesIffLowerCharMatches(s[i], word[i]);
      }
      if Upper(s) == word {
        assert forall i :: 0 <= i < |s| ==> Lower(s)[i] == Lower(word)[i];
      }
      if Lower(s) == Lower(word) {
        assert forall i :: 0 <= i < |s| ==> Upper(s)[i] == word[i];
      }
    }
  }

  // -------------------------------------------------------------- search

  /** `String.endsWith`. */
  predicate EndsWith(s: string, suffix: string) {
    |suffix| <= |s| && s[|s| - |suffix|..] == suffix
  }

  /** `String.lastIndexOf(char)`: the highest index holding `c`, or -1. */
  function LastIndexOf(s: string, c: char): (r: int)
    ensures -1 <= r < |s|
    ensures r >= 0 ==> s[r] == c
    ensures forall i :: r < i < |s| ==> s[i] != c
  {
    if |s| == 0 then -1
    else if s[|s| - 1] == c then |s| - 1
    else LastIndexOf(s[..|s| - 1], c)
  }

  /** `s.split(" ")[0]`: everything before the first space. */
  function FirstToken(s: string): (r: string)
    ensures |r| <= |s| && s[..|r|] == r
    ensures forall i :: 0 <= i < |r| ==> r[i] != ' '
    ensures |r| < |s| ==> s[|r|] == ' '
  {
    if |s| == 0 || s[0] == ' ' then [] else [s[0]] + FirstToken(s[1..])
  }

  /** The text after the first occurrence of `c`, or None when `c` does not occur. */
  function AfterFirst(s: string, c: char): (r: Option<string>)
    ensures r.None? <==> forall i :: 0 <= i < |s| ==> s[i] != c
    ensures r.Some? ==> |r.value| < |s| && s[|s| - |r.value|..] == r.value
    ensures r.Some? ==> s[|s| - |r.value| - 1] == c
    ensures r.Some? ==> forall i :: 0 <= i < |s| - |r.value| - 1 ==> s[i] != c
  {
    if |s| == 0 then None
    else if s[0] == c then Some(s[1..])
    else AfterFirst(s[1..], c)
  }

  // ------------------------------------------------------------- decimal

  predicate IsDigit(c: char) { '0' <= c <= '9' }

  predicate AllDigits(s: string) { forall i :: 0 <= i < |s| ==> IsDigit(s[i]) }

  function DigitChar(d: nat): (c: char)
    requires d < 10
    ensures IsDigit(c)
  {
    ('0' as int + d) as char
  }

  function DigitValue(c: char): (d: nat)
    requires IsDigit(c)
    ensures d < 10
  {
    c as int - '0' as int
  }

  /** `String.valueOf(n)` for a non-negative number: its decimal digits. */
  function NatToString(n: nat): (r: string)
    ensures |r| > 0 && AllDigits(r)
    decreases n
  {
    if n < 10 then [DigitChar(n)] else NatToString(n / 10) + [DigitChar(n % 10)]
  }

  /** The value of a string of decimal digits, most significant first. */
  function DigitsValue(s: string): nat
    requires AllDigits(s)
  {
    if |s| == 0 then 0 else DigitsValue(s[..|s| - 1]) * 10 + DigitValue(s[|s| - 1])
  }

  /** Integer parsing of a token: a non-empty run of decimal digits, or None. */
  function ParseNat(s: string): (r: Option<nat>)
    ensures r.Some? <==> |s| > 0 && AllDigits(s)
  {
    if |s| > 0 && AllDigits(s) then Some(DigitsValue(s)) else None
  }

  /** Parsing the decimal rendering of a number gives the number back. */
  lemma {:induction false} ParseNatToString(n: nat)
    ensures ParseNat(NatToString(n)) == Some(n)
    decreases n
  {
    var s := NatToString(n);
    if n < 10 {
      assert s[..|s| - 1] == [];
      assert DigitValue(s[0]) == n;
      assert DigitsValue(s) == n;
    } else {
      ParseNatToString(n / 10);
      assert s[..|s| - 1] == NatToString(n / 10);
    }
  }

  /** Rendered numbers hold no space, so they are a whole first token. */
  lemma FirstTokenOfNumber(n: nat, rest: string)
    ensures FirstToken(NatToString(n) + " " + rest) == NatToString(n)
  {
    var d := NatToString(n);
    var s := d + " " + rest;
    assert s[|d|] == ' ';
    assert forall i :: 0 <= i < |d| ==> s[i] == d[i] && s[i] != ' ';
    assert FirstToken(s)[..|d|] == d || |FirstToken(s)| < |d|;
  }
}
