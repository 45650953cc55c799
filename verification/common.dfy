/**
 * Shared vocabulary of the model: optional and failure-carrying values,
 * the character classes Python's `re` module and `str` methods use, and
 * the decimal rendering Python's `str(int)` produces.
 */
module Common {

  /** A value that may be absent (Python's `None`). */
  datatype Option<+T> = None | Some(value: T)

  /** A computation that either produced a value or raised an error. */
  datatype Result<+T, +E> = Ok(value: T) | Err(error: E)

  // ---------------------------------------------------------------------
  // Character classes
  // ---------------------------------------------------------------------

  /**
   * Python's whitespace: the characters for which `str.isspace()` holds,
   * which is also what `\s` matches in a `str` pattern and what
   * `str.strip()` / `str.rstrip()` / `str.split()` remove.
   */
  predicate IsSpace(c: char)
  {
    || ('\t' <= c <= '\r')
    || ('\U{1C}' <= c <= '\U{1F}')
    || c == ' '
    || c == '\U{85}'
    || c == '\U{A0}'
    || c == '\U{1680}'
    || ('\U{2000}' <= c <= '\U{200A}')
    || c == '\U{2028}'
    || c == '\U{2029}'
    || c == '\U{202F}'
    || c == '\U{205F}'
    || c == '\U{3000}'
  }

  predicate IsAsciiLetter(c: char)
  {
    ('a' <= c <= 'z') || ('A' <= c <= 'Z')
  }

  predicate IsDigit(c: char)
  {
    '0' <= c <= '9'
  }

  /**
   * The word class `\w` used by `\b`: letters, digits and `_`.  Exact for
   * ASCII and Latin-1; characters above U+00FF count as non-word.
   */
  predicate IsWordChar(c: char)
  {
    || IsAsciiLetter(c)
    || IsDigit(c)
    || c == '_'
    || c == '\U{AA}' || c == '\U{B2}' || c == '\U{B3}' || c == '\U{B5}'
    || c == '\U{B9}' || c == '\U{BA}'
    || ('\U{BC}' <= c <= '\U{BE}')
    || ('\U{C0}' <= c <= '\U{D6}')
    || ('\U{D8}' <= c <= '\U{F6}')
    || ('\U{F8}' <= c <= '\U{FF}')
  }

  /** No character of `s` is whitespace. */
  predicate NoSpace(s: string)
  {
    forall i | 0 <= i < |s| :: !IsSpace(s[i])
  }

  /** Every character of `s` is whitespace. */
  predicate AllSpace(s: string)
  {
    forall i | 0 <= i < |s| :: IsSpace(s[i])
  }

  /** `s` with its whitespace characters removed: its visible content. */
  function NonSpace(s: string): (r: string)
    ensures |r| <= |s|
    ensures NoSpace(r)
  {
    if |s| == 0 then []
    else if IsSpace(s[0]) then NonSpace(s[1..])
    else [s[0]] + NonSpace(s[1..])
  }

  lemma {:induction false} NonSpaceAppend(a: string, b: string)
    ensures NonSpace(a + b) == NonSpace(a) + NonSpace(b)
  {
    if |a| == 0 {
      assert a + b == b;
    } else {
      assert (a + b)[1..] == a[1..] + b;
      NonSpaceAppend(a[1..], b);
    }
  }

  lemma NonSpaceOfAllSpace(s: string)
    requires AllSpace(s)
    ensures NonSpace(s) == []
  {
    if |s| > 0 {
      NonSpaceOfAllSpace(s[1..]);
    }
  }

  /** Length of the leading run of non-whitespace characters of `s`. */
  function NonSpaceRun(s: string): (n: nat)
    ensures n <= |s|
    ensures NoSpace(s[..n])
    ensures n < |s| ==> IsSpace(s[n])
  {
    if |s| == 0 || IsSpace(s[0]) then 0 else 1 + NonSpaceRun(s[1..])
  }

  /** Length of the leading run of whitespace characters of `s`. */
  function SpaceRun(s: string): (n: nat)
    ensures n <= |s|
    ensures AllSpace(s[..n])
    ensures n < |s| ==> !IsSpace(s[n])
  {
    if |s| == 0 || !IsSpace(s[0]) then 0 else 1 + SpaceRun(s[1..])
  }

  /** Length of the leading run of copies of `c` in `s`. */
  function CharRun(s: string, c: char): (n: nat)
    ensures n <= |s|
    ensures forall k | 0 <= k < n :: s[k] == c
    ensures n < |s| ==> s[n] != c
  {
    if |s| == 0 || s[0] != c then 0 else 1 + CharRun(s[1..], c)
  }

  /** No two copies of `c` are adjacent. */
  predicate NoDouble(s: string, c: char)
  {
    forall i | 0 <= i < |s| - 1 :: !(s[i] == c && s[i + 1] == c)
  }

  /** `str.rstrip()`: the longest prefix not ending in whitespace. */
  function RStrip(s: string): (r: string)
    ensures |r| <= |s| && r == s[..|r|]
    ensures AllSpace(s[|r|..])
    ensures |r| > 0 ==> !IsSpace(r[|r| - 1])
    decreases |s|
  {
    if |s| == 0 then s
    else if IsSpace(s[|s| - 1]) then
      var r := RStrip(s[..|s| - 1]);
      assert s[|r|..] == s[..|s| - 1][|r|..] + [s[|s| - 1]];
      r
    else s
  }

  /** `str.strip()`: the slice left once whitespace is cut from both ends. */
  function Strip(s: string): (r: string)
    ensures SpaceRun(s) + |r| <= |s| && r == s[SpaceRun(s)..SpaceRun(s) + |r|]
    ensures AllSpace(s[SpaceRun(s) + |r|..])
    ensures |r| > 0 ==> !IsSpace(r[0]) && !IsSpace(r[|r| - 1])
  {
    var n := SpaceRun(s);
    var r := RStrip(s[n..]);
    assert s[n + |r|..] == s[n..][|r|..];
    r
  }

  /** `sep.join(parts)`. */
  function Join(parts: seq<string>, sep: string): string
  {
    if |parts| == 0 then ""
    else if |parts| == 1 then parts[0]
    else parts[0] + sep + Join(parts[1..], sep)
  }

  // ---------------------------------------------------------------------
  // Decimal rendering, as Python's str() of an int
  // ---------------------------------------------------------------------

  function DigitChar(d: nat): (c: char)
    requires d < 10
    ensures IsDigit(c)
  {
    ('0' as int + d) as char
  }

  function DigitValue(c: char): (d: nat)
    requires IsDigit(c)
    ensures d < 10
  {
    (c as int - '0' as int) as nat
  }

  predicate AllDigits(s: string)
  {
    forall i | 0 <= i < |s| :: IsDigit(s[i])
  }

  /** Decimal digits of `n`, most significant first, no leading zeros. */
  function NatToString(n: nat): (r: string)
    ensures |r| > 0
    ensures AllDigits(r)
    decreases n
  {
    if n < 10 then [DigitChar(n)] else NatToString(n / 10) + [DigitChar(n % 10)]
  }

  /** `str(i)` for a Python int: an optional minus sign and the digits. */
  function IntToString(i: int): (r: string)
    ensures |r| > 0
    ensures forall k | 0 <= k < |r| :: IsDigit(r[k]) || r[k] == '-'
  {
    if i < 0 then "-" + NatToString(-i) else NatToString(i)
  }

  /** Value of a non-empty run of decimal digits. */
  function ParseNat(s: string): nat
    requires |s| > 0 && AllDigits(s)
  {
    if |s| == 1 then DigitValue(s[0])
    else ParseNat(s[..|s| - 1]) * 10 + DigitValue(s[|s| - 1])
  }

  /** Inverse of IntToString. */
  function ParseInt(s: string): int
    requires |s| > 0
    requires AllDigits(s) || (|s| > 1 && s[0] == '-' && AllDigits(s[1..]))
  {
    if AllDigits(s) then ParseNat(s) as int else -(ParseNat(s[1..]) as int)
  }

  lemma {:induction false} ParseNatToString(n: nat)
    ensures ParseNat(NatToString(n)) == n
    decreases n
  {
    if n >= 10 {
      var s := NatToString(n);
      assert s[..|s| - 1] == NatToString(n / 10);
      ParseNatToString(n / 10);
    }
  }

  /** str() of an int can be read back: distinct ints render differently. */
  lemma IntToStringRoundTrip(i: int)
    ensures var s := IntToString(i);
      (AllDigits(s) || (|s| > 1 && s[0] == '-' && AllDigits(s[1..]))) && ParseInt(s) == i
  {
    var s := IntToString(i);
    if i < 0 {
      var d := NatToString(-i);
      assert s == "-" + d;
      assert s[1..] == d;
      assert !AllDigits(s) by { assert !IsDigit(s[0]); }
      ParseNatToString(-i);
    } else {
      ParseNatToString(i);
    }
  }

  lemma IntToStringInjective(a: int, b: int)
    requires IntToString(a) == IntToString(b)
    ensures a == b
  {
    IntToStringRoundTrip(a);
    IntToStringRoundTrip(b);
  }
}
