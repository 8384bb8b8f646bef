/** The string operations the rover program takes from Python: `str.strip`,
    `str.upper`, `str.split(" ")`, `int(...)` on a token and `str(...)` on an
    integer. Strings are sequences of characters. */
module Text {
  import opened Outcomes

  // ---------------------------------------------------------------------
  // strip() and upper()
  // ---------------------------------------------------------------------

  /** The characters Python's `str.isspace` accepts, which `strip()` removes. */
  predicate IsSpace(c: char) {
    ('\U{0009}' <= c <= '\U{000D}') || ('\U{001C}' <= c <= '\U{001F}') || c == ' '
    || c == '\U{0085}' || c == '\U{00A0}' || c == '\U{1680}'
    || ('\U{2000}' <= c <= '\U{200A}') || c == '\U{2028}' || c == '\U{2029}'
    || c == '\U{202F}' || c == '\U{205F}' || c == '\U{3000}'
  }

  predicate AllSpace(s: string) {
    forall i | 0 <= i < |s| :: IsSpace(s[i])
  }

  /** The number of whitespace characters `s` starts with. */
  function LeadingSpaces(s: string): (n: nat)
    ensures n <= |s|
    ensures forall i | 0 <= i < n :: IsSpace(s[i])
    ensures n < |s| ==> !IsSpace(s[n])
  {
    if s != [] && IsSpace(s[0]) then
      var n := 1 + LeadingSpaces(s[1..]);
      assert forall i | 1 <= i < n :: s[i] == s[1..][i - 1];
      n
    else 0
  }

  /** The length of `s` without the whitespace it ends with. */
  function EndOfText(s: string): (n: nat)
    ensures n <= |s|
    ensures forall i | n <= i < |s| :: IsSpace(s[i])
    ensures n > 0 ==> !IsSpace(s[n - 1])
  {
    if s != [] && IsSpace(s[|s| - 1]) then
      var n := EndOfText(s[..|s| - 1]);
      assert forall i | n <= i < |s| - 1 :: s[i] == s[..|s| - 1][i];
      n
    else |s|
  }

  /** `s[i..j]` is what is left of `s` once the whitespace before `i` and
      from `j` on is cut off. */
  predicate OuterSpace(s: string, i: int, j: int) {
    0 <= i <= j <= |s| && AllSpace(s[..i]) && AllSpace(s[j..])
  }

  /** `str.strip()`: the slice of `s` between its leading and its trailing
      whitespace. It is empty exactly when `s` is all whitespace, and
      otherwise starts and ends with a character that is not whitespace;
      the whitespace cut off at the front is the whole leading run. */
  function Strip(s: string): (r: string)
    ensures |r| <= |s|
    ensures r == [] <==> AllSpace(s)
    ensures r != [] ==> !IsSpace(r[0]) && !IsSpace(r[|r| - 1])
    ensures exists i, j | OuterSpace(s, i, j) :: r == s[i..j]
  {
    var i := LeadingSpaces(s);
    var t := s[i..];
    var j := EndOfText(t);
    assert i < |s| ==> t[0] == s[i];
    assert OuterSpace(s, i, i + j) by {
      assert forall k | 0 <= k < i :: s[..i][k] == s[k];
      assert forall k | i + j <= k < |s| :: s[k] == t[k - i];
      assert forall k | i + j <= k < |s| :: s[i + j..][k - (i + j)] == s[k];
    }
    assert t[..j] == s[i..i + j];
    t[..j]
  }

  /** Strip is determined by its contract: a slice between outer whitespace
      that starts and ends with non-whitespace is exactly what it returns. */
  lemma StripUnique(s: string, i: int, j: int)
    requires OuterSpace(s, i, j) && i < j
    requires !IsSpace(s[i]) && !IsSpace(s[j - 1])
    ensures Strip(s) == s[i..j]
  {
    var r := Strip(s);
    assert !AllSpace(s);
    var i0, j0 :| OuterSpace(s, i0, j0) && r == s[i0..j0];
    assert !IsSpace(s[i0]) && !IsSpace(s[j0 - 1]) by {
      assert r[0] == s[i0] && r[|r| - 1] == s[j0 - 1];
    }
    OuterSpaceAt(s, i, j);
    OuterSpaceAt(s, i0, j0);
  }

  /** The whitespace `OuterSpace` cuts off, character by character. */
  lemma OuterSpaceAt(s: string, i: int, j: int)
    requires OuterSpace(s, i, j)
    ensures forall k | 0 <= k < i :: IsSpace(s[k])
    ensures forall k | j <= k < |s| :: IsSpace(s[k])
  {
    assert forall k | 0 <= k < i :: s[..i][k] == s[k];
    assert forall k | j <= k < |s| :: s[j..][k - j] == s[k];
  }

  /** `str.upper()` on one character, for the ASCII letters. */
  function UpperChar(c: char): (u: char)
    ensures 'a' <= c <= 'z' ==> 'A' <= u <= 'Z' && u as int - 'A' as int == c as int - 'a' as int
    ensures !('a' <= c <= 'z') ==> u == c
  {
    if 'a' <= c <= 'z' then (c as int - 'a' as int + 'A' as int) as char else c
  }

  /** `str.upper()`: every character upper-cased, in place. */
  function Upper(s: string): (r: string)
    ensures |r| == |s|
    ensures forall i | 0 <= i < |s| :: r[i] == UpperChar(s[i])
  {
    if s == [] then [] else [UpperChar(s[0])] + Upper(s[1..])
  }

  /** A line as the parser sees it: `line.strip().upper()`.
      It is empty exactly when the line is all whitespace. */
  function Clean(line: string): (r: string)
    ensures |r| <= |line|
    ensures r == [] <==> AllSpace(line)
    ensures r != [] ==> !IsSpace(r[0]) && !IsSpace(r[|r| - 1])
    ensures exists i, j | OuterSpace(line, i, j) :: r == Upper(line[i..j])
  {
    Upper(Strip(line))
  }

  /** An upper-cased character is whitespace exactly when the original is. */
  lemma UpperCharKeepsSpace(c: char)
    ensures IsSpace(UpperChar(c)) <==> IsSpace(c)
  {
  }

  /** A string that has no whitespace at either end and no lower-case ASCII
      letter comes out of `Clean` unchanged. */
  lemma CleanUnchanged(s: string)
    requires s != [] ==> !IsSpace(s[0]) && !IsSpace(s[|s| - 1])
    requires forall i | 0 <= i < |s| :: !('a' <= s[i] <= 'z')
    ensures Clean(s) == s
  {
    assert LeadingSpaces(s) == 0;
    assert s[0..] == s;
    assert EndOfText(s) == |s|;
    assert Strip(s) == s;
    assert Upper(s) == s;
  }

  // ---------------------------------------------------------------------
  // split(" ")
  // ---------------------------------------------------------------------

  /** The inverse of `Split`: the tokens glued together with `sep`. */
  function Join(tokens: seq<string>, sep: char): string {
    if tokens == [] then ""
    else if |tokens| == 1 then tokens[0]
    else tokens[0] + [sep] + Join(tokens[1..], sep)
  }

  /** `str.split(sep)` for a one-character separator: cut at every `sep`,
      keeping empty tokens, so `""` gives `[""]` and `"a  b"` gives three tokens.
      The result is what `Join` inverts, and no token holds `sep`. */
  function Split(s: string, sep: char): (r: seq<string>)
    ensures |r| >= 1
    ensures Join(r, sep) == s
    ensures forall k | 0 <= k < |r| :: sep !in r[k]
  {
    if s == [] then [""]
    else
      var rest := Split(s[1..], sep);
      if s[0] == sep then
        assert Join([""] + rest, sep) == "" + [sep] + Join(rest, sep) by {
          assert ([""] + rest)[1..] == rest;
        }
        [""] + rest
      else
        var r := [[s[0]] + rest[0]] + rest[1..];
        assert r[1..] == rest[1..];
        assert Join(r, sep) == [s[0]] + Join(rest, sep);
        assert forall k | 1 <= k < |r| :: r[k] == rest[k];
        r
  }

  /** A string without `sep` is one token. */
  lemma {:induction false} SplitNoSep(s: string, sep: char)
    requires sep !in s
    ensures Split(s, sep) == [s]
  {
    if s != [] {
      SplitNoSep(s[1..], sep);
      assert [s[0]] + s[1..] == s;
    }
  }

  /** Splitting `a + sep + b`, where `a` has no `sep`, yields `a` and then the
      tokens of `b`. */
  lemma {:induction false} SplitAfterToken(a: string, b: string, sep: char)
    requires sep !in a
    ensures Split(a + [sep] + b, sep) == [a] + Split(b, sep)
  {
    var s := a + [sep] + b;
    if a == [] {
      assert s[1..] == b;
    } else {
      assert s[1..] == a[1..] + [sep] + b;
      SplitAfterToken(a[1..], b, sep);
      assert [a[0]] + a[1..] == a;
    }
  }

  // ---------------------------------------------------------------------
  // int(token) and str(n)
  // ---------------------------------------------------------------------

  predicate IsDigit(c: char) {
    '0' <= c <= '9'
  }

  predicate AllDigits(s: string) {
    forall i | 0 <= i < |s| :: IsDigit(s[i])
  }

  /** The decimal literals `int()` accepts here: an optional `+` or `-`
      followed by one or more ASCII digits. */
  predicate IsIntLiteral(s: string) {
    if s != [] && (s[0] == '+' || s[0] == '-') then |s| > 1 && AllDigits(s[1..])
    else s != [] && AllDigits(s)
  }

  /** The number a string of decimal digits denotes. */
  function DigitsValue(s: string): nat
    requires AllDigits(s)
  {
    if s == [] then 0
    else
      DigitsValue(s[..|s| - 1]) * 10 + (s[|s| - 1] as int - '0' as int)
  }

  /** `int(token)`: succeeds exactly on a decimal literal, otherwise raises. */
  function ParseInt(s: string): (r: Result<int>)
    ensures r.Ok? <==> IsIntLiteral(s)
    ensures r.Ok? ==>
              var digits := if s[0] == '+' || s[0] == '-' then s[1..] else s;
              AllDigits(digits)
              && r.value == (if s[0] == '-' then -(DigitsValue(digits) as int) else DigitsValue(digits))
  {
    if s != [] && (s[0] == '+' || s[0] == '-') then
      var digits := s[1..];
      if digits != [] && AllDigits(digits) then
        var v: int := DigitsValue(digits);
        Ok(if s[0] == '-' then -v else v)
      else Fail
    else if s != [] && AllDigits(s) then Ok(DigitsValue(s))
    else Fail
  }

  /** The digit character for 0..9. */
  function DigitChar(d: int): (c: char)
    requires 0 <= d <= 9
    ensures IsDigit(c) && c as int - '0' as int == d
  {
    ('0' as int + d) as char
  }

  /** `str(n)` for a natural number: its decimal digits, which read back as `n`. */
  function NatToString(n: nat): (r: string)
    ensures r != [] && AllDigits(r)
    ensures DigitsValue(r) == n
    ensures r[0] == '0' <==> n == 0
    ensures |r| == 1 || r[0] != '0'
  {
    if n < 10 then [DigitChar(n)]
    else
      var r := NatToString(n / 10) + [DigitChar(n % 10)];
      assert r[..|r| - 1] == NatToString(n / 10);
      r
  }

  /** `str(n)`: a minus sign for negative numbers, then the digits. */
  function IntToString(n: int): (r: string)
    ensures r != [] && (r[0] == '-' || IsDigit(r[0])) && IsDigit(r[|r| - 1])
    ensures r[0] == '-' <==> n < 0
    ensures forall i | 1 <= i < |r| :: IsDigit(r[i])
    ensures r[0] == '-' ==> |r| >= 2 && r[1] != '0'
    ensures r[0] != '-' ==> |r| == 1 || r[0] != '0'
  {
    if n < 0 then "-" + NatToString(-n) else NatToString(n)
  }

  /** `int(str(n)) == n`: the text of an integer reads back as it. */
  lemma IntRoundTrip(n: int)
    ensures ParseInt(IntToString(n)) == Ok(n)
  {
    if n < 0 {
      assert IntToString(n)[1..] == NatToString(-n);
    }
  }
}
