/** JavaScript string primitives used by the chat code: the falsiness test on
    optional payload fields, `trim`, `toUpperCase`, `substring(0, n)` and the
    decimal rendering of small numbers. */
module JsText {

  /** A field of a JSON payload: absent (`undefined`/`null`) or a string. */
  datatype Option<+T> = None | Some(value: T)

  /** `!field` in JavaScript for a field that is absent or a string: true for
      `undefined`, `null` and the empty string. */
  predicate Falsy(field: Option<string>)
  {
    field.None? || field.value == ""
  }

  /** ECMAScript WhiteSpace and LineTerminator code points, the set that
      `String.prototype.trim` removes. */
  predicate IsWhiteSpace(c: char)
  {
    c == '\t' || c == '\n' || c == '\U{000B}' || c == '\U{000C}' || c == '\r' ||
    c == ' ' || c == '\U{00A0}' || c == '\U{1680}' ||
    ('\U{2000}' <= c <= '\U{200A}') ||
    c == '\U{2028}' || c == '\U{2029}' || c == '\U{202F}' || c == '\U{205F}' ||
    c == '\U{3000}' || c == '\U{FEFF}'
  }

  predicate AllWhiteSpace(s: string)
  {
    forall i :: 0 <= i < |s| ==> IsWhiteSpace(s[i])
  }

  /** The first index of `s` that is not white space (|s| if none). */
  function FirstNonSpace(s: string): (k: nat)
    ensures k <= |s|
    ensures AllWhiteSpace(s[..k])
    ensures k < |s| ==> !IsWhiteSpace(s[k])
  {
    if s == [] then 0
    else if IsWhiteSpace(s[0]) then
      var k := 1 + FirstNonSpace(s[1..]);
      assert s[..k] == [s[0]] + s[1..][..k - 1];
      k
    else 0
  }

  /** One past the last index of `s` that is not white space (0 if none). */
  function EndNonSpace(s: string): (k: nat)
    ensures k <= |s|
    ensures AllWhiteSpace(s[k..])
    ensures k > 0 ==> !IsWhiteSpace(s[k - 1])
  {
    if s == [] then 0
    else if IsWhiteSpace(s[|s| - 1]) then
      var k := EndNonSpace(s[..|s| - 1]);
      assert s[k..] == s[..|s| - 1][k..] + [s[|s| - 1]];
      k
    else |s|
  }

  /** `s.trim()`: the slice of `s` without leading and trailing white space. */
  function Trim(s: string): (r: string)
    ensures |r| <= |s|
    ensures r == [] || (!IsWhiteSpace(r[0]) && !IsWhiteSpace(r[|r| - 1]))
    ensures exists i, j :: 0 <= i <= j <= |s| && r == s[i..j] && AllWhiteSpace(s[..i]) && AllWhiteSpace(s[j..])
  {
    var i := FirstNonSpace(s);
    var t := s[i..];
    var j := EndNonSpace(t);
    assert t[..j] == s[i..i + j];
    assert t[j..] == s[i + j..];
    t[..j]
  }

  /** `!s.trim()`: the string is empty or white space only. */
  predicate Blank(s: string)
  {
    Trim(s) == []
  }

  /** A string is blank exactly when every character is white space. */
  lemma BlankIffAllWhiteSpace(s: string)
    ensures Blank(s) <==> AllWhiteSpace(s)
  {
  }

  /** A string without leading or trailing white space is its own trim. */
  lemma TrimOfTrimmed(u: string)
    requires u == [] || (!IsWhiteSpace(u[0]) && !IsWhiteSpace(u[|u| - 1]))
    ensures Trim(u) == u
  {
  }

  /** Trimming twice is trimming once. */
  lemma TrimIdempotent(s: string)
    ensures Trim(Trim(s)) == Trim(s)
  {
  }

  /** `c.toUpperCase()` for one character, on the ASCII letters. */
  function UpperChar(c: char): (u: char)
    ensures 'a' <= c <= 'z' ==> u as int == c as int - 32
    ensures !('a' <= c <= 'z') ==> u == c
  {
    if 'a' <= c <= 'z' then (c as int - 32) as char else c
  }

  /** `s.toUpperCase()`, character by character. */
  function ToUpperCase(s: string): (r: string)
    ensures |r| == |s|
    ensures forall i :: 0 <= i < |s| ==> r[i] == UpperChar(s[i])
  {
    seq(|s|, i requires 0 <= i < |s| => UpperChar(s[i]))
  }

  /** Upper-casing an upper-cased string changes nothing, so a room code that
      is already canonical is its own canonical form. */
  lemma ToUpperCaseIdempotent(s: string)
    ensures ToUpperCase(ToUpperCase(s)) == ToUpperCase(s)
  {
  }

  /** Upper-casing keeps white space where it is, so it commutes with trimming. */
  lemma UpperCharKeepsWhiteSpace(c: char)
    ensures IsWhiteSpace(UpperChar(c)) <==> IsWhiteSpace(c)
  {
  }

  lemma {:induction false} FirstNonSpaceOfUpperCase(s: string)
    ensures FirstNonSpace(ToUpperCase(s)) == FirstNonSpace(s)
  {
    if s != [] {
      UpperCharKeepsWhiteSpace(s[0]);
      assert ToUpperCase(s)[1..] == ToUpperCase(s[1..]);
      FirstNonSpaceOfUpperCase(s[1..]);
    }
  }

  lemma {:induction false} EndNonSpaceOfUpperCase(s: string)
    ensures EndNonSpace(ToUpperCase(s)) == EndNonSpace(s)
  {
    if s != [] {
      UpperCharKeepsWhiteSpace(s[|s| - 1]);
      assert ToUpperCase(s)[..|s| - 1] == ToUpperCase(s[..|s| - 1]);
      EndNonSpaceOfUpperCase(s[..|s| - 1]);
    }
  }

  /** Trimming and upper-casing may be done in either order. */
  lemma TrimCommutesWithUpperCase(s: string)
    ensures Trim(ToUpperCase(s)) == ToUpperCase(Trim(s))
  {
    FirstNonSpaceOfUpperCase(s);
    var i := FirstNonSpace(s);
    assert ToUpperCase(s)[i..] == ToUpperCase(s[i..]);
    EndNonSpaceOfUpperCase(s[i..]);
  }

  /** `s.substring(0, n)`: at most the first `n` characters. */
  function Prefix(s: string, n: nat): (r: string)
    ensures |r| == if |s| <= n then |s| else n
    ensures r <= s
  {
    if |s| <= n then s else s[..n]
  }

  /** The character of a decimal digit. */
  function DigitChar(d: nat): (c: char)
    requires d < 10
    ensures '0' <= c <= '9' && c as int - '0' as int == d
  {
    ('0' as int + d) as char
  }

  /** No element occurs twice. */
  predicate NoDuplicates<T(==)>(s: seq<T>)
  {
    forall i, j :: 0 <= i < j < |s| ==> s[i] != s[j]
  }

  predicate IsDigit(c: char)
  {
    '0' <= c <= '9'
  }

  predicate AllDigits(s: string)
  {
    forall i :: 0 <= i < |s| ==> IsDigit(s[i])
  }

  /** The value of a string of decimal digits. */
  function DecimalValue(s: string): nat
  {
    if s == [] then 0
    else
      var last := s[|s| - 1];
      DecimalValue(s[..|s| - 1]) * 10 + (if IsDigit(last) then last as int - '0' as int else 0)
  }

  /** `n.toString()` for a natural number: its decimal digits, no leading zero. */
  function NatToString(n: nat): (r: string)
    ensures 1 <= |r|
    ensures AllDigits(r)
    ensures |r| > 1 ==> r[0] != '0'
    ensures n < 10 <==> |r| == 1
    ensures 10 <= n < 100 <==> |r| == 2
    decreases n
  {
    if n < 10 then [DigitChar(n)] else NatToString(n / 10) + [DigitChar(n % 10)]
  }

  /** Reading back the decimal rendering gives the number. */
  lemma {:induction false} NatToStringRoundTrip(n: nat)
    ensures DecimalValue(NatToString(n)) == n
    decreases n
  {
    if n >= 10 {
      var r := NatToString(n);
      assert r[..|r| - 1] == NatToString(n / 10);
      NatToStringRoundTrip(n / 10);
    }
  }

  /** `s.padStart(2, '0')` for a string of at most two characters. */
  function PadStart2(s: string): (r: string)
    ensures |r| == if |s| < 2 then 2 else |s|
    ensures r[|r| - |s|..] == s
    ensures forall i :: 0 <= i < |r| - |s| ==> r[i] == '0'
  {
    if |s| < 2 then seq(2 - |s|, _ => '0') + s else s
  }
}
