/** Trimming of white space and reading of text files, as each language does it. */
module Text {

  /** The Unicode property White_Space. */
  predicate IsSpace(c: char) {
    || '\t' <= c <= '\r' || c == ' ' || c == '\U{85}' || c == '\U{A0}' || c == '\U{1680}' || '\U{2000}' <= c <= '\U{200A}'
    || c == '\U{2028}' || c == '\U{2029}' || c == '\U{202F}' || c == '\U{205F}' || c == '\U{3000}'
  }

  predicate IsDigit(c: char) {
    '0' <= c <= '9'
  }

  predicate Ascii(s: string) {
    forall i :: 0 <= i < |s| ==> s[i] < '\U{80}'
  }

  /** No white space at either end. */
  predicate Tight(s: string, space: char -> bool) {
    s == "" || (!space(s[0]) && !space(s[|s| - 1]))
  }

  function Strip(s: string, space: char -> bool): (r: string)
    ensures Tight(r, space) && |r| <= |s| && (r == s <==> Tight(s, space))
    ensures Ascii(s) ==> Ascii(r)
    ensures forall c :: c in r ==> c in s
  {
    if s == "" then ""
    else if space(s[0]) then Strip(s[1..], space)
    else if space(s[|s| - 1]) then Strip(s[..|s| - 1], space)
    else s
  }

  /** Rust's `str::trim`. */
  function Trim(s: string): string {
    Strip(s, IsSpace)
  }

  /** Python's `str.strip` also removes the four separators from U+001C to U+001F. */
  predicate PythonSpace(c: char) {
    IsSpace(c) || '\U{1C}' <= c <= '\U{1F}'
  }

  /** What Python's text mode makes of a file's line ends. */
  function UniversalNewlines(s: string): (r: string)
    ensures '\r' !in r && |r| <= |s| && ('\r' !in s ==> r == s)
    ensures Ascii(s) ==> Ascii(r)
  {
    if s == "" then ""
    else if s[0] == '\r' then
      ['\n'] + UniversalNewlines(if |s| > 1 && s[1] == '\n' then s[2..] else s[1..])
    else [s[0]] + UniversalNewlines(s[1..])
  }

  /** A text file read and stripped. */
  function ReadStripped(s: string): (r: string)
    ensures r == s <==> '\r' !in s && Tight(s, PythonSpace)
    ensures Ascii(s) ==> Ascii(r)
  {
    Strip(UniversalNewlines(s), PythonSpace)
  }

  // ---- Decimal numbers -------------------------------------------------------------

  function Decimal(n: nat): (s: string)
    ensures |s| >= 1
  {
    if n < 10 then [DigitChar(n)] else Decimal(n / 10) + [DigitChar(n % 10)]
  }

  function DigitChar(d: nat): char
    requires d < 10
  {
    "0123456789"[d]
  }

  predicate AllDigits(s: string) {
    forall i :: 0 <= i < |s| ==> IsDigit(s[i])
  }

  function Value(s: string): nat
    requires AllDigits(s)
  {
    if s == "" then 0 else 10 * Value(s[..|s| - 1]) + (s[|s| - 1] - '0') as nat
  }

  /** The digits a text starts with. */
  function DigitPrefix(s: string): (r: string)
    ensures AllDigits(r) && r <= s
  {
    if s == "" || !IsDigit(s[0]) then "" else [s[0]] + DigitPrefix(s[1..])
  }

  lemma {:induction false} DecimalReads(n: nat)
    ensures AllDigits(Decimal(n)) && Value(Decimal(n)) == n
  {
    if n < 10 {
      var s := Decimal(n);
      assert s[..|s| - 1] == "" && Value("") == 0;
    } else {
      DecimalReads(n / 10);
      var s := Decimal(n);
      assert s[..|s| - 1] == Decimal(n / 10);
    }
  }

  lemma {:induction false} DigitPrefixIs(digits: string, rest: string)
    requires AllDigits(digits) && (rest == "" || !IsDigit(rest[0]))
    ensures DigitPrefix(digits + rest) == digits
  {
    if digits == "" {
      assert digits + rest == rest;
    } else {
      assert (digits + rest)[1..] == digits[1..] + rest;
      DigitPrefixIs(digits[1..], rest);
    }
  }

  lemma {:induction false} LeadingZeros(s: string, zeros: nat)
    requires AllDigits(s)
    ensures AllDigits(seq(zeros, _ => '0') + s) && Value(seq(zeros, _ => '0') + s) == Value(s)
    decreases zeros, |s|
  {
    var z := seq(zeros, _ => '0');
    if s != "" {
      LeadingZeros(s[..|s| - 1], zeros);
      assert (z + s)[..|z + s| - 1] == z + s[..|s| - 1];
    } else if zeros > 0 {
      LeadingZeros("", zeros - 1);
      assert z + s == z && z[..zeros - 1] == seq(zeros - 1, _ => '0') + "";
    } else {
      assert z + s == s;
    }
  }
}
