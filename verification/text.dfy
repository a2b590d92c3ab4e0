/** String helpers shared by the pages and the server: whitespace trimming
    (with the character class of the language doing the trimming) and the
    decimal rendering used inside messages. */
module Text {

  /** Every character of `s` is whitespace for `isSpace`. */
  predicate AllSpace(s: string, isSpace: char -> bool) {
    forall i :: 0 <= i < |s| ==> isSpace(s[i])
  }

  /** Number of leading whitespace characters. */
  function LeadingSpaces(s: string, isSpace: char -> bool): (k: nat)
    ensures k <= |s|
    ensures AllSpace(s[..k], isSpace)
    ensures k < |s| ==> !isSpace(s[k])
    decreases |s|
  {
    if |s| == 0 || !isSpace(s[0]) then 0
    else
      var k := LeadingSpaces(s[1..], isSpace);
      k + 1
  }

  /** Index where the trailing whitespace begins. */
  function TrailingStart(s: string, isSpace: char -> bool): (j: nat)
    ensures j <= |s|
    ensures AllSpace(s[j..], isSpace)
    ensures j > 0 ==> !isSpace(s[j - 1])
    decreases |s|
  {
    if |s| == 0 || !isSpace(s[|s| - 1]) then |s|
    else
      var j := TrailingStart(s[..|s| - 1], isSpace);
      assert forall i :: j <= i < |s| - 1 ==> s[..|s| - 1][i] == s[i];
      j
  }

  /** `s.trim()`: `s` without its leading and trailing whitespace. */
  function Trim(s: string, isSpace: char -> bool): (r: string)
    ensures exists i, j :: 0 <= i <= j <= |s| && r == s[i..j]
                           && AllSpace(s[..i], isSpace) && AllSpace(s[j..], isSpace)
    ensures |r| > 0 ==> !isSpace(r[0]) && !isSpace(r[|r| - 1])
    ensures r == [] <==> AllSpace(s, isSpace)
  {
    var i := LeadingSpaces(s, isSpace);
    if i == |s| then
      assert s[..i] == s;
      assert s[i..i] == [];
      []
    else
      var j := TrailingStart(s, isSpace);
      assert i < j;
      assert !AllSpace(s, isSpace) by { assert !isSpace(s[i]); }
      s[i..j]
  }

  /** JavaScript's `String.prototype.trim` whitespace: the WhiteSpace and
      LineTerminator characters of ECMAScript. */
  predicate IsJsWhitespace(c: char) {
    || c == '\t' || c == '\n' || c == '\U{000B}' || c == '\U{000C}' || c == '\r'
    || c == ' ' || c == '\U{00A0}' || c == '\U{1680}'
    || ('\U{2000}' <= c <= '\U{200A}')
    || c == '\U{2028}' || c == '\U{2029}' || c == '\U{202F}' || c == '\U{205F}'
    || c == '\U{3000}' || c == '\U{FEFF}'
  }

  /** Java's `String.trim` whitespace: every character up to U+0020. */
  predicate IsJavaTrimmed(c: char) {
    c <= ' '
  }

  function JsTrim(s: string): string {
    Trim(s, IsJsWhitespace)
  }

  function JavaTrim(s: string): string {
    Trim(s, IsJavaTrimmed)
  }

  /** The two languages disagree on what is whitespace: Java strips control
      characters that JavaScript keeps, JavaScript strips the no-break space
      that Java keeps. */
  lemma TrimClassesDiffer()
    ensures JavaTrim("\U{0001}") == "" && JsTrim("\U{0001}") == "\U{0001}"
    ensures JsTrim("\U{00A0}") == "" && JavaTrim("\U{00A0}") == "\U{00A0}"
  {
    assert AllSpace("\U{0001}", IsJavaTrimmed);
    assert !AllSpace("\U{0001}", IsJsWhitespace) by { assert !IsJsWhitespace("\U{0001}"[0]); }
    assert AllSpace("\U{00A0}", IsJsWhitespace);
    assert !AllSpace("\U{00A0}", IsJavaTrimmed) by { assert !IsJavaTrimmed("\U{00A0}"[0]); }
  }

  function DigitChar(d: nat): (c: char)
    requires d < 10
  {
    "0123456789"[d]
  }

  function DigitValue(c: char): nat {
    if '0' <= c <= '9' then (c as int - '0' as int) as nat else 0
  }

  /** Decimal rendering of a non-negative number, as `${n}` in a template. */
  function Decimal(n: nat): (r: string)
    ensures |r| >= 1
    ensures forall i :: 0 <= i < |r| ==> '0' <= r[i] <= '9'
    ensures |r| > 1 ==> r[0] != '0'
    decreases n
  {
    if n < 10 then [DigitChar(n)] else Decimal(n / 10) + [DigitChar(n % 10)]
  }

  /** A signed number as Java's string concatenation writes it. */
  function IntText(n: int): (r: string)
    ensures n >= 0 ==> r == Decimal(n)
    ensures n < 0 ==> r == "-" + Decimal(-n)
  {
    if n < 0 then "-" + Decimal(-n) else Decimal(n)
  }

  /** The value of a string of decimal digits. */
  function ParseDecimal(s: string): nat
    decreases |s|
  {
    if |s| == 0 then 0 else ParseDecimal(s[..|s| - 1]) * 10 + DigitValue(s[|s| - 1])
  }

  lemma DigitRoundTrip(d: nat)
    requires d < 10
    ensures DigitValue(DigitChar(d)) == d
  {
  }

  /** Rendering loses nothing: reading the digits back gives the number. */
  lemma {:induction false} DecimalRoundTrip(n: nat)
    ensures ParseDecimal(Decimal(n)) == n
    decreases n
  {
    if n < 10 {
      DigitRoundTrip(n);
    } else {
      var r := Decimal(n);
      assert r[..|r| - 1] == Decimal(n / 10);
      DecimalRoundTrip(n / 10);
      DigitRoundTrip(n % 10);
      assert ParseDecimal(r) == (n / 10) * 10 + n % 10;
    }
  }
}
