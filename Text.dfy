/** The few pieces of java.lang.String behaviour the services rely on:
    decimal rendering of a number (String.format's %d), String.isBlank
    (Character.isWhitespace) and String.trim (used by @NotBlank). */
module Text {

  /** The character for a decimal digit 0..9. */
  function Digit(d: nat): (c: char)
    requires d < 10
    ensures '0' <= c <= '9'
  {
    ['0', '1', '2', '3', '4', '5', '6', '7', '8', '9'][d]
  }

  /** The value of a decimal digit character. */
  function DigitValue(c: char): (d: nat)
    requires '0' <= c <= '9'
    ensures d < 10 && Digit(d) == c
  {
    (c as int - '0' as int) as nat
  }

  predicate IsDigit(c: char) {
    '0' <= c <= '9'
  }

  predicate AllDigits(s: string) {
    forall i :: 0 <= i < |s| ==> IsDigit(s[i])
  }

  /** Decimal digits of a natural number, most significant first, no leading zero. */
  function NatDigits(n: nat): (s: string)
    ensures |s| > 0 && AllDigits(s)
    ensures s[0] == '0' ==> n == 0
    decreases n
  {
    if n < 10 then [Digit(n)] else NatDigits(n / 10) + [Digit(n % 10)]
  }

  /** Java's rendering of a long with %d: an optional minus sign, then digits. */
  function DecimalString(n: int): (s: string)
    ensures |s| > 0
    ensures n >= 0 ==> AllDigits(s)
  {
    if n < 0 then "-" + NatDigits(-n) else NatDigits(n)
  }

  /** Reading back a run of decimal digits: the inverse of NatDigits. */
  function ParseDigits(s: string): nat
    requires AllDigits(s)
  {
    if s == [] then 0 else ParseDigits(s[..|s| - 1]) * 10 + DigitValue(s[|s| - 1])
  }

  lemma {:induction false} ParseNatDigits(n: nat)
    ensures ParseDigits(NatDigits(n)) == n
  {
    var s := NatDigits(n);
    if n >= 10 {
      ParseNatDigits(n / 10);
      assert s[..|s| - 1] == NatDigits(n / 10);
      assert s[|s| - 1] == Digit(n % 10);
    } else {
      assert s[..|s| - 1] == [];
    }
  }

  /** The longest prefix of s made of decimal digits. */
  function LeadingDigits(s: string): (p: string)
    ensures p <= s && AllDigits(p)
    ensures |p| < |s| ==> !IsDigit(s[|p|])
  {
    if s == [] || !IsDigit(s[0]) then [] else [s[0]] + LeadingDigits(s[1..])
  }

  /** A run of digits followed by a non-digit (or nothing) is read back whole. */
  lemma {:induction false} LeadingDigitsOfRun(d: string, rest: string)
    requires AllDigits(d)
    requires rest == [] || !IsDigit(rest[0])
    ensures LeadingDigits(d + rest) == d
  {
    if d != [] {
      assert (d + rest)[1..] == d[1..] + rest;
      LeadingDigitsOfRun(d[1..], rest);
      assert [d[0]] + d[1..] == d;
    } else {
      assert d + rest == rest;
    }
  }

  /** Character.isWhitespace: the Unicode space, line and paragraph separators
      other than the three non-breaking spaces, and the ASCII controls
      U+0009..U+000D and U+001C..U+001F. */
  predicate IsJavaWhitespace(c: char) {
    || ('\t' <= c <= '\r')
    || ('\U{1C}' <= c <= ' ')
    || c == '\U{1680}'
    || ('\U{2000}' <= c <= '\U{2006}')
    || ('\U{2008}' <= c <= '\U{200A}')
    || c == '\U{2028}' || c == '\U{2029}'
    || c == '\U{205F}' || c == '\U{3000}'
  }

  /** String.isBlank: empty, or whitespace only. */
  predicate IsBlank(s: string) {
    forall i :: 0 <= i < |s| ==> IsJavaWhitespace(s[i])
  }

  /** String.trim: drops every leading and trailing character at or below U+0020. */
  function Trim(s: string): (t: string)
    ensures |t| <= |s|
  {
    TrimEnd(TrimStart(s))
  }

  function TrimStart(s: string): (t: string)
    ensures t == [] || t[0] > ' '
    ensures |t| <= |s| && t == s[|s| - |t|..]
  {
    if s != [] && s[0] <= ' ' then TrimStart(s[1..]) else s
  }

  function TrimEnd(s: string): (t: string)
    ensures t <= s
    ensures t == [] || t[|t| - 1] > ' '
  {
    if s != [] && s[|s| - 1] <= ' ' then TrimEnd(s[..|s| - 1]) else s
  }

  /** After trimming something is left exactly when some character lies above U+0020. */
  lemma {:induction false} TrimNonEmpty(s: string)
    ensures |Trim(s)| > 0 <==> exists i :: 0 <= i < |s| && s[i] > ' '
  {
    TrimStartKeepsAbove(s);
    TrimEndKeepsAbove(TrimStart(s));
  }

  lemma {:induction false} TrimStartKeepsAbove(s: string)
    ensures (exists i :: 0 <= i < |TrimStart(s)| && TrimStart(s)[i] > ' ')
        <==> (exists i :: 0 <= i < |s| && s[i] > ' ')
  {
    if s != [] && s[0] <= ' ' {
      TrimStartKeepsAbove(s[1..]);
      if exists i :: 0 <= i < |s| && s[i] > ' ' {
        var i :| 0 <= i < |s| && s[i] > ' ';
        assert s[1..][i - 1] > ' ';
      }
    }
  }

  lemma {:induction false} TrimEndKeepsAbove(s: string)
    ensures |TrimEnd(s)| > 0 <==> (exists i :: 0 <= i < |s| && s[i] > ' ')
  {
    if s != [] && s[|s| - 1] <= ' ' {
      TrimEndKeepsAbove(s[..|s| - 1]);
      if exists i :: 0 <= i < |s| && s[i] > ' ' {
        var i :| 0 <= i < |s| && s[i] > ' ';
        assert s[..|s| - 1][i] > ' ';
      }
    } else if s != [] {
      assert s[|s| - 1] > ' ';
    }
  }

  /** The digits that follow a fixed prefix are read back whole when a space ends them. */
  lemma NumberAfterPrefix(prefix: string, digits: string, tail: string)
    requires AllDigits(digits) && |tail| > 0 && tail[0] == ' '
    ensures prefix <= prefix + digits + tail
    ensures LeadingDigits((prefix + digits + tail)[|prefix|..]) == digits
  {
    assert (prefix + digits + tail)[|prefix|..] == digits + tail;
    LeadingDigitsOfRun(digits, tail);
  }
}
