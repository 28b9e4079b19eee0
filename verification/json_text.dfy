/** JSON text as it is written and as others may write it: which characters are escaped, how numbers look, and the
    escapes the parser reads beyond those the printer writes. */
module JsonText {
  import opened Prelude
  import opened Json

  // ---------------------------------------------------------------- strings

  /** Which characters the serialiser escapes, and how: a quote, a backslash and the five control characters with a
      letter of their own by two characters, the other control characters by six, without capitals, and no other. */
  lemma EscapedWhen(c: char)
    ensures EscapeChar(c) == [c] <==> c >= ' ' && c != '"' && c != '\\'
    ensures |EscapeChar(c)| == 2 <==>
      c == '"' || c == '\\' || c == BACKSPACE || c == '\t' || c == '\n' || c == FORM_FEED || c == '\r'
    ensures |EscapeChar(c)| in {1, 2, 6}
    ensures |EscapeChar(c)| == 6 ==> forall i :: 0 <= i < 6 ==> !('A' <= EscapeChar(c)[i] <= 'Z')
  {
  }

  /** A text without quotes, backslashes and control characters is printed as it is, between quotes. */
  lemma {:induction false} PlainTextStays(s: string)
    requires forall i :: 0 <= i < |s| ==> s[i] >= ' ' && s[i] != '"' && s[i] != '\\'
    ensures Escape(s) == s && Print(Str(s)) == "\"" + s + "\""
  {
    if s != [] {
      PlainTextStays(s[1..]);
      assert [s[0]] + s[1..] == s;
    }
  }

  // ---------------------------------------------------------------- what floats look like

  /** The ways a floating-point number is written, each with or without a minus in front: digits with a point, and with
      an exponent, which may have a sign, behind either. */
  lemma FloatTexts(whole: string, part: string, exponent: string, e: char, sign: string)
    requires IsNatLexeme(whole) && IsNatLexeme(part) && IsNatLexeme(exponent)
    requires (e == 'e' || e == 'E') && (sign == "" || sign == "+" || sign == "-")
    ensures IsFloatLexeme(whole + "." + part)
    ensures IsFloatLexeme(whole + [e] + (sign + exponent))
    ensures IsFloatLexeme("-" + (whole + "." + part))
    ensures IsFloatLexeme(whole + "." + part + [e] + (sign + exponent))
  {
    var pointed := whole + "." + part;
    PointMakesFloat(whole, '.', "", part);
    assert pointed == whole + ['.'] + ("" + part);
    PointMakesFloat(whole, e, sign, exponent);
    NegativeFloat(pointed);
    PointMakesFloat(pointed, e, sign, exponent);
  }

  lemma PointMakesFloat(front: string, c: char, sign: string, back: string)
    requires |front| > 0 && IsDigit(front[0]) && AllNumberChars(front) && (c == '.' || c == 'e' || c == 'E')
    requires (sign == "" || sign == "+" || sign == "-") && IsNatLexeme(back)
    ensures IsFloatLexeme(front + [c] + (sign + back)) && IsDigit((front + [c] + (sign + back))[0])
    ensures AllNumberChars(front + [c] + (sign + back))
  {
    var t := front + [c] + (sign + back);
    assert t[|front|] == c && t[|t| - 1] == back[|back| - 1];
    assert forall i :: 0 <= i < |back| ==> IsDigit(back[i]);
  }

  lemma NegativeFloat(t: string)
    requires IsFloatLexeme(t)
    ensures IsFloatLexeme("-" + t)
  {
    var s := "-" + t;
    var i :| 0 <= i < |t| && (t[i] == '.' || t[i] == 'e' || t[i] == 'E');
    assert s[i + 1] == t[i] && s[|s| - 1] == t[|t| - 1];
  }

  // ---------------------------------------------------------------- integers and escapes as others write them

  /** Integers are written without leading zeros, and with a minus exactly below zero. */
  lemma {:induction false} NatTextIsPlain(n: nat)
    ensures PrintNat(n)[0] == '0' <==> n == 0
    ensures n == 0 ==> PrintNat(n) == "0"
  {
    if n >= 10 {
      NatTextIsPlain(n / 10);
      assert PrintNat(n)[0] == PrintNat(n / 10)[0];
    }
  }

  lemma IntTextIsPlain(n: int)
    ensures PrintInt(n)[0] == '-' <==> n < 0
    ensures PrintInt(n)[0] == '0' <==> n == 0
    ensures n == 0 ==> PrintInt(n) == "0"
    ensures n < 0 ==> PrintInt(n)[1] != '0'
  {
    if n < 0 {
      NatTextIsPlain(-n);
    } else {
      NatTextIsPlain(n);
    }
  }

  /** The value of a hexadecimal digit, by its code: digits, and letters of either case. */
  lemma HexDigitsAre(c: char)
    ensures var n := c as int;
      HexValue(c) == if 48 <= n <= 57 then Some(n - 48)
                     else if 97 <= n <= 102 then Some(n - 87)
                     else if 65 <= n <= 70 then Some(n - 55) else None
  {
  }

  /** The parser also reads what the printer does not write: an escaped slash, and any character below the surrogates by
      its four hexadecimal digits, of either case. */
  lemma OtherEscapesRead(a: nat, b: nat, c: nat, d: nat, hex: string, rest: string)
    requires |hex| == 4 && HexValue(hex[0]) == Some(a) && HexValue(hex[1]) == Some(b) && HexValue(hex[2]) == Some(c) && HexValue(hex[3]) == Some(d)
    requires a <= 13 && (a == 13 ==> b < 8)
    ensures ParseString("\\/" + rest) == Prefixed('/', ParseString(rest))
    ensures 0 <= 4096 * a + 256 * b + 16 * c + d < 0xD800
    ensures ParseString("\\u" + hex + rest) == Prefixed((4096 * a + 256 * b + 16 * c + d) as char, ParseString(rest))
  {
    HexDigitsAre(hex[1]);
    HexDigitsAre(hex[2]);
    HexDigitsAre(hex[3]);
    var slash, code := "\\/" + rest, "\\u" + hex + rest;
    assert slash[2..] == rest;
    assert code[2..6] == hex && code[6..] == rest;
  }
}
