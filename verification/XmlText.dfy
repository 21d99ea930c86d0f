/** Escaping text for XML, and decoding character and predefined references in a single pass. */
module XmlText {
  import opened Common

  const AMP := '&'
  const SEMI := ';'

  // ---------------------------------------------------------------- escaping

  /** Every occurrence of `c` in `s`, replaced by `replacement`. */
  function ReplaceAll(s: string, c: char, replacement: string): string {
    if s == "" then "" else (if s[0] == c then replacement else [s[0]]) + ReplaceAll(s[1..], c, replacement)
  }

  /** Six replacements, one after the other, each over the result of the one before. */
  function Xml(s: string): string {
    var s1 := ReplaceAll(s, AMP, "&amp;");
    var s2 := ReplaceAll(s1, '\r', "&#13;");
    var s3 := ReplaceAll(s2, '<', "&lt;");
    var s4 := ReplaceAll(s3, '>', "&gt;");
    var s5 := ReplaceAll(s4, '"', "&quot;");
    ReplaceAll(s5, '\'', "&apos;")
  }

  /** What one character becomes. */
  function Escaped(c: char): string {
    if c == AMP then "&amp;" else if c == '\r' then "&#13;" else if c == '<' then "&lt;" else if c == '>' then "&gt;"
    else if c == '"' then "&quot;" else if c == '\'' then "&apos;" else [c]
  }

  function EscapedAll(s: string): string {
    if s == "" then "" else Escaped(s[0]) + EscapedAll(s[1..])
  }

  lemma {:induction false} ReplaceConcat(s: string, t: string, c: char, replacement: string)
    ensures ReplaceAll(s + t, c, replacement) == ReplaceAll(s, c, replacement) + ReplaceAll(t, c, replacement)
  {
    if s == "" {
      assert s + t == t;
    } else {
      ReplaceConcat(s[1..], t, c, replacement);
      assert (s + t)[0] == s[0] && (s + t)[1..] == s[1..] + t;
      var head := if s[0] == c then replacement else [s[0]];
      Associate(head, ReplaceAll(s[1..], c, replacement), ReplaceAll(t, c, replacement));
    }
  }

  lemma XmlConcat(s: string, t: string)
    ensures Xml(s + t) == Xml(s) + Xml(t)
  {
    hide ReplaceAll;
    var s1, t1 := ReplaceAll(s, AMP, "&amp;"), ReplaceAll(t, AMP, "&amp;");
    var s2, t2 := ReplaceAll(s1, '\r', "&#13;"), ReplaceAll(t1, '\r', "&#13;");
    var s3, t3 := ReplaceAll(s2, '<', "&lt;"), ReplaceAll(t2, '<', "&lt;");
    var s4, t4 := ReplaceAll(s3, '>', "&gt;"), ReplaceAll(t3, '>', "&gt;");
    var s5, t5 := ReplaceAll(s4, '"', "&quot;"), ReplaceAll(t4, '"', "&quot;");
    ReplaceConcat(s, t, AMP, "&amp;");
    ReplaceConcat(s1, t1, '\r', "&#13;");
    ReplaceConcat(s2, t2, '<', "&lt;");
    ReplaceConcat(s3, t3, '>', "&gt;");
    ReplaceConcat(s4, t4, '"', "&quot;");
    ReplaceConcat(s5, t5, '\'', "&apos;");
  }

  lemma {:induction false} ReplaceNothing(s: string, c: char, replacement: string)
    requires c !in s
    ensures ReplaceAll(s, c, replacement) == s
  {
    if s != "" {
      ReplaceNothing(s[1..], c, replacement);
    }
  }

  lemma ReplaceOne(c: char, replacement: string)
    ensures ReplaceAll([c], c, replacement) == replacement
  {
    assert [c][1..] == "";
    assert replacement + "" == replacement;
  }

  lemma XmlOfOne(c: char)
    ensures Xml([c]) == Escaped(c)
  {
    hide ReplaceAll;
    var s1 := ReplaceAll([c], AMP, "&amp;");
    var s2 := ReplaceAll(s1, '\r', "&#13;");
    var s3 := ReplaceAll(s2, '<', "&lt;");
    var s4 := ReplaceAll(s3, '>', "&gt;");
    var s5 := ReplaceAll(s4, '"', "&quot;");
    if c == AMP { ReplaceOne(c, "&amp;"); } else { ReplaceNothing([c], AMP, "&amp;"); }
    if c == '\r' { ReplaceOne(c, "&#13;"); } else { ReplaceNothing(s1, '\r', "&#13;"); }
    if c == '<' { ReplaceOne(c, "&lt;"); } else { ReplaceNothing(s2, '<', "&lt;"); }
    if c == '>' { ReplaceOne(c, "&gt;"); } else { ReplaceNothing(s3, '>', "&gt;"); }
    if c == '"' { ReplaceOne(c, "&quot;"); } else { ReplaceNothing(s4, '"', "&quot;"); }
    if c == '\'' { ReplaceOne(c, "&apos;"); } else { ReplaceNothing(s5, '\'', "&apos;"); }
  }

  /** Replacing one character after another comes to the same as mapping every character once. */
  lemma {:induction false} SixPassesAreOneMap(s: string)
    ensures Xml(s) == EscapedAll(s)
  {
    if s != "" {
      hide Xml, Escaped;
      assert s == [s[0]] + s[1..];
      XmlConcat([s[0]], s[1..]);
      XmlOfOne(s[0]);
      SixPassesAreOneMap(s[1..]);
    }
  }

  // ---------------------------------------------------------------- decoding

  /** The characters XML 1.0 (Fifth Edition), section 2.2, allows. */
  predicate IsXmlChar(code: int) {
    || code == 0x9 || code == 0xA || code == 0xD || 0x20 <= code <= 0xD7FF || 0xE000 <= code <= 0xFFFD
    || 0x10000 <= code <= 0x10FFFF
  }

  /** The value of a digit, or 16 for any other character. */
  function DigitValue(c: char): nat {
    if '0' <= c <= '9' then (c as int) - ('0' as int)
    else if 'a' <= c <= 'f' then (c as int) - ('a' as int) + 10
    else if 'A' <= c <= 'F' then (c as int) - ('A' as int) + 10
    else 16
  }

  predicate IsDigit(c: char, radix: nat) {
    DigitValue(c) < radix
  }

  /** How many digits `s` starts replacement. */
  function DigitRun(s: string, radix: nat): (n: nat)
    ensures n <= |s| && forall i | 0 <= i < n :: IsDigit(s[i], radix)
    ensures n < |s| ==> !IsDigit(s[n], radix)
  {
    if s == "" || !IsDigit(s[0], radix) then 0 else 1 + DigitRun(s[1..], radix)
  }

  function NumberOf(digits: string, radix: nat): nat {
    if digits == "" then 0
    else NumberOf(digits[..|digits| - 1], radix) * radix + DigitValue(digits[|digits| - 1])
  }

  predicate StartsWith(s: string, prefix: string) {
    |prefix| <= |s| && s[..|prefix|] == prefix
  }

  /** A reference at the start of `s`: its length and the code it stands for. */
  datatype Reference = Reference(length: nat, code: nat)

  function NumericReference(s: string, lead: nat, radix: nat): (found: Option<Reference>)
    requires lead <= |s|
    ensures found.Some? ==> lead < found.value.length <= |s|
  {
    var n := DigitRun(s[lead..], radix);
    if n > 0 && lead + n < |s| && s[lead + n] == SEMI
    then Some(Reference(lead + n + 1, NumberOf(s[lead..][..n], radix))) else None
  }

  function ReferenceAt(s: string): (found: Option<Reference>)
    ensures found.Some? ==> 0 < found.value.length <= |s|
  {
    if StartsWith(s, "&amp;") then Some(Reference(5, AMP as int))
    else if StartsWith(s, "&lt;") then Some(Reference(4, '<' as int))
    else if StartsWith(s, "&gt;") then Some(Reference(4, '>' as int))
    else if StartsWith(s, "&quot;") then Some(Reference(6, '"' as int))
    else if StartsWith(s, "&apos;") then Some(Reference(6, '\'' as int))
    else if StartsWith(s, "&#x") then NumericReference(s, 3, 16)
    else if StartsWith(s, "&#") then NumericReference(s, 2, 10)
    else None
  }

  datatype XmlError = ProhibitedCharacter

  function Prepend(text: string, rest: Result<string, XmlError>): Result<string, XmlError> {
    match rest
    case Success(tail) => Success(text + tail)
    case Failure(e) => Failure(e)
  }

  /** One pass from left to right; what a reference decodes to is never looked at again. */
  function XmlText(s: string): Result<string, XmlError>
    decreases |s|
  {
    if s == "" then Success("")
    else match ReferenceAt(s)
      case None => Prepend([s[0]], XmlText(s[1..]))
      case Some(r) =>
        if !IsXmlChar(r.code) then Failure(ProhibitedCharacter)
        else Prepend([r.code as char], XmlText(s[r.length..]))
  }

  // ---------------------------------------------------------------- decoding undoes escaping

  lemma DecimalReference(s: string)
    requires |s| > 2 && s[0] == AMP && s[1] == '#' && s[2] != 'x'
    ensures ReferenceAt(s) == NumericReference(s, 2, 10)
  {
    hide NumericReference;
    forall prefix: string | StartsWith(s, prefix) && |prefix| > 2 ensures prefix[1] == '#' && prefix[2] == s[2] {
      assert s[..|prefix|][1] == s[1] && s[..|prefix|][2] == s[2];
    }
    assert s[..2] == "&#";
  }

  lemma CarriageReturnReference(rest: string)
    ensures ReferenceAt("&#13;" + rest) == Some(Reference(5, 13))
  {
    hide ReferenceAt, StartsWith;
    var s := "&#13;" + rest;
    DecimalReference(s);
    var digits := s[2..];
    assert digits[0] == '1' && digits[1] == '3' && digits[2] == SEMI;
    assert digits[1..][0] == '3' && digits[1..][1..][0] == SEMI;
    assert DigitRun(digits[1..][1..], 10) == 0;
    assert digits[..2] == ['1', '3'] && ['1', '3'][..1] == ['1'] && ['1'][..0] == "";
    assert NumberOf(['1'], 10) == 1;
  }

  lemma NamedReference(name: string, rest: string)
    requires name in {"&amp;", "&lt;", "&gt;", "&quot;", "&apos;"}
    ensures StartsWith(name + rest, name)
    ensures forall other | other in {"&amp;", "&lt;", "&gt;", "&quot;", "&apos;"} && other != name ::
            !StartsWith(name + rest, other)
  {
    assert (name + rest)[1] == name[1] && (name + rest)[2] == name[2];
    forall other | other in {"&amp;", "&lt;", "&gt;", "&quot;", "&apos;"} && other != name
      ensures !StartsWith(name + rest, other)
    {
      assert other[1] != name[1] || other[2] != name[2];
      if |other| <= |name + rest| {
        assert (name + rest)[..|other|][1] == name[1] && (name + rest)[..|other|][2] == name[2];
      }
    }
  }

  /** An escaped character is read back as that character, whatever follows it. */
  lemma EscapedIsRead(c: char, rest: string)
    requires |Escaped(c)| > 1
    ensures ReferenceAt(Escaped(c) + rest) == Some(Reference(|Escaped(c)|, c as int)) && IsXmlChar(c as int)
  {
    if c == '\r' {
      CarriageReturnReference(rest);
    } else {
      NamedReference(Escaped(c), rest);
    }
  }

  lemma PlainIsRead(c: char, rest: string)
    requires c != AMP
    ensures ReferenceAt([c] + rest) == None
  {
    var s := [c] + rest;
    forall prefix: string | StartsWith(s, prefix) && prefix != "" ensures prefix[0] == c {
      assert s[..|prefix|][0] == s[0];
    }
  }

  lemma DecodeStep(text: string, c: char, rest: string)
    requires ReferenceAt(text + rest) == if text == [c] then None else Some(Reference(|text|, c as int))
    requires text != "" && (text != [c] ==> IsXmlChar(c as int))
    ensures XmlText(text + rest) == Prepend([c], XmlText(rest))
  {
    hide ReferenceAt, IsXmlChar;
    assert (text + rest)[|text|..] == rest && (text + rest)[0] == text[0];
  }

  lemma {:induction false} DecodeEscaped(s: string)
    ensures XmlText(EscapedAll(s)) == Success(s)
  {
    if s != "" {
      hide ReferenceAt, IsXmlChar, XmlText, Escaped;
      var c, rest := s[0], EscapedAll(s[1..]);
      DecodeEscaped(s[1..]);
      EscapedShape(c);
      if |Escaped(c)| > 1 {
        EscapedIsRead(c, rest);
      } else {
        PlainIsRead(c, rest);
      }
      DecodeStep(Escaped(c), c, rest);
      assert [c] + s[1..] == s;
    } else {
      DecodeNothing();
    }
  }

  lemma EscapedShape(c: char)
    ensures Escaped(c) != "" && (|Escaped(c)| == 1 ==> Escaped(c) == [c] && c != AMP)
  {
  }

  lemma DecodeNothing()
    ensures XmlText("") == Success("")
  {
  }

  /** For every text, decoding what escaping produced gives the text back. */
  lemma DecodingUndoesEscaping(s: string)
    ensures XmlText(Xml(s)) == Success(s)
  {
    SixPassesAreOneMap(s);
    DecodeEscaped(s);
  }

  /** Text that was already escaped is unescaped once, not twice, and different texts never escape alike. */
  lemma EscapingIsInjective(s: string, t: string)
    ensures XmlText(Xml(Xml(s))) == Success(Xml(s))
    ensures Xml(s) == Xml(t) <==> s == t
  {
    hide Xml, XmlText;
    DecodingUndoesEscaping(Xml(s));
    DecodingUndoesEscaping(s);
    DecodingUndoesEscaping(t);
  }

  predicate Markup(c: char) {
    c == '<' || c == '>' || c == '"' || c == '\'' || c == '\r'
  }

  /** Escaped text holds no markup, and every ampersand in it starts a reference to an allowed character. */
  lemma {:induction false} EscapedTextIsInert(s: string, i: nat)
    requires i < |EscapedAll(s)|
    ensures !Markup(EscapedAll(s)[i])
    ensures EscapedAll(s)[i] == AMP
            ==> ReferenceAt(EscapedAll(s)[i..]).Some? && IsXmlChar(ReferenceAt(EscapedAll(s)[i..]).value.code)
  {
    hide ReferenceAt, IsXmlChar;
    var c, rest := s[0], EscapedAll(s[1..]);
    var n := |Escaped(c)|;
    if i >= n {
      EscapedTextIsInert(s[1..], i - n);
      assert EscapedAll(s)[i] == rest[i - n] && EscapedAll(s)[i..] == rest[i - n..];
    } else {
      assert EscapedAll(s)[i] == Escaped(c)[i];
      if i == 0 && n > 1 {
        EscapedIsRead(c, rest);
        assert EscapedAll(s)[0..] == Escaped(c) + rest;
      }
    }
  }

  // ---------------------------------------------------------------- numeric references

  const LOWER := "0123456789abcdef"
  const UPPER := "0123456789ABCDEF"

  /** A number written in a radix of at most sixteen, with letters of either case. */
  function Numeral(n: nat, radix: nat, alphabet: string): (digits: string)
    requires 2 <= radix <= 16 && |alphabet| == 16
    ensures digits != ""
  {
    (if n < radix then "" else Numeral(n / radix, radix, alphabet)) + [alphabet[n % radix]]
  }

  lemma AlphabetValues(d: nat)
    requires d < 16
    ensures DigitValue(LOWER[d]) == d && DigitValue(UPPER[d]) == d
  {
  }

  lemma NumberOfMore(digits: string, c: char, radix: nat)
    ensures NumberOf(digits + [c], radix) == NumberOf(digits, radix) * radix + DigitValue(c)
  {
    assert (digits + [c])[..|digits|] == digits;
  }

  predicate DigitsOnly(digits: string, radix: nat) {
    forall c | c in digits :: IsDigit(c, radix)
  }

  /** The digits before the last one, and the last one. */
  function Front(n: nat, radix: nat): nat
    requires radix > 0
  {
    n / radix
  }

  function Back(n: nat, radix: nat): nat
    requires radix > 0
  {
    n % radix
  }

  function Composed(front: nat, radix: nat, last: nat): nat {
    front * radix + last
  }

  lemma ComposedAgain(n: nat, radix: nat)
    requires radix > 1
    ensures Composed(Front(n, radix), radix, Back(n, radix)) == n && Back(n, radix) < radix
  {
  }

  lemma FrontIsSmaller(n: nat, radix: nat)
    requires radix > 1 && n > 0
    ensures Front(n, radix) < n
  {
    hide Front, Back;
    ComposedAgain(n, radix);
    AtLeastTwice(Front(n, radix), radix);
  }

  lemma AtLeastTwice(q: nat, radix: nat)
    requires radix > 1
    ensures 2 * q <= q * radix
  {
    assert q * radix == 2 * q + q * (radix - 2);
  }

  /** A digit more is read as that digit after the number before it. */
  lemma OneMoreDigit(digits: string, d: nat, radix: nat, alphabet: string)
    requires d < radix <= 16 && (alphabet == LOWER || alphabet == UPPER) && DigitsOnly(digits, radix)
    ensures NumberOf(digits + [alphabet[d]], radix) == Composed(NumberOf(digits, radix), radix, d)
    ensures DigitsOnly(digits + [alphabet[d]], radix)
  {
    hide NumberOf, DigitValue;
    AlphabetValues(d);
    NumberOfMore(digits, alphabet[d], radix);
  }

  lemma NumeralSplits(n: nat, radix: nat, alphabet: string)
    requires 2 <= radix <= 16 && |alphabet| == 16
    ensures Back(n, radix) < radix
    ensures Numeral(n, radix, alphabet)
            == (if n < radix then "" else Numeral(Front(n, radix), radix, alphabet)) + [alphabet[Back(n, radix)]]
  {
  }

  lemma OneDigit(n: nat, radix: nat)
    requires n < radix
    ensures Composed(NumberOf("", radix), radix, Back(n, radix)) == n
  {
  }

  /** Digits are read back as the number they write. */
  lemma {:induction false} NumeralsAreRead(n: nat, radix: nat, alphabet: string)
    requires 2 <= radix <= 16 && (alphabet == LOWER || alphabet == UPPER)
    ensures NumberOf(Numeral(n, radix, alphabet), radix) == n && DigitsOnly(Numeral(n, radix, alphabet), radix)
    decreases n
  {
    hide NumberOf, Numeral, Front, Back, Composed;
    ComposedAgain(n, radix);
    NumeralSplits(n, radix, alphabet);
    if n < radix {
      OneDigit(n, radix);
      OneMoreDigit("", Back(n, radix), radix, alphabet);
    } else {
      FrontIsSmaller(n, radix);
      NumeralsAreRead(Front(n, radix), radix, alphabet);
      OneMoreDigit(Numeral(Front(n, radix), radix, alphabet), Back(n, radix), radix, alphabet);
    }
  }

  lemma {:induction false} RunOfDigits(digits: string, rest: string, radix: nat)
    requires radix <= 16 && DigitsOnly(digits, radix)
    ensures DigitRun(digits + [SEMI] + rest, radix) == |digits|
  {
    var s := digits + [SEMI] + rest;
    if digits == "" {
      assert s[0] == SEMI;
    } else {
      assert s[0] == digits[0] && digits[0] in digits && s[1..] == digits[1..] + [SEMI] + rest;
      RunOfDigits(digits[1..], rest, radix);
    }
  }

  lemma NumberIsReferenced(lead: string, digits: string, rest: string, radix: nat)
    requires radix <= 16 && digits != "" && DigitsOnly(digits, radix)
    ensures NumericReference(lead + digits + [SEMI] + rest, |lead|, radix)
            == Some(Reference(|lead| + |digits| + 1, NumberOf(digits, radix)))
  {
    hide NumberOf, DigitRun;
    var s := lead + digits + [SEMI] + rest;
    assert s[|lead|..] == digits + [SEMI] + rest;
    RunOfDigits(digits, rest, radix);
    assert s[|lead|..][..|digits|] == digits;
  }

  lemma HexadecimalReference(s: string)
    requires |s| > 2 && s[0] == AMP && s[1] == '#' && s[2] == 'x'
    ensures ReferenceAt(s) == NumericReference(s, 3, 16)
  {
    hide NumericReference;
    forall prefix: string | StartsWith(s, prefix) && |prefix| > 1 ensures prefix[1] == '#' {
      assert s[..|prefix|][1] == s[1];
    }
    assert s[..3] == "&#x";
  }

  /** The result of decoding a reference to `code`, followed by `rest`. */
  predicate Decodes(s: string, code: nat, rest: string) {
    XmlText(s)
    == if || code == 9 || code == 10 || code == 13 || 32 <= code < 0xD800 || 0xE000 <= code < 0xFFFE
          || 0x10000 <= code < 0x110000
       then Prepend([code as char], XmlText(rest)) else Failure(ProhibitedCharacter)
  }

  /**
   * Every number reference stands for the character with that code, whether hexadecimal in either case
   * or decimal, if XML allows the character; a reference to any other fails.
   */
  lemma NumbersAreDecoded(code: nat, rest: string)
    ensures Decodes("&#x" + Numeral(code, 16, LOWER) + ";" + rest, code, rest)
    ensures Decodes("&#x" + Numeral(code, 16, UPPER) + ";" + rest, code, rest)
    ensures Decodes("&#" + Numeral(code, 10, LOWER) + ";" + rest, code, rest)
  {
    hide Decodes, Numeral, DigitsOnly;
    NumeralsAreRead(code, 16, LOWER);
    NumeralsAreRead(code, 16, UPPER);
    NumeralsAreRead(code, 10, LOWER);
    DigitsAreDecoded("&#x", Numeral(code, 16, LOWER), 16, rest);
    DigitsAreDecoded("&#x", Numeral(code, 16, UPPER), 16, rest);
    DigitsAreDecoded("&#", Numeral(code, 10, LOWER), 10, rest);
  }

  lemma DigitsAreDecoded(lead: string, digits: string, radix: nat, rest: string)
    requires (lead == "&#x" && radix == 16) || (lead == "&#" && radix == 10)
    requires digits != "" && DigitsOnly(digits, radix)
    ensures Decodes(lead + digits + ";" + rest, NumberOf(digits, radix), rest)
  {
    hide ReferenceAt, NumericReference, NumberOf;
    var s := lead + digits + ";" + rest;
    NumberIsReferenced(lead, digits, rest, radix);
    assert [SEMI] == ";";
    assert s[0] == AMP && s[1] == '#' && s[|lead|] == digits[0] && digits[0] in digits;
    if radix == 16 {
      assert s[2] == 'x';
      HexadecimalReference(s);
    } else {
      DecimalReference(s);
    }
    assert s[|lead| + |digits| + 1..] == rest;
  }
}
