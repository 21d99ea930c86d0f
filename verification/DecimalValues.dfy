/** Normal forms and scaled arithmetic keep the exact value: nothing is ever rounded. */
module DecimalValues {
  import opened Common
  import opened Text
  import opened Decimals

  // ---------------------------------------------------------------- digit strings

  lemma DigitsOneMore(s: string, d: char)
    requires AllDigits(s) && '0' <= d <= '9'
    ensures AllDigits(s + [d]) && DigitsValue(s + [d]) == DigitsValue(s) * 10 + ((d as int) - ('0' as int))
  {
    assert (s + [d])[..|s|] == s;
  }

  lemma {:induction false} DigitsConcat(a: string, b: string)
    requires AllDigits(a) && AllDigits(b)
    ensures AllDigits(a + b) && DigitsValue(a + b) == DigitsValue(a) * PowerOfTen(|b|) + DigitsValue(b)
  {
    AllDigitsConcat(a, b);
    if b == "" {
      assert a + b == a;
    } else {
      var front, last := b[..|b| - 1], b[|b| - 1];
      assert b == front + [last] && a + b == (a + front) + [last];
      DigitsConcat(a, front);
      DigitsOneMore(a + front, last);
      DigitsOneMore(front, last);
      TimesTen(DigitsValue(a), PowerOfTen(|front|));
    }
  }

  lemma TimesTen(x: int, p: int)
    ensures x * p * 10 == x * (10 * p)
  {
  }

  lemma {:induction false} DigitsBelow(s: string)
    requires AllDigits(s)
    ensures DigitsValue(s) < PowerOfTen(|s|)
  {
    if s != "" {
      DigitsBelow(s[..|s| - 1]);
    }
  }

  lemma TenAndDigit(x: nat, d: nat)
    requires d < 10
    ensures (x * 10 + d) % 10 == d && (x * 10 + d) / 10 == x
  {
  }

  lemma DigitsUnfold(s: string)
    requires AllDigits(s) && s != ""
    ensures AllDigits(s[..|s| - 1]) && '0' <= s[|s| - 1] <= '9'
    ensures DigitsValue(s) == DigitsValue(s[..|s| - 1]) * 10 + ((s[|s| - 1] as int) - ('0' as int))
  {
  }

  /** The last digit of a number, and what is left of it. */
  lemma LastDigit(s: string)
    requires AllDigits(s) && s != ""
    ensures DigitsValue(s) % 10 == (s[|s| - 1] as int) - ('0' as int)
    ensures DigitsValue(s) / 10 == DigitsValue(s[..|s| - 1])
  {
    hide DigitsValue, AllDigits;
    DigitsUnfold(s);
    TenAndDigit(DigitsValue(s[..|s| - 1]), (s[|s| - 1] as int) - ('0' as int));
  }

  /** Digit strings of one length are equal when their values are. */
  lemma {:induction false} SameLengthSameDigits(a: string, b: string)
    requires AllDigits(a) && AllDigits(b) && |a| == |b| && DigitsValue(a) == DigitsValue(b)
    ensures a == b
  {
    hide DigitsValue;
    if a != "" {
      var n := |a| - 1;
      LastDigit(a);
      LastDigit(b);
      SameLengthSameDigits(a[..n], b[..n]);
      assert a == a[..n] + [a[n]] && b == b[..n] + [b[n]];
    }
  }

  function DigitOf(d: nat): char
    requires d < 10
  {
    (('0' as int) + d) as char
  }

  /** The shortest decimal digits of a natural number. */
  function NatText(n: nat): (s: string)
    ensures s != "" && AllDigits(s) && DigitsValue(s) == n && (|s| > 1 ==> s[0] != '0')
  {
    if n < 10 then
      assert [DigitOf(n)][..0] == "";
      [DigitOf(n)]
    else
      DigitsOneMore(NatText(n / 10), DigitOf(n % 10));
      NotZeroFirst(NatText(n / 10), n / 10);
      NatText(n / 10) + [DigitOf(n % 10)]
  }

  lemma NotZeroFirst(s: string, n: nat)
    requires s != "" && AllDigits(s) && DigitsValue(s) == n && n > 0 && (|s| > 1 ==> s[0] != '0')
    ensures s[0] != '0'
  {
    if |s| == 1 {
      assert s[..0] == "";
    }
  }

  predicate ShortWhole(w: string) {
    w != "" && AllDigits(w) && (|w| > 1 ==> w[0] != '0')
  }

  lemma {:induction false} PositiveUnlessZero(w: string)
    requires ShortWhole(w) && w != "0"
    ensures DigitsValue(w) > 0
  {
    if |w| == 1 {
      assert w[..0] == "";
    } else {
      if |w| == 2 { assert w[..1] != "0"; }
      PositiveUnlessZero(w[..|w| - 1]);
    }
  }

  /** Digits without leading zeros are the shortest digits of their value. */
  lemma {:induction false} ShortWholeIsNatText(w: string)
    requires ShortWhole(w)
    ensures w == NatText(DigitsValue(w))
  {
    var n := |w| - 1;
    if n == 0 {
      assert w[..0] == "";
    } else {
      var front := w[..n];
      if n == 1 { assert front[0] == w[0]; }
      PositiveUnlessZero(front);
      ShortWholeIsNatText(front);
      assert w == front + [w[n]];
      LastDigit(w);
    }
  }

  // ---------------------------------------------------------------- scaled values

  lemma {:induction false} ScaleUp(amount: int, scale: nat, k: nat)
    ensures ValueOf(Scaled(amount * PowerOfTen(k), scale + k)) == ValueOf(Scaled(amount, scale))
  {
    if k == 0 {
      assert amount * PowerOfTen(0) == amount;
    } else {
      ScaleUp(amount, scale, k - 1);
      ScaleByTen(amount * PowerOfTen(k - 1), scale + k - 1);
      assert amount * PowerOfTen(k) == amount * PowerOfTen(k - 1) * 10 by { TimesTen(amount, PowerOfTen(k - 1)); }
    }
  }

  lemma ScaleByTen(amount: int, scale: nat)
    ensures ValueOf(Scaled(amount * 10, scale + 1)) == ValueOf(Scaled(amount, scale))
  {
    var t := Tenth(scale);
    assert Tenth(scale + 1) == t / 10.0;
    assert (amount * 10) as real == (amount as real) * 10.0;
    assert (amount as real) * 10.0 * (t / 10.0) == (amount as real) * t;
  }

  lemma SameScaleSameAmount(a: int, b: int, scale: nat)
    requires ValueOf(Scaled(a, scale)) == ValueOf(Scaled(b, scale))
    ensures a == b
  {
    var t := Tenth(scale);
    assert ((a as real) - (b as real)) * t == 0.0;
    assert (a as real) - (b as real) == 0.0;
  }

  // ---------------------------------------------------------------- normal forms

  predicate NoTrailingZero(fraction: string) {
    fraction != "" ==> fraction[|fraction| - 1] != '0'
  }

  /** Written without plus sign, superfluous zeros, empty whole part, dangling point or minus zero. */
  predicate Normal(t: string) {
    match Read(t)
    case None => false
    case Some(n) => ShortWhole(n.whole) && NoTrailingZero(n.fraction) && t == Written(n.negative, n.whole, n.fraction)
  }

  lemma SplitAgain(whole: string, fraction: string)
    requires AllDigits(whole) && AllDigits(fraction)
    ensures var u := Plain(whole, fraction);
            var p := PointAt(u);
            p == |whole| && u[..p] == whole && (if p < |u| then u[p + 1..] else "") == fraction
  {
    var u := Plain(whole, fraction);
    if fraction != "" {
      assert u[|whole|] == '.';
      assert forall i | 0 <= i < |whole| :: u[i] == whole[i];
      assert u[|whole| + 1..] == fraction;
    }
  }

  lemma PlainEnds(whole: string, fraction: string)
    requires whole != "" && AllDigits(whole) && AllDigits(fraction)
    ensures var u := Plain(whole, fraction);
            u != "" && u[0] == whole[0] && '0' <= u[0] <= '9' && '0' <= u[|u| - 1] <= '9'
  {
    var u := Plain(whole, fraction);
    if fraction != "" {
      assert u[|u| - 1] == fraction[|fraction| - 1];
    }
  }

  lemma ReadUnsigned(whole: string, fraction: string)
    requires whole != "" && AllDigits(whole) && AllDigits(fraction)
    ensures var u := Plain(whole, fraction);
            Read(u) == Some(Numeral(false, whole, fraction)) && Read("-" + u) == Some(Numeral(true, whole, fraction))
  {
    hide Plain, PointAt, AllDigits;
    var u := Plain(whole, fraction);
    PlainEnds(whole, fraction);
    SplitAgain(whole, fraction);
    assert ("-" + u)[1..] == u;
    assert |whole + fraction| > 0;
  }

  lemma ReadWritten(negative: bool, whole: string, fraction: string)
    requires whole != "" && AllDigits(whole) && AllDigits(fraction)
    ensures var t := Written(negative, whole, fraction);
            Trim(t) == t && Read(t) == Some(Numeral(negative && !(whole == "0" && fraction == ""), whole, fraction))
  {
    hide Read, Trim, AllDigits;
    PlainEnds(whole, fraction);
    ReadUnsigned(whole, fraction);
    var u := Plain(whole, fraction);
    assert fraction != "" ==> |u| > 1;
    TrimKeeps(Written(negative, whole, fraction));
  }

  lemma {:induction false} StripLeadingKeeps(w: string)
    requires w != "" && AllDigits(w)
    ensures ShortWhole(StripLeading(w)) && DigitsValue(StripLeading(w)) == DigitsValue(w)
  {
    if |w| > 1 && w[0] == '0' {
      StripLeadingKeeps(w[1..]);
      assert w == [w[0]] + w[1..];
      DigitsConcat([w[0]], w[1..]);
      assert [w[0]][..0] == "";
      assert DigitsValue([w[0]]) == 0;
    }
  }

  /** Taking trailing zeros off the fraction does not change the value. */
  lemma {:induction false} StripTrailingKeeps(negative: bool, whole: string, fraction: string)
    requires AllDigits(whole) && AllDigits(fraction)
    ensures AllDigits(StripTrailing(fraction)) && NoTrailingZero(StripTrailing(fraction))
    ensures ValueOf(Parts(Numeral(negative, whole, StripTrailing(fraction))))
            == ValueOf(Parts(Numeral(negative, whole, fraction)))
  {
    hide ValueOf, DigitsValue;
    if fraction != "" && fraction[|fraction| - 1] == '0' {
      var front := fraction[..|fraction| - 1];
      StripTrailingKeeps(negative, whole, front);
      AllDigitsConcat(whole, front);
      assert whole + fraction == (whole + front) + ['0'];
      DigitsOneMore(whole + front, '0');
      ScaleByTen(Parts(Numeral(negative, whole, front)).amount, |front|);
    }
  }

  lemma SameWholeSameParts(negative: bool, a: string, b: string, fraction: string)
    requires AllDigits(a) && AllDigits(b) && AllDigits(fraction) && DigitsValue(a) == DigitsValue(b)
    ensures Parts(Numeral(negative, a, fraction)) == Parts(Numeral(negative, b, fraction))
  {
    DigitsConcat(a, fraction);
    DigitsConcat(b, fraction);
  }

  lemma ZeroHasNoSign(negative: bool)
    ensures ValueOf(Parts(Numeral(negative, "0", ""))) == ValueOf(Parts(Numeral(false, "0", "")))
  {
    assert "0" + "" == "0" && "0"[..0] == "";
    assert DigitsValue("0") == 0;
  }

  /** Writing a numeral in normal form keeps its value. */
  lemma WrittenMeans(negative: bool, whole: string, fraction: string)
    requires ShortWhole(whole) && AllDigits(fraction)
    ensures var t := Written(negative, whole, StripTrailing(fraction));
            Normal(t) && Meaning(t) == Some(ValueOf(Parts(Numeral(negative, whole, fraction))))
  {
    hide ValueOf, Read, Trim, Parts;
    StripTrailingKeeps(negative, whole, fraction);
    var f := StripTrailing(fraction);
    ReadWritten(negative, whole, f);
    ZeroHasNoSign(negative);
  }

  /** Normalising succeeds exactly on decimals, keeps the value, and yields a normal form. */
  lemma NormalizingKeepsTheValue(s: string)
    ensures Normalize(s).Success? <==> Meaning(s).Some?
    ensures Normalize(s).Success? ==> Normal(Normalize(s).value) && Meaning(Normalize(s).value) == Meaning(s)
  {
    hide Trim, ValueOf, Parts, Read;
    if Read(Trim(s)).Some? {
      var n := Read(Trim(s)).value;
      var whole := if n.whole == "" then "0" else StripLeading(n.whole);
      if n.whole == "" {
        assert DigitsValue("0") == 0 by { assert "0"[..0] == ""; }
      } else {
        StripLeadingKeeps(n.whole);
      }
      SameWholeSameParts(n.negative, n.whole, whole, n.fraction);
      WrittenMeans(n.negative, whole, n.fraction);
    }
  }

  lemma {:induction false} StripLeadingShort(w: string)
    requires ShortWhole(w)
    ensures StripLeading(w) == w
  {
  }

  /** A normal form is its own normal form. */
  lemma NormalIsFixed(t: string)
    requires Normal(t)
    ensures Normalize(t) == Success(t)
  {
    hide Trim, Read;
    var n := Read(t).value;
    ReadWritten(n.negative, n.whole, n.fraction);
    StripLeadingShort(n.whole);
  }

  // ---------------------------------------------------------------- one text per value

  lemma LastDigitCounts(n: Numeral)
    requires AllDigits(n.whole) && AllDigits(n.fraction) && n.fraction != "" && NoTrailingZero(n.fraction)
    ensures Parts(n).amount % 10 != 0
  {
    hide DigitsValue;
    var digits := n.whole + n.fraction;
    AllDigitsConcat(n.whole, n.fraction);
    assert digits[|digits| - 1] == n.fraction[|n.fraction| - 1];
    LastDigit(digits);
    NoMultipleEitherWay(DigitsValue(digits));
  }

  lemma NoMultipleEitherWay(v: int)
    requires v % 10 != 0
    ensures (-v) % 10 != 0
  {
  }

  lemma SameScale(a: Numeral, b: Numeral)
    requires AllDigits(a.whole) && AllDigits(a.fraction) && AllDigits(b.whole) && AllDigits(b.fraction)
             && NoTrailingZero(b.fraction)
    requires ValueOf(Parts(a)) == ValueOf(Parts(b))
    ensures |a.fraction| >= |b.fraction|
  {
    if |a.fraction| < |b.fraction| {
      var k := |b.fraction| - |a.fraction|;
      ScaleUp(Parts(a).amount, |a.fraction|, k);
      SameScaleSameAmount(Parts(a).amount * PowerOfTen(k), Parts(b).amount, |b.fraction|);
      TimesTen(Parts(a).amount, PowerOfTen(k - 1));
      LastDigitCounts(b);
      MultipleOfTen(Parts(a).amount * PowerOfTen(k - 1));
    }
  }

  lemma MultipleOfTen(x: int)
    ensures (x * 10) % 10 == 0
  {
  }

  lemma SplitDigits(w1: nat, f1: nat, w2: nat, f2: nat, p: int)
    requires p > 0 && f1 < p && f2 < p && w1 * p + f1 == w2 * p + f2
    ensures w1 == w2 && f1 == f2
  {
    StepUp(w1, w2, p);
    StepUp(w2, w1, p);
  }

  lemma {:induction false} StepUp(w1: nat, w2: nat, p: int)
    requires p > 0
    ensures w1 < w2 ==> w1 * p + p <= w2 * p
  {
    if w1 < w2 {
      OneMore(w2 - 1, p);
      StepUp(w1, w2 - 1, p);
    }
  }

  lemma OneMore(w: nat, p: int)
    ensures (w + 1) * p == w * p + p
  {
  }

  lemma SameDigits(a: Numeral, b: Numeral)
    requires ShortWhole(a.whole) && ShortWhole(b.whole) && AllDigits(a.fraction) && AllDigits(b.fraction)
    requires |a.fraction| == |b.fraction| && DigitsValue(a.whole + a.fraction) == DigitsValue(b.whole + b.fraction)
    ensures a.whole == b.whole && a.fraction == b.fraction
  {
    DigitsConcat(a.whole, a.fraction);
    DigitsConcat(b.whole, b.fraction);
    DigitsBelow(a.fraction);
    DigitsBelow(b.fraction);
    SplitDigits(DigitsValue(a.whole), DigitsValue(a.fraction), DigitsValue(b.whole), DigitsValue(b.fraction),
                PowerOfTen(|a.fraction|));
    ShortWholeIsNatText(a.whole);
    ShortWholeIsNatText(b.whole);
    SameLengthSameDigits(a.fraction, b.fraction);
  }

  lemma ZeroIsPlain(n: Numeral)
    requires ShortWhole(n.whole) && AllDigits(n.fraction) && NoTrailingZero(n.fraction) && Parts(n).amount == 0
    ensures n.whole == "0" && n.fraction == ""
  {
    if n.fraction != "" {
      LastDigitCounts(n);
    } else {
      assert n.whole + "" == n.whole;
      if n.whole != "0" {
        PositiveUnlessZero(n.whole);
      }
    }
  }

  lemma NormalSign(t: string)
    requires Normal(t)
    ensures var n := Read(t).value; n.whole == "0" && n.fraction == "" ==> !n.negative
  {
    var n := Read(t).value;
    hide Read, Trim;
    ReadWritten(n.negative, n.whole, n.fraction);
  }

  /** Two normal forms of one value are one text. */
  lemma NormalFormIsUnique(s: string, t: string)
    requires Normal(s) && Normal(t) && ValueOf(Parts(Read(s).value)) == ValueOf(Parts(Read(t).value))
    ensures s == t
  {
    hide Read, ValueOf, Written;
    var a, b := Read(s).value, Read(t).value;
    SameScale(a, b);
    SameScale(b, a);
    SameScaleSameAmount(Parts(a).amount, Parts(b).amount, |a.fraction|);
    NormalSign(s);
    NormalSign(t);
    if Parts(a).amount == 0 {
      ZeroIsPlain(a);
      ZeroIsPlain(b);
    } else {
      SameDigits(a, b);
    }
  }

  /** Two decimals denote the same number exactly when they normalise to the same text. */
  lemma SameTextExactlyForSameValue(s: string, t: string)
    requires Meaning(s).Some? && Meaning(t).Some?
    ensures Normalize(s) == Normalize(t) <==> Meaning(s) == Meaning(t)
  {
    hide Read, ValueOf, Parts, Normalize;
    NormalizingKeepsTheValue(s);
    NormalizingKeepsTheValue(t);
    if Meaning(s) == Meaning(t) {
      var a, b := Normalize(s).value, Normalize(t).value;
      NormalReads(a);
      NormalReads(b);
      NormalFormIsUnique(a, b);
    }
  }

  lemma NormalReads(t: string)
    requires Normal(t)
    ensures Trim(t) == t && Meaning(t) == Some(ValueOf(Parts(Read(t).value)))
  {
    hide ValueOf, Parts;
    var n := Read(t).value;
    ReadWritten(n.negative, n.whole, n.fraction);
  }

  // ---------------------------------------------------------------- scaled arithmetic on texts

  function DecimalParts(value: string): Result<Scaled, DecimalError> {
    match Normalize(value)
    case Failure(e) => Failure(e)
    case Success(t) => if Read(t).Some? then Success(Parts(Read(t).value)) else Failure(NotADecimal)
  }

  function PadStart(s: string, length: nat): string
    decreases length - |s|
  {
    if |s| < length then PadStart("0" + s, length) else s
  }

  function Magnitude(x: int): nat {
    if x < 0 then -x else x
  }

  function ScaledDecimal(amount: int, scale: nat): string {
    var digits := PadStart(NatText(Magnitude(amount)), scale + 1);
    PadStartShape(NatText(Magnitude(amount)), scale + 1);
    var cut := |digits| - scale;
    var fraction := if scale > 0 then StripTrailing(digits[cut..]) else "";
    (if amount < 0 then "-" else "") + digits[..cut] + if fraction != "" then "." + fraction else ""
  }

  lemma {:induction false} PadStartShape(s: string, length: nat)
    requires AllDigits(s)
    ensures var p := PadStart(s, length);
            && AllDigits(p) && DigitsValue(p) == DigitsValue(s) && |p| >= length && (|s| >= length ==> p == s)
            && (|s| < length ==> |p| == length)
    decreases length - |s|
  {
    if |s| < length {
      assert "0"[..0] == "";
      assert DigitsValue("0") == 0;
      DigitsConcat("0", s);
      PadStartShape("0" + s, length);
    }
  }

  lemma WholeIsShort(amount: int, scale: nat)
    ensures var digits := PadStart(NatText(Magnitude(amount)), scale + 1);
            |digits| > scale && AllDigits(digits) && ShortWhole(digits[..|digits| - scale])
  {
    var text := NatText(Magnitude(amount));
    PadStartShape(text, scale + 1);
  }

  lemma WrittenConcat(negative: bool, whole: string, fraction: string)
    requires negative ==> !(whole == "0" && fraction == "")
    ensures (if negative then "-" else "") + whole + (if fraction != "" then "." + fraction else "")
            == Written(negative, whole, fraction)
  {
    var u := if fraction == "" then whole else whole + "." + fraction;
    if fraction == "" {
      assert whole + "" == whole && ("-" + whole) + "" == "-" + whole;
    } else {
      assert u != "0" by { assert |whole + "." + fraction| > 1; }
      assert "-" + whole + ("." + fraction) == "-" + u;
      assert "" + whole + ("." + fraction) == u;
    }
  }

  /** The printed form of a scaled integer is the normal form of exactly that number. */
  lemma ScaledDecimalIsExact(amount: int, scale: nat)
    ensures Normal(ScaledDecimal(amount, scale))
            && Meaning(ScaledDecimal(amount, scale)) == Some(ValueOf(Scaled(amount, scale)))
  {
    hide ValueOf, Read, Trim, Normal, Meaning, NatText, PadStart, DigitsValue, Written, StripTrailing;
    StripNothing();
    var digits := PadStart(NatText(Magnitude(amount)), scale + 1);
    PadStartShape(NatText(Magnitude(amount)), scale + 1);
    WholeIsShort(amount, scale);
    var whole, raw := digits[..|digits| - scale], digits[|digits| - scale..];
    assert whole + raw == digits;
    var n := Numeral(amount < 0, whole, raw);
    assert Parts(n) == Scaled(amount, scale);
    WrittenMeans(amount < 0, whole, raw);
    var fraction := if scale > 0 then StripTrailing(raw) else "";
    assert fraction == StripTrailing(raw);
    if amount < 0 && whole == "0" && fraction == "" {
      StripTrailingKeeps(false, whole, raw);
      ZeroAmount(whole, raw);
    }
    WrittenConcat(amount < 0, whole, fraction);
  }

  lemma StripNothing()
    ensures StripTrailing("") == ""
  {
  }

  lemma ZeroAmount(whole: string, raw: string)
    requires whole == "0" && AllDigits(raw) && StripTrailing(raw) == ""
    ensures DigitsValue(whole + raw) == 0
    decreases |raw|
  {
    if raw == "" {
      assert whole + raw == "0" && "0"[..0] == "";
    } else {
      var front := raw[..|raw| - 1];
      ZeroAmount(whole, front);
      AllDigitsConcat(whole, front);
      assert whole + raw == (whole + front) + ['0'];
      DigitsOneMore(whole + front, '0');
    }
  }

  function Max(a: nat, b: nat): nat { if a < b then b else a }

  function AtScale(x: Scaled, scale: nat): int
    requires x.scale <= scale
  {
    x.amount * PowerOfTen(scale - x.scale)
  }

  datatype Bounds = Bounds(lower: string, upper: string)

  function NumericBounds(expected: string, tolerance: string): Result<Bounds, DecimalError> {
    match (DecimalParts(expected), DecimalParts(tolerance))
    case (Success(e), Success(t)) =>
      var scale := Max(e.scale, t.scale);
      Success(Bounds(ScaledDecimal(AtScale(e, scale) - AtScale(t, scale), scale),
                     ScaledDecimal(AtScale(e, scale) + AtScale(t, scale), scale)))
    case _ => Failure(NotADecimal)
  }

  /** Taking a text apart keeps its value. */
  lemma PartsAreExact(s: string)
    ensures DecimalParts(s).Success? <==> Meaning(s).Some?
    ensures DecimalParts(s).Success? ==> Some(ValueOf(DecimalParts(s).value)) == Meaning(s)
  {
    hide ValueOf, Parts, Read, Normalize;
    NormalizingKeepsTheValue(s);
    if Meaning(s).Some? {
      NormalReads(Normalize(s).value);
    }
  }

  lemma ValuesAdd(a: int, b: int, scale: nat)
    ensures ValueOf(Scaled(a + b, scale)) == ValueOf(Scaled(a, scale)) + ValueOf(Scaled(b, scale))
    ensures ValueOf(Scaled(a - b, scale)) == ValueOf(Scaled(a, scale)) - ValueOf(Scaled(b, scale))
  {
    assert (a + b) as real == (a as real) + (b as real);
    assert (a - b) as real == (a as real) - (b as real);
  }

  lemma ValuesCompare(a: int, b: int, scale: nat)
    ensures a <= b <==> ValueOf(Scaled(a, scale)) <= ValueOf(Scaled(b, scale))
  {
    var t := Tenth(scale);
    assert ((b as real) - (a as real)) * t == ValueOf(Scaled(b, scale)) - ValueOf(Scaled(a, scale));
    if a <= b {
      assert ((b as real) - (a as real)) * t >= 0.0;
    } else {
      assert ((a as real) - (b as real)) * t > 0.0;
      assert ((b as real) - (a as real)) * t == -(((a as real) - (b as real)) * t);
    }
  }

  /** The printed bounds are exactly expected minus and plus tolerance, whatever their digits. */
  lemma BoundsAreExact(expected: string, tolerance: string)
    ensures NumericBounds(expected, tolerance).Success? <==> Meaning(expected).Some? && Meaning(tolerance).Some?
    ensures NumericBounds(expected, tolerance).Success? ==>
              var b := NumericBounds(expected, tolerance).value;
              && Normal(b.lower) && Meaning(b.lower) == Some(Meaning(expected).value - Meaning(tolerance).value)
              && Normal(b.upper) && Meaning(b.upper) == Some(Meaning(expected).value + Meaning(tolerance).value)
  {
    hide ValueOf, Meaning, DecimalParts, Normal, ScaledDecimal;
    PartsAreExact(expected);
    PartsAreExact(tolerance);
    if DecimalParts(expected).Success? && DecimalParts(tolerance).Success? {
      var e, t := DecimalParts(expected).value, DecimalParts(tolerance).value;
      var scale := Max(e.scale, t.scale);
      var x, y := AtScale(e, scale), AtScale(t, scale);
      ScaleUp(e.amount, e.scale, scale - e.scale);
      ScaleUp(t.amount, t.scale, scale - t.scale);
      ValuesAdd(x, y, scale);
      ScaledDecimalIsExact(x - y, scale);
      ScaledDecimalIsExact(x + y, scale);
    }
  }

  /** How the game engine judges a numeric answer, in integers of a common scale. */
  function WithinTolerance(actual: string, expected: string, tolerance: string): Result<bool, DecimalError> {
    match (DecimalParts(actual), DecimalParts(expected), DecimalParts(tolerance))
    case (Success(a), Success(e), Success(t)) =>
      var scale := Max(a.scale, Max(e.scale, t.scale));
      var x, y := AtScale(a, scale), AtScale(e, scale);
      Success((if x >= y then x - y else y - x) <= AtScale(t, scale))
    case _ => Failure(NotADecimal)
  }

  /** An exported question accepts exactly the answers the game engine accepts: those between the printed bounds. */
  lemma BoundsAgreeWithTheEngine(actual: string, expected: string, tolerance: string)
    requires Meaning(actual).Some? && Meaning(expected).Some? && Meaning(tolerance).Some?
    ensures NumericBounds(expected, tolerance).Success?
    ensures var b := NumericBounds(expected, tolerance).value;
            && Meaning(b.lower).Some? && Meaning(b.upper).Some?
            && (WithinTolerance(actual, expected, tolerance) == Success(true)
                <==> Meaning(b.lower).value <= Meaning(actual).value <= Meaning(b.upper).value)
  {
    hide ValueOf, Meaning, DecimalParts, Normal, NumericBounds;
    BoundsAreExact(expected, tolerance);
    PartsAreExact(actual);
    PartsAreExact(expected);
    PartsAreExact(tolerance);
    var a, e, t := DecimalParts(actual).value, DecimalParts(expected).value, DecimalParts(tolerance).value;
    var scale := Max(a.scale, Max(e.scale, t.scale));
    var x, y, z := AtScale(a, scale), AtScale(e, scale), AtScale(t, scale);
    ScaleUp(a.amount, a.scale, scale - a.scale);
    ScaleUp(e.amount, e.scale, scale - e.scale);
    ScaleUp(t.amount, t.scale, scale - t.scale);
    ValuesAdd(y, z, scale);
    ValuesCompare(x, y + z, scale);
    ValuesCompare(y - z, x, scale);
  }
}
