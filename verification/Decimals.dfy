/** Decimal numbers as text: a normal form, exact scaled arithmetic, and the bounds of a tolerance. */
module Decimals {
  import opened Common
  import opened Text

  datatype DecimalError = NotADecimal

  // ---------------------------------------------------------------- numerals and their values

  /** A numeral taken apart: its sign, the digits before the point and the digits after it. */
  datatype Numeral = Numeral(negative: bool, whole: string, fraction: string)

  predicate AllDigits(s: string) {
    forall i | 0 <= i < |s| :: '0' <= s[i] <= '9'
  }

  /** The natural number a string of digits denotes. */
  function DigitsValue(s: string): nat
    requires AllDigits(s)
  {
    if s == "" then 0 else DigitsValue(s[..|s| - 1]) * 10 + ((s[|s| - 1] as int) - ('0' as int))
  }

  /** The position of the first decimal point, or the length if there is none. */
  function PointAt(s: string): (p: nat)
    ensures p <= |s| && (p < |s| ==> s[p] == '.') && forall i | 0 <= i < p :: s[i] != '.'
  {
    if s == "" || s[0] == '.' then 0 else 1 + PointAt(s[1..])
  }

  function Unsigned(s: string): string {
    if s != "" && (s[0] == '+' || s[0] == '-') then s[1..] else s
  }

  predicate Negative(s: string) {
    s != "" && s[0] == '-'
  }

  /** An optional sign, digits with at most one point among them, and at least one digit. */
  function Read(s: string): (n: Option<Numeral>)
    ensures n.Some? ==> AllDigits(n.value.whole) && AllDigits(n.value.fraction)
  {
    var u := Unsigned(s);
    var p := PointAt(u);
    var whole, fraction := u[..p], if p < |u| then u[p + 1..] else "";
    if AllDigits(whole) && AllDigits(fraction) && whole + fraction != ""
    then Some(Numeral(Negative(s), whole, fraction)) else None
  }

  /** The number amount / 10^scale. */
  datatype Scaled = Scaled(amount: int, scale: nat)

  function PowerOfTen(n: nat): (p: int)
    ensures p > 0
  {
    if n == 0 then 1 else 10 * PowerOfTen(n - 1)
  }

  /** One tenth, `n` times over. */
  function Tenth(n: nat): (t: real)
    ensures t > 0.0
  {
    if n == 0 then 1.0 else Tenth(n - 1) / 10.0
  }

  function ValueOf(x: Scaled): real {
    (x.amount as real) * Tenth(x.scale)
  }

  lemma AllDigitsConcat(a: string, b: string)
    ensures AllDigits(a + b) <==> AllDigits(a) && AllDigits(b)
  {
    forall i | 0 <= i < |a| ensures (a + b)[i] == a[i] {
    }
    forall i | 0 <= i < |b| ensures (a + b)[|a| + i] == b[i] {
    }
  }

  function Parts(n: Numeral): Scaled
    requires AllDigits(n.whole) && AllDigits(n.fraction)
  {
    AllDigitsConcat(n.whole, n.fraction);
    var digits: int := DigitsValue(n.whole + n.fraction);
    Scaled(if n.negative then -digits else digits, |n.fraction|)
  }

  /** What a text denotes, if it is a decimal numeral between optional white space. */
  function Meaning(s: string): Option<real> {
    match Read(Trim(s))
    case Some(n) => Some(ValueOf(Parts(n)))
    case None => None
  }

  // ---------------------------------------------------------------- the normal form

  function StripLeading(s: string): string {
    if |s| > 1 && s[0] == '0' then StripLeading(s[1..]) else s
  }

  function StripTrailing(s: string): string {
    if s != "" && s[|s| - 1] == '0' then StripTrailing(s[..|s| - 1]) else s
  }

  /** The unsigned text of a numeral. */
  function Plain(whole: string, fraction: string): string {
    if fraction == "" then whole else whole + "." + fraction
  }

  function Written(negative: bool, whole: string, fraction: string): string {
    var unsigned := Plain(whole, fraction);
    if negative && unsigned != "0" then "-" + unsigned else unsigned
  }

  function Normalize(s: string): Result<string, DecimalError> {
    match Read(Trim(s))
    case Some(n) =>
      Success(Written(n.negative, if n.whole == "" then "0" else StripLeading(n.whole), StripTrailing(n.fraction)))
    case None => Failure(NotADecimal)
  }

  lemma {:induction false} StripLeadingFrom(s: string, start: nat)
    requires start < |s| && forall i | 0 <= i < start :: s[i] == '0'
    requires start == |s| - 1 || s[start] != '0'
    ensures StripLeading(s) == s[start..]
  {
    if start > 0 {
      StripLeadingFrom(s[1..], start - 1);
      assert s[1..][start - 1..] == s[start..];
    }
  }

  lemma {:induction false} StripTrailingTo(s: string, end: nat)
    requires end <= |s| && forall i | end <= i < |s| :: s[i] == '0'
    requires end == 0 || s[end - 1] != '0'
    ensures StripTrailing(s) == s[..end]
  {
    if end < |s| {
      StripTrailingTo(s[..|s| - 1], end);
      assert s[..|s| - 1][..end] == s[..end];
    }
  }

  /** The scan of a text without its sign: digits so far, and where the point was, if there was one. */
  predicate Scanned(u: string, cursor: nat, point: int, hasDigit: bool) {
    && cursor <= |u| && (point == -1 || 0 <= point < cursor)
    && (forall i | 0 <= i < cursor :: if i == point then u[i] == '.' else '0' <= u[i] <= '9')
    && (hasDigit <==> cursor > if point == -1 then 0 else 1)
  }

  lemma PointFound(u: string, cursor: nat, point: int, hasDigit: bool)
    requires Scanned(u, cursor, point, hasDigit) && (point != -1 || cursor == |u|)
    ensures PointAt(u) == if point == -1 then |u| else point
  {
    if point != -1 {
      assert u[point] == '.';
    }
  }

  lemma ScanAccepts(u: string, point: int, hasDigit: bool)
    requires Scanned(u, |u|, point, hasDigit)
    ensures var whole, fraction := u[..PointAt(u)], if PointAt(u) < |u| then u[PointAt(u) + 1..] else "";
            AllDigits(whole) && AllDigits(fraction) && (hasDigit <==> whole + fraction != "")
  {
    PointFound(u, |u|, point, hasDigit);
    var whole, fraction := u[..PointAt(u)], if PointAt(u) < |u| then u[PointAt(u) + 1..] else "";
    assert |whole + fraction| == |whole| + |fraction|;
  }

  lemma ScanRejects(u: string, cursor: nat, point: int, hasDigit: bool)
    requires Scanned(u, cursor, point, hasDigit)
    requires cursor < |u| && !('0' <= u[cursor] <= '9') && !(u[cursor] == '.' && point == -1)
    ensures var whole, fraction := u[..PointAt(u)], if PointAt(u) < |u| then u[PointAt(u) + 1..] else "";
            !(AllDigits(whole) && AllDigits(fraction))
  {
    var p := PointAt(u);
    if point != -1 {
      PointFound(u, cursor, point, hasDigit);
      assert u[p + 1..][cursor - p - 1] == u[cursor];
    } else {
      assert u[..p][cursor] == u[cursor];
    }
  }

  /** Looks at every character once; `point` is where the decimal point stands, or -1. */
  method ScanNumber(t: string) returns (point: int, valid: bool)
    ensures valid <==> Read(t).Some?
    ensures valid ==>
              && -1 <= point < |Unsigned(t)|
              && PointAt(Unsigned(t)) == if point == -1 then |Unsigned(t)| else point
  {
    var u := Unsigned(t);
    var cursor, hasDigit := 0, false;
    point := -1;
    while cursor < |u|
      invariant Scanned(u, cursor, point, hasDigit)
    {
      var character := u[cursor];
      if '0' <= character <= '9' {
        hasDigit := true;
      } else if character == '.' && point == -1 {
        point := cursor;
      } else {
        ScanRejects(u, cursor, point, hasDigit);
        return point, false;
      }
      cursor := cursor + 1;
    }
    ScanAccepts(u, point, hasDigit);
    PointFound(u, cursor, point, hasDigit);
    valid := hasDigit;
  }

  method WithoutLeadingZeros(digits: string) returns (rest: string)
    ensures rest == StripLeading(digits)
  {
    var start := 0;
    while start + 1 < |digits| && digits[start] == '0'
      invariant 0 <= start <= |digits| && (digits != "" ==> start < |digits|)
      invariant forall i | 0 <= i < start :: digits[i] == '0'
    {
      start := start + 1;
    }
    if digits != "" {
      StripLeadingFrom(digits, start);
    }
    rest := digits[start..];
  }

  method WithoutTrailingZeros(digits: string) returns (rest: string)
    ensures rest == StripTrailing(digits)
  {
    var end := |digits|;
    while end > 0 && digits[end - 1] == '0'
      invariant 0 <= end <= |digits|
      invariant forall i | end <= i < |digits| :: digits[i] == '0'
    {
      end := end - 1;
    }
    StripTrailingTo(digits, end);
    rest := digits[..end];
  }

  method NormalizeDecimalString(value: string) returns (result: Result<string, DecimalError>)
    ensures result == Normalize(value)
  {
    var trimmed := Trim(value);
    var point, valid := ScanNumber(trimmed);
    if !valid {
      return Failure(NotADecimal);
    }
    var u := Unsigned(trimmed);
    var whole := if point == -1 then u else u[..point];
    var fraction := if point == -1 then "" else u[point + 1..];
    assert u[..|u|] == u;
    var integer := "0";
    if whole != "" {
      integer := WithoutLeadingZeros(whole);
    }
    fraction := WithoutTrailingZeros(fraction);
    result := Success(Written(Negative(trimmed), integer, fraction));
  }
}
