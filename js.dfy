/**
 * The JavaScript semantics the routes lean on: truthiness of request values,
 * `parseInt`, the `Date` constructor's month arithmetic (including its
 * two-digit-year rule), `Math.floor`, the truncating `%` operator and the
 * parsing of an "HH:MM" time of day.
 */
module Js {
  import opened Wrappers
  import opened Civil
  import Text

  /** A value read from a JSON body or a query string. Numbers are integers here. */
  datatype JsValue = Undefined | Null | Str(s: string) | Num(n: int)

  /** `!!v`: everything except `undefined`, `null`, `''` and `0`. */
  predicate Truthy(v: JsValue)
  {
    match v
    case Undefined => false
    case Null => false
    case Str(s) => s != ""
    case Num(n) => n != 0
  }

  /** An optional string field: `undefined` or a string; truthy when present and not empty. */
  predicate Present(v: Option<string>)
  {
    v.Some? && v.value != ""
  }

  /** The longest run of decimal digits at the start of `s`. */
  function LeadingDigits(s: string): (d: string)
    ensures Text.AllDigits(d) && |d| <= |s| && d == s[..|d|]
    ensures |d| < |s| ==> !Text.IsDigit(s[|d|])
  {
    if s == [] || !Text.IsDigit(s[0]) then ""
    else
      var rest := LeadingDigits(s[1..]);
      assert s[..1 + |rest|] == [s[0]] + s[1..][..|rest|];
      [s[0]] + rest
  }

  /** `s` without its leading white space. */
  function TrimStart(s: string): (t: string)
    ensures |t| <= |s| && t == s[|s| - |t|..]
    ensures t != [] ==> !Text.IsJsWhitespace(t[0])
  {
    if s != [] && Text.IsJsWhitespace(s[0]) then TrimStart(s[1..]) else s
  }

  /** `parseInt(v)` in base 10; `None` stands for `NaN`. */
  function ParseInt(v: JsValue): (r: Option<int>)
    ensures v.Num? ==> r == Some(v.n)
    ensures v.Undefined? || v.Null? ==> r.None?
  {
    match v
    case Num(n) => Some(n)
    case Str(s) => ParseSigned(TrimStart(s))
    case _ => None
  }

  /** `parseInt` once the leading white space is gone: an optional sign, then the leading digits. */
  function ParseSigned(t: string): Option<int>
  {
    var negative := t != [] && t[0] == '-';
    var unsigned := if t != [] && (t[0] == '-' || t[0] == '+') then t[1..] else t;
    var digits := LeadingDigits(unsigned);
    if digits == "" then None
    else Some(if negative then -(Text.ParseDigits(digits) as int) else Text.ParseDigits(digits))
  }

  /** `parseInt` reads back the decimal string of any integer. */
  lemma ParseIntRoundTrip(n: int)
    ensures ParseInt(Str(Text.IntToString(n))) == Some(n)
  {
    var m: nat := if n < 0 then -n else n;
    var digits := Text.NatToString(m);
    Text.NatToStringRoundTrip(m);
    if n < 0 {
      TrimStartKeeps("-" + digits);
      ParseSignedNegative(digits);
    } else {
      TrimStartKeeps(digits);
      ParseSignedDigits(digits);
    }
  }

  /** A string starting with a sign or a digit has no leading white space to trim. */
  lemma TrimStartKeeps(s: string)
    requires s != [] && (s[0] == '-' || Text.IsDigit(s[0]))
    ensures TrimStart(s) == s
  {
    assert !Text.IsJsWhitespace(s[0]);
  }

  lemma ParseSignedDigits(digits: string)
    requires digits != [] && Text.AllDigits(digits)
    ensures ParseSigned(digits) == Some(Text.ParseDigits(digits) as int)
  {
    LeadingDigitsAll(digits);
    assert Text.IsDigit(digits[0]);
  }

  lemma ParseSignedNegative(digits: string)
    requires digits != [] && Text.AllDigits(digits)
    ensures ParseSigned("-" + digits) == Some(-(Text.ParseDigits(digits) as int))
  {
    LeadingDigitsAll(digits);
    assert ("-" + digits)[1..] == digits;
  }

  /** A string of digits is its own leading run. */
  lemma {:induction false} LeadingDigitsAll(s: string)
    requires Text.AllDigits(s)
    ensures LeadingDigits(s) == s
  {
    if s != [] {
      LeadingDigitsAll(s[1..]);
    }
  }

  /** The year the `Date` constructor uses: 0 to 99 mean 1900 to 1999. */
  function ConstructorYear(y: int): (r: int)
    ensures 0 <= y <= 99 ==> r == 1900 + y
    ensures !(0 <= y <= 99) ==> r == y
  {
    if 0 <= y <= 99 then 1900 + y else y
  }

  /** `new Date(y, m - 1, 1)`: the first day of month `m` (1-based), rolled over into other years as needed. */
  function MonthStart(y: int, m: int): Date
  {
    FirstOfMonth(ConstructorYear(y), m - 1)
  }

  /** `new Date(y, m, 0)`: the last day of month `m` (1-based). */
  function MonthEnd(y: int, m: int): Date
  {
    DayZero(ConstructorYear(y), m)
  }

  /** A date in `[new Date(y, m - 1, 1), new Date(y, m, 0)]`, both ends included. */
  predicate InMonthRange(d: Date, y: int, m: int)
    requires ValidDate(d)
  {
    DayNumber(MonthStart(y, m)) <= DayNumber(d) <= DayNumber(MonthEnd(y, m))
  }

  /** For a month 1..12 the range covers exactly the days of that month of the constructor's year. */
  lemma MonthRangeIff(d: Date, y: int, m: int)
    requires ValidDate(d) && 1 <= m <= 12
    ensures MonthStart(y, m) == Date(ConstructorYear(y), m, 1)
    ensures MonthEnd(y, m) == Date(ConstructorYear(y), m, DaysInMonth(ConstructorYear(y), m))
    ensures InMonthRange(d, y, m) <==> d.year == ConstructorYear(y) && d.month == m
  {
    var yy := ConstructorYear(y);
    MonthBounds(yy, m);
    InMonthIff(d, yy, m);
  }

  /** `Math.floor(a / b)` for a positive divisor. */
  function FloorDiv(a: int, b: int): (q: int)
    requires b > 0
    ensures q * b <= a < q * b + b
  {
    a / b
  }

  /** JavaScript's `a % b`: the remainder takes the sign of `a`. */
  function TruncRem(a: int, b: int): (r: int)
    requires b > 0
    ensures a >= 0 ==> r == a % b
    ensures a < 0 ==> -b < r <= 0
    ensures a < 0 ==> r == 0 || r == a % b - b
  {
    if a >= 0 then a % b
    else
      TruncRemNegative(a, b);
      -((-a) % b)
  }

  /** For a negative dividend the truncated remainder is the floored one shifted down by `b`, unless both are 0. */
  lemma TruncRemNegative(a: int, b: int)
    requires b > 0 && a < 0
    ensures (-a) % b == 0 || -((-a) % b) == a % b - b
  {
    var q := (-a) / b;
    var e := (-a) % b;
    assert -a == q * b + e;
    if e != 0 {
      assert a == b * (-q - 1) + (b - e);
      DivUnique(a, b, -q - 1, b - e);
    }
  }

  /**
   * The minutes since midnight of `new Date(`1970-01-01T${s}`)` for an "HH:MM"
   * time; `None` stands for an invalid date (`NaN`). Hour 24 is allowed only as 24:00.
   */
  function TimeOfDay(s: string): (r: Option<int>)
    ensures r.Some? ==> Text.IsClock(s) && 0 <= r.value <= 1440
  {
    if !Text.IsClock(s) then None
    else
      var h := Text.ParseDigits(s[..2]);
      var m := Text.ParseDigits(s[3..]);
      if (h < 24 && m < 60) || (h == 24 && m == 0) then Some(60 * h + m) else None
  }
}
