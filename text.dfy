/**
 * String building and parsing the pages and routes use: `String(n)`,
 * `padStart(2, '0')`, the `YYYY-MM-DD` date key (the calendar-date extended
 * format of section 4.1.2.2 of ISO 8601:2004), its `YYYY-MM` month prefix,
 * "HH:MM" clock strings split into minutes, and `s.trim() === ''`.
 */
module Text {
  import opened Civil
  import opened Wrappers

  predicate IsDigit(c: char)
  {
    '0' <= c <= '9'
  }

  predicate AllDigits(s: string)
  {
    forall i :: 0 <= i < |s| ==> IsDigit(s[i])
  }

  function DigitChar(n: nat): (c: char)
    requires n < 10
    ensures IsDigit(c)
  {
    ['0', '1', '2', '3', '4', '5', '6', '7', '8', '9'][n]
  }

  function DigitValue(c: char): (n: nat)
    requires IsDigit(c)
    ensures n < 10
  {
    (c as int - '0' as int) as nat
  }

  lemma DigitRoundTrip(n: nat)
    requires n < 10
    ensures DigitValue(DigitChar(n)) == n
  {
  }

  /** `String(n)` for a non-negative integer: decimal, no leading zero. */
  function NatToString(n: nat): (s: string)
    ensures 1 <= |s|
    ensures AllDigits(s)
    ensures n < 10 <==> |s| == 1
    decreases n
  {
    if n < 10 then [DigitChar(n)] else NatToString(n / 10) + [DigitChar(n % 10)]
  }

  /** `Number(s)` for a string of decimal digits. */
  function ParseDigits(s: string): (n: nat)
    requires AllDigits(s)
    decreases |s|
  {
    if s == [] then 0 else 10 * ParseDigits(s[..|s| - 1]) + DigitValue(s[|s| - 1])
  }

  /** Printing then parsing gives the number back. */
  lemma {:induction false} NatToStringRoundTrip(n: nat)
    ensures ParseDigits(NatToString(n)) == n
    decreases n
  {
    if n >= 10 {
      var s := NatToString(n);
      assert s[..|s| - 1] == NatToString(n / 10);
      NatToStringRoundTrip(n / 10);
    }
  }

  /** `String(n).padStart(2, '0')`. */
  function Pad2(n: nat): string
  {
    if n < 10 then "0" + NatToString(n) else NatToString(n)
  }

  /** Padding keeps the digits and their value, and numbers below 100 take exactly two characters. */
  lemma Pad2Facts(n: nat)
    ensures AllDigits(Pad2(n))
    ensures n < 100 ==> |Pad2(n)| == 2
    ensures ParseDigits(Pad2(n)) == n
  {
    NatToStringRoundTrip(n);
    if n < 10 {
      assert Pad2(n)[..1] == "0";
    }
  }

  /** `String(y)` for a year, which may be negative. */
  function IntToString(y: int): string
  {
    if y < 0 then "-" + NatToString(-y) else NatToString(y)
  }

  /** `${year}-${String(month).padStart(2, '0')}`: the month key. */
  function MonthKey(year: int, month: nat): string
  {
    IntToString(year) + "-" + Pad2(month)
  }

  /** `${year}-${MM}-${DD}`: the date key of a calendar day. */
  function DateKey(d: Date): string
    requires d.month >= 0 && d.day >= 0
  {
    MonthKey(d.year, d.month) + "-" + Pad2(d.day)
  }

  /** For a four-digit year the key has the ISO 8601 extended shape YYYY-MM-DD. */
  lemma DateKeyShape(d: Date)
    requires ValidDate(d) && 1000 <= d.year <= 9999
    ensures |DateKey(d)| == 10
    ensures DateKey(d)[4] == '-' && DateKey(d)[7] == '-'
    ensures forall i :: 0 <= i < 10 && i != 4 && i != 7 ==> IsDigit(DateKey(d)[i])
  {
    Pad2Facts(d.month);
    Pad2Facts(d.day);
    var y := NatToString(d.year);
    assert |y| == 4 by {
      assert NatToString(d.year / 10) == NatToString(d.year / 10 / 10) + [DigitChar(d.year / 10 % 10)];
      assert NatToString(d.year / 100) == NatToString(d.year / 100 / 10) + [DigitChar(d.year / 100 % 10)];
    }
  }

  /** Read a `YYYY-MM-DD` key back. */
  function ParseDateKey(s: string): (r: Option<Date>)
    ensures r.Some? ==> |s| == 10
  {
    if |s| == 10 && s[4] == '-' && s[7] == '-' && AllDigits(s[..4]) && AllDigits(s[5..7]) && AllDigits(s[8..])
    then Some(Date(ParseDigits(s[..4]), ParseDigits(s[5..7]), ParseDigits(s[8..])))
    else None
  }

  /** Formatting a date with a four-digit year and parsing it back is the identity. */
  lemma DateKeyRoundTrip(d: Date)
    requires ValidDate(d) && 1000 <= d.year <= 9999
    ensures ParseDateKey(DateKey(d)) == Some(d)
  {
    DateKeyShape(d);
    Pad2Facts(d.month);
    Pad2Facts(d.day);
    var k := DateKey(d);
    var y := NatToString(d.year);
    assert |y| == 4 by { DateKeyShape(d); }
    assert k[..4] == y;
    assert k[5..7] == Pad2(d.month);
    assert k[8..] == Pad2(d.day);
    NatToStringRoundTrip(d.year);
  }

  predicate IsPrefix(p: string, s: string)
  {
    |p| <= |s| && s[..|p|] == p
  }

  lemma PrefixChar(p: string, s: string, i: int)
    requires IsPrefix(p, s) && 0 <= i < |p|
    ensures s[i] == p[i]
  {
    assert s[..|p|][i] == s[i];
  }

  /** Two digit runs followed by '-' that agree up to and including the first '-' are equal. */
  lemma SeparatorAligns(a: string, b: string, rest: string)
    requires AllDigits(a) && AllDigits(b)
    requires IsPrefix(a + "-", b + "-" + rest)
    ensures a == b
  {
    var t := b + "-" + rest;
    if |a| < |b| {
      PrefixChar(a + "-", t, |a|);
      assert false;
    } else if |a| > |b| {
      PrefixChar(a + "-", t, |b|);
      assert false;
    } else {
      assert a == (a + "-")[..|a|];
      assert b == t[..|a|];
    }
  }

  /** A date key starts with the month key of its own year and month. */
  lemma MonthKeyPrefixOwn(d: Date)
    requires ValidDate(d)
    ensures IsPrefix(MonthKey(d.year, d.month), DateKey(d))
  {
    var mk := MonthKey(d.year, d.month);
    assert DateKey(d)[..|mk|] == mk;
  }

  /** A prefix `p + q` of `s` splits into a prefix `p` followed by `q`. */
  lemma PrefixSplit(p: string, q: string, s: string)
    requires IsPrefix(p + q, s)
    ensures IsPrefix(p, s) && s[|p|..|p| + |q|] == q
  {
    assert s[..|p|] == (p + q)[..|p|];
    assert s[|p|..|p| + |q|] == (p + q)[|p|..];
  }

  /** The `k` characters after a prefix `p` are the first `k` of what follows it. */
  lemma SliceAfter(p: string, r: string, k: int)
    requires 0 <= k <= |r|
    ensures (p + r)[|p|..|p| + k] == r[..k]
  {
  }

  /** `a-pm` is a prefix of `b-pd-dd` for digit runs `a`, `b` and two-character `pm`, `pd` only when `a == b` and `pm == pd`. */
  lemma KeyPrefixParts(a: string, pm: string, b: string, pd: string, dd: string)
    requires AllDigits(a) && AllDigits(b) && |pm| == 2 && |pd| == 2
    requires IsPrefix(a + "-" + pm, b + "-" + pd + "-" + dd)
    ensures a == b && pm == pd
  {
    var rest := pd + "-" + dd;
    var t := b + "-" + pd + "-" + dd;
    assert t == (b + "-") + rest;
    PrefixSplit(a + "-", pm, t);
    SeparatorAligns(a, b, rest);
    SliceAfter(b + "-", rest, 2);
    assert rest[..2] == pd;
  }

  /** A date key starts with a month key only of its own year and month (non-negative years). */
  lemma MonthKeyPrefixOnlyOwn(d: Date, year: nat, month: int)
    requires ValidDate(d) && d.year >= 0 && 1 <= month <= 12
    requires IsPrefix(MonthKey(year, month), DateKey(d))
    ensures d.year == year && d.month == month
  {
    Pad2Facts(month);
    Pad2Facts(d.month);
    KeyPrefixParts(NatToString(year), Pad2(month), NatToString(d.year), Pad2(d.month), Pad2(d.day));
    NatToStringRoundTrip(year);
    NatToStringRoundTrip(d.year);
  }

  /** `dateKey.startsWith(monthKey)` picks out exactly the days of that month (non-negative years). */
  lemma MonthKeyPrefixIff(d: Date, year: nat, month: int)
    requires ValidDate(d) && d.year >= 0 && 1 <= month <= 12
    ensures IsPrefix(MonthKey(year, month), DateKey(d)) <==> d.year == year && d.month == month
  {
    if IsPrefix(MonthKey(year, month), DateKey(d)) {
      MonthKeyPrefixOnlyOwn(d, year, month);
    } else if d.year == year && d.month == month {
      MonthKeyPrefixOwn(d);
    }
  }

  /** An "HH:MM" clock string. */
  predicate IsClock(s: string)
  {
    |s| == 5 && s[2] == ':' && IsDigit(s[0]) && IsDigit(s[1]) && IsDigit(s[3]) && IsDigit(s[4])
  }

  /** `const [h, m] = s.split(':').map(Number); h * 60 + m`. */
  function ClockMinutes(s: string): (n: nat)
    requires IsClock(s)
  {
    60 * ParseDigits(s[..2]) + ParseDigits(s[3..])
  }

  /** The hour grid's `formatTime`: `${String(hour).padStart(2, '0')}:00`. */
  function FormatHour(hour: nat): string
  {
    Pad2(hour) + ":00"
  }

  /** A two-digit hour label reads back as that hour, on the minute. */
  lemma FormatHourRoundTrip(hour: nat)
    requires hour < 100
    ensures IsClock(FormatHour(hour))
    ensures ClockMinutes(FormatHour(hour)) == 60 * hour
  {
    var s := FormatHour(hour);
    Pad2Facts(hour);
    assert s[..2] == Pad2(hour);
    assert s[3..] == "00";
    assert ParseDigits("00") == 0 by { assert "00"[..1] == "0"; }
  }

  /** ECMAScript white space and line terminators, which `trim()` removes. */
  predicate IsJsWhitespace(c: char)
  {
    c in {'\U{9}', '\U{A}', '\U{B}', '\U{C}', '\U{D}', '\U{20}', '\U{A0}', '\U{1680}',
          '\U{2000}', '\U{2001}', '\U{2002}', '\U{2003}', '\U{2004}', '\U{2005}', '\U{2006}', '\U{2007}',
          '\U{2008}', '\U{2009}', '\U{200A}', '\U{2028}', '\U{2029}', '\U{202F}', '\U{205F}', '\U{3000}',
          '\U{FEFF}'}
  }

  /** `s.trim() === ''`. */
  predicate IsBlank(s: string)
  {
    forall i :: 0 <= i < |s| ==> IsJsWhitespace(s[i])
  }
}
