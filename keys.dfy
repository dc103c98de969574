/** The cache keys of the period store, all zero-padded decimal: day keys
    "YYMMDD" (Go layout "060102"), month keys "monthly-YYYYMM", year keys
    "yearly-YYYY" and the raw-year snapshot key "YYYY". Each key family comes
    with a decoder and a round-trip lemma, from which injectivity follows. */
module Keys {
  import opened Calendar
  import opened Wrappers

  // ---------------------------------------------------------------------
  // Decimal digits

  predicate IsDigit(c: char) { '0' <= c <= '9' }

  predicate AllDigits(s: string) { forall i :: 0 <= i < |s| ==> IsDigit(s[i]) }

  function DigitChar(d: int): (c: char)
    requires 0 <= d < 10
    ensures IsDigit(c)
  {
    (48 + d) as char
  }

  function DigitValue(c: char): (d: nat)
    requires IsDigit(c)
    ensures d < 10
  {
    (c as int) - 48
  }

  /** The decimal representation of n, without leading zeros ("%d"). */
  function Digits(n: nat): (s: string)
    ensures 1 <= |s| && AllDigits(s)
    decreases n
  {
    if n < 10 then [DigitChar(n)] else Digits(n / 10) + [DigitChar(n % 10)]
  }

  /** "%0<width>d": n in decimal, left-padded with zeros, one at a time,
      until it is at least width characters long. */
  function Padded(n: nat, width: nat): (s: string)
    ensures AllDigits(s) && |s| >= width
    decreases width
  {
    if width <= |Digits(n)| then Digits(n) else ['0'] + Padded(n, width - 1)
  }

  /** The value of a string of decimal digits. */
  function ParseDigits(s: string): nat
    requires AllDigits(s)
    decreases |s|
  {
    if s == [] then 0 else 10 * ParseDigits(s[..|s| - 1]) + DigitValue(s[|s| - 1])
  }

  lemma {:induction false} ParseDigitsOfDigits(n: nat)
    ensures ParseDigits(Digits(n)) == n
    decreases n
  {
    if n >= 10 {
      ParseDigitsOfDigits(n / 10);
      var s := Digits(n);
      assert s[..|s| - 1] == Digits(n / 10);
    }
  }

  /** A leading zero does not change the value read. */
  lemma {:induction false} ParseLeadingZero(s: string)
    requires AllDigits(s)
    ensures ParseDigits(['0'] + s) == ParseDigits(s)
    decreases |s|
  {
    if s != [] {
      var t := ['0'] + s;
      assert t[..|t| - 1] == ['0'] + s[..|s| - 1];
      ParseLeadingZero(s[..|s| - 1]);
    }
  }

  lemma AllDigitsConcat(a: string, b: string)
    requires AllDigits(a) && AllDigits(b)
    ensures AllDigits(a + b)
  {
  }

  lemma Split(a: string, b: string)
    ensures (a + b)[..|a|] == a && (a + b)[|a|..] == b
  {
  }

  /** Reading a padded number back gives the number: "%0Nd" loses nothing. */
  lemma {:induction false} PaddedRoundTrip(n: nat, width: nat)
    ensures ParseDigits(Padded(n, width)) == n
    decreases width
  {
    if width <= |Digits(n)| {
      ParseDigitsOfDigits(n);
    } else {
      PaddedRoundTrip(n, width - 1);
      ParseLeadingZero(Padded(n, width - 1));
    }
  }

  lemma {:induction false} DigitsLength(n: nat, k: nat)
    requires n < Pow10(k) && k >= 1
    ensures |Digits(n)| <= k
    decreases n
  {
    if n >= 10 {
      DigitsLength(n / 10, k - 1);
    }
  }

  function Pow10(k: nat): nat {
    if k == 0 then 1 else 10 * Pow10(k - 1)
  }

  /** A number below 10^width pads to exactly width characters. */
  lemma PaddedLength(n: nat, width: nat)
    requires n < Pow10(width) && width >= 1
    ensures |Padded(n, width)| == width
  {
    DigitsLength(n, width);
    PaddedLengthIsWider(n, width);
  }

  /** Padding gives the longer of width and the unpadded digits. */
  lemma {:induction false} PaddedLengthIsWider(n: nat, width: nat)
    ensures |Padded(n, width)| == if width <= |Digits(n)| then |Digits(n)| else width
    decreases width
  {
    if width > |Digits(n)| {
      PaddedLengthIsWider(n, width - 1);
    }
  }

  // ---------------------------------------------------------------------
  // The four key families

  const MonthlyPrefix: string := "monthly-"
  const YearlyPrefix: string := "yearly-"

  /** fmt.Sprintf("monthly-%04d%02d", year, month) */
  function MonthlyKey(y: nat, m: int): (k: string)
    requires 1 <= m <= 12
    ensures |k| >= |MonthlyPrefix| + 6 && k[..|MonthlyPrefix|] == MonthlyPrefix
  {
    MonthlyPrefix + Padded(y, 4) + Padded(m, 2)
  }

  /** fmt.Sprintf("yearly-%04d", year) */
  function YearlyKey(y: nat): (k: string)
    ensures |k| >= |YearlyPrefix| + 4 && k[..|YearlyPrefix|] == YearlyPrefix
  {
    YearlyPrefix + Padded(y, 4)
  }

  /** The raw-year snapshot key: Go layout "2006", four digits zero-padded. */
  function YearKey(y: nat): (k: string)
    ensures AllDigits(k)
  {
    Padded(y, 4)
  }

  /** The day key: Go layout "060102", a two-digit year, month and day. */
  function DayKey(d: Date): (k: string)
    requires ValidDate(d)
    ensures |k| == 6 && AllDigits(k)
  {
    PaddedLength(d.year % 100, 2);
    PaddedLength(d.month, 2);
    PaddedLength(d.day, 2);
    Padded(d.year % 100, 2) + Padded(d.month, 2) + Padded(d.day, 2)
  }

  /** Decodes a month key back into (year, month). */
  function ParseMonthlyKey(k: string): Option<(nat, int)> {
    var n := |MonthlyPrefix|;
    if |k| >= n + 2 && k[..n] == MonthlyPrefix && AllDigits(k[n..]) then
      Some((ParseDigits(k[n..|k| - 2]), ParseDigits(k[|k| - 2..])))
    else None
  }

  function ParseYearlyKey(k: string): Option<nat> {
    var n := |YearlyPrefix|;
    if |k| >= n && k[..n] == YearlyPrefix && AllDigits(k[n..]) then
      Some(ParseDigits(k[n..]))
    else None
  }

  function ParseYearKey(k: string): Option<nat> {
    if AllDigits(k) then Some(ParseDigits(k)) else None
  }

  /** Decodes a day key into (year modulo 100, month, day). */
  function ParseDayKey(k: string): Option<(nat, nat, nat)> {
    if |k| == 6 && AllDigits(k) then
      Some((ParseDigits(k[..2]), ParseDigits(k[2..4]), ParseDigits(k[4..])))
    else None
  }

  lemma MonthlyKeyRoundTrip(y: nat, m: int)
    requires 1 <= m <= 12
    ensures ParseMonthlyKey(MonthlyKey(y, m)) == Some((y, m))
  {
    var k := MonthlyKey(y, m);
    var year, month := Padded(y, 4), Padded(m, 2);
    PaddedLength(m, 2);
    PaddedRoundTrip(y, 4);
    PaddedRoundTrip(m, 2);
    assert k == MonthlyPrefix + (year + month);
    Split(MonthlyPrefix, year + month);
    Split(year, month);
    var digits := k[|MonthlyPrefix|..];
    assert digits == year + month;
    AllDigitsConcat(year, month);
    assert k[|MonthlyPrefix|..|k| - 2] == year;
    assert k[|k| - 2..] == month;
    assert ParseMonthlyKey(k) == Some((ParseDigits(year), ParseDigits(month)));
  }

  lemma YearlyKeyRoundTrip(y: nat)
    ensures ParseYearlyKey(YearlyKey(y)) == Some(y)
  {
    var k := YearlyKey(y);
    assert k[|YearlyPrefix|..] == Padded(y, 4);
    PaddedRoundTrip(y, 4);
  }

  lemma YearKeyRoundTrip(y: nat)
    ensures ParseYearKey(YearKey(y)) == Some(y)
  {
    PaddedRoundTrip(y, 4);
  }

  lemma DayKeyRoundTrip(d: Date)
    requires ValidDate(d)
    ensures ParseDayKey(DayKey(d)) == Some((d.year % 100, d.month as nat, d.day as nat))
  {
    var k := DayKey(d);
    PaddedLength(d.year % 100, 2);
    PaddedLength(d.month, 2);
    PaddedLength(d.day, 2);
    assert k[..2] == Padded(d.year % 100, 2);
    assert k[2..4] == Padded(d.month, 2);
    assert k[4..] == Padded(d.day, 2);
    PaddedRoundTrip(d.year % 100, 2);
    PaddedRoundTrip(d.month, 2);
    PaddedRoundTrip(d.day, 2);
  }

  /** Distinct (year, month) pairs have distinct month keys, for every year. */
  lemma MonthlyKeyInjective(y1: nat, m1: int, y2: nat, m2: int)
    requires 1 <= m1 <= 12 && 1 <= m2 <= 12
    ensures MonthlyKey(y1, m1) == MonthlyKey(y2, m2) <==> y1 == y2 && m1 == m2
  {
    MonthlyKeyRoundTrip(y1, m1);
    MonthlyKeyRoundTrip(y2, m2);
  }

  lemma YearlyKeyInjective(y1: nat, y2: nat)
    ensures YearlyKey(y1) == YearlyKey(y2) <==> y1 == y2
  {
    YearlyKeyRoundTrip(y1);
    YearlyKeyRoundTrip(y2);
  }

  lemma YearKeyInjective(y1: nat, y2: nat)
    ensures YearKey(y1) == YearKey(y2) <==> y1 == y2
  {
    YearKeyRoundTrip(y1);
    YearKeyRoundTrip(y2);
  }

  /** Two dates share a day key exactly when they agree on month, day and the
      year modulo 100. */
  lemma DayKeyCollisions(d1: Date, d2: Date)
    requires ValidDate(d1) && ValidDate(d2)
    ensures DayKey(d1) == DayKey(d2)
        <==> d1.year % 100 == d2.year % 100 && d1.month == d2.month && d1.day == d2.day
  {
    DayKeyRoundTrip(d1);
    DayKeyRoundTrip(d2);
  }

  /** Within one century the day key identifies the date. */
  lemma DayKeyInjectiveWithinCentury(d1: Date, d2: Date)
    requires ValidDate(d1) && ValidDate(d2) && d1.year / 100 == d2.year / 100
    ensures DayKey(d1) == DayKey(d2) <==> d1 == d2
  {
    DayKeyCollisions(d1, d2);
  }

  /** The two-digit year makes the same day 100 years apart share a key. */
  lemma DayKeyCenturyCollision(d: Date)
    requires ValidDate(d) && ValidDate(Date(d.year + 100, d.month, d.day))
    ensures Date(d.year + 100, d.month, d.day) != d
    ensures DayKey(Date(d.year + 100, d.month, d.day)) == DayKey(d)
  {
    assert (d.year + 100) % 100 == d.year % 100;
    DayKeyCollisions(d, Date(d.year + 100, d.month, d.day));
  }

  /** Distinct days fewer than 36000 days (some 98 years) apart have distinct day keys. */
  lemma DayKeyDistinctNearby(d1: Date, d2: Date)
    requires ValidDate(d1) && ValidDate(d2)
    requires 0 < DayNumber(d2) - DayNumber(d1) < 36000
    ensures DayKey(d1) != DayKey(d2)
  {
    if DayKey(d1) == DayKey(d2) {
      DayKeyCollisions(d1, d2);
      if d1.year < d2.year {
        SameResidueApart(d1.year, d2.year);
        DayNumberYearOrder(d1, d2);
        assert false;
      } else if d2.year < d1.year {
        DayNumberYearOrder(d2, d1);
      }
    }
  }

  /** Two different years with the same last two digits are at least 100 apart. */
  lemma SameResidueApart(a: nat, b: nat)
    requires a < b && a % 100 == b % 100
    ensures b - a >= 100
  {
    var qa, qb := a / 100, b / 100;
    assert a == 100 * qa + a % 100;
    assert b == 100 * qb + b % 100;
    assert qa < qb;
  }

  /** The key families never collide with each other, whatever the years:
      month and year keys differ in their first letter and snapshot keys are
      digits only; a four-digit snapshot key is also shorter than the six
      digits of a day key. */
  lemma KeyFamiliesDisjoint(y1: nat, m: int, y2: nat, y3: nat, d: Date)
    requires 1 <= m <= 12 && y3 < 10000 && ValidDate(d)
    ensures MonthlyKey(y1, m) != YearlyKey(y2)
    ensures MonthlyKey(y1, m) != YearKey(y3) && MonthlyKey(y1, m) != DayKey(d)
    ensures YearlyKey(y2) != YearKey(y3) && YearlyKey(y2) != DayKey(d)
    ensures YearKey(y3) != DayKey(d)
  {
    PaddedLength(y3, 4);
    assert MonthlyKey(y1, m)[0] == 'm';
    assert YearlyKey(y2)[0] == 'y';
    assert !IsDigit('m') && !IsDigit('y');
  }
}
