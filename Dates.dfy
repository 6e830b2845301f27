/** Whole calendar days and the small part of moment.js the sync script relies on:
    a moment that is either a calendar day (local midnight) or invalid, `isSame`,
    `add(1, 'day')`, formatting as year-month-day, and reading a `YYYY-MM-DD`
    all-day date back. Years follow the proleptic Gregorian calendar. */
module Dates {

  datatype Option<+T> = None | Some(value: T)

  datatype Date = Date(year: nat, month: nat, day: nat)

  predicate IsLeapYear(y: nat) {
    y % 4 == 0 && (y % 100 != 0 || y % 400 == 0)
  }

  function DaysInMonth(y: nat, m: nat): (n: nat)
    requires 1 <= m <= 12
    ensures 28 <= n <= 31
    ensures m == 2 ==> (n == 29 <==> IsLeapYear(y))
  {
    if m == 2 then (if IsLeapYear(y) then 29 else 28)
    else if m == 4 || m == 6 || m == 9 || m == 11 then 30
    else 31
  }

  predicate IsCalendarDate(d: Date) {
    1 <= d.month <= 12 && 1 <= d.day <= DaysInMonth(d.year, d.month)
  }

  /** A day that exists in the calendar: February 30th or month 13 cannot be built. */
  type CalendarDate = d: Date | IsCalendarDate(d) witness Date(1970, 1, 1)

  /** A moment object reduced to what the script uses: the calendar day it
      starts (every moment here is at local midnight), or an invalid moment,
      which is what `moment(null)` gives when no date could be parsed. */
  datatype Moment = Moment(date: CalendarDate) | Invalid

  /** Chronological order on days. */
  predicate Before(a: Date, b: Date) {
    a.year < b.year
    || (a.year == b.year && a.month < b.month)
    || (a.year == b.year && a.month == b.month && a.day < b.day)
  }

  /** The following calendar day, rolling over month and year ends. */
  function NextDay(d: CalendarDate): (e: CalendarDate)
    ensures Before(d, e)
  {
    if d.day < DaysInMonth(d.year, d.month) then Date(d.year, d.month, d.day + 1)
    else if d.month < 12 then Date(d.year, d.month + 1, 1)
    else Date(d.year + 1, 1, 1)
  }

  /** NextDay(d) is the earliest day after d: no calendar day lies strictly between. */
  lemma NextDayIsSuccessor(d: CalendarDate, e: CalendarDate)
    requires Before(d, e)
    ensures NextDay(d) == e || Before(NextDay(d), e)
  {
    if d.day == DaysInMonth(d.year, d.month) && d.month < 12 {
      assert e.year > d.year || e.month > d.month;
    }
  }

  /** Month ends, year ends and February in leap and common years. */
  lemma NextDayRollsOver()
    ensures NextDay(Date(2024, 7, 10)) == Date(2024, 7, 11)
    ensures NextDay(Date(2024, 4, 30)) == Date(2024, 5, 1)
    ensures NextDay(Date(2024, 2, 28)) == Date(2024, 2, 29)
    ensures NextDay(Date(2024, 2, 29)) == Date(2024, 3, 1)
    ensures NextDay(Date(2023, 2, 28)) == Date(2023, 3, 1)
    ensures NextDay(Date(1900, 2, 28)) == Date(1900, 3, 1)
    ensures NextDay(Date(2000, 2, 28)) == Date(2000, 2, 29)
    ensures NextDay(Date(2023, 12, 31)) == Date(2024, 1, 1)
  {
  }

  /** `m.add(1, 'day')`: an invalid moment stays invalid. */
  function AddDay(m: Moment): (r: Moment)
    ensures r.Moment? <==> m.Moment?
    ensures m.Moment? ==> Before(m.date, r.date)
  {
    match m
    case Moment(d) => Moment(NextDay(d))
    case Invalid => Invalid
  }

  /** `a.isSame(b)` on moments at local midnight: false as soon as either is invalid. */
  predicate SameDay(a: Moment, b: Moment) {
    a.Moment? && b.Moment? && a.date == b.date
  }

  // ---- decimal digits ----

  predicate IsDigit(c: char) { '0' <= c <= '9' }

  predicate AllDigits(s: string) {
    forall i :: 0 <= i < |s| ==> IsDigit(s[i])
  }

  function DigitChar(n: nat): (c: char)
    requires n < 10
    ensures IsDigit(c)
  {
    ('0' as int + n) as char
  }

  /** The number a string of decimal digits spells, most significant first. */
  function Value(s: string): nat
    requires AllDigits(s)
  {
    if s == [] then 0
    else Value(s[..|s| - 1]) * 10 + (s[|s| - 1] as int - '0' as int)
  }

  /** The shortest decimal spelling of n. */
  function Decimal(n: nat): (s: string)
    ensures |s| >= 1
  {
    if n < 10 then [DigitChar(n)] else Decimal(n / 10) + [DigitChar(n % 10)]
  }

  function Zeros(k: nat): (s: string)
    ensures |s| == k
  {
    seq(k, _ => '0')
  }

  function Pow10(w: nat): (p: nat)
    ensures p >= 1
  {
    if w == 0 then 1 else 10 * Pow10(w - 1)
  }

  /** moment's zero-filling: the decimal spelling of n, padded on the left
      with zeros to at least w characters. */
  function ZeroFill(n: nat, w: nat): string {
    var s := Decimal(n);
    if |s| < w then Zeros(w - |s|) + s else s
  }

  lemma {:induction false} DecimalSpells(n: nat)
    ensures AllDigits(Decimal(n)) && Value(Decimal(n)) == n
  {
    if n >= 10 {
      DecimalSpells(n / 10);
      var s := Decimal(n);
      assert s[..|s| - 1] == Decimal(n / 10);
    }
  }

  lemma {:induction false} DecimalFits(n: nat, w: nat)
    requires 1 <= w && n < Pow10(w)
    ensures |Decimal(n)| <= w
  {
    if n >= 10 {
      DecimalFits(n / 10, w - 1);
    }
  }

  lemma {:induction false} LeadingZerosIgnored(k: nat, t: string)
    requires AllDigits(t)
    ensures AllDigits(Zeros(k) + t) && Value(Zeros(k) + t) == Value(t)
  {
    if t == [] {
      assert Zeros(k) + t == Zeros(k);
      if k > 0 {
        assert Zeros(k)[..k - 1] == Zeros(k - 1);
        LeadingZerosIgnored(k - 1, []);
        assert Zeros(k - 1) + [] == Zeros(k - 1);
      }
    } else {
      var u := t[..|t| - 1];
      LeadingZerosIgnored(k, u);
      assert (Zeros(k) + t)[..|Zeros(k) + t| - 1] == Zeros(k) + u;
    }
  }

  /** Zero-filling a number that fits in w digits gives exactly w digits that spell it. */
  lemma ZeroFillSpells(n: nat, w: nat)
    requires 1 <= w && n < Pow10(w)
    ensures |ZeroFill(n, w)| == w && AllDigits(ZeroFill(n, w)) && Value(ZeroFill(n, w)) == n
  {
    DecimalSpells(n);
    DecimalFits(n, w);
    var s := Decimal(n);
    if |s| < w {
      LeadingZerosIgnored(w - |s|, s);
    }
  }

  // ---- YYYY-MM-DD ----

  /** `format('YYYY-MM-DD')` of a day. */
  function FormatDate(d: Date): string {
    ZeroFill(d.year, 4) + "-" + ZeroFill(d.month, 2) + "-" + ZeroFill(d.day, 2)
  }

  /** Month and day are zero-padded to two digits. */
  lemma FormatPadsExample()
    ensures FormatDate(Date(2024, 7, 10)) == "2024-07-10"
    ensures FormatDate(Date(2024, 7, 11)) == "2024-07-11"
  {
  }

  /** `m.format(...)`: moment prints "Invalid date" for an invalid moment. */
  function Format(m: Moment): string {
    match m
    case Moment(d) => FormatDate(d)
    case Invalid => "Invalid date"
  }

  /** Reads a strict `YYYY-MM-DD` all-day date; anything else, or a day that
      does not exist, is not a date. */
  function ParseIsoDate(s: string): (r: Option<CalendarDate>)
    ensures r.Some? ==> |s| == 10 && s[4] == '-' && s[7] == '-'
  {
    if |s| == 10 && s[4] == '-' && s[7] == '-'
       && AllDigits(s[..4]) && AllDigits(s[5..7]) && AllDigits(s[8..])
    then
      var d := Date(Value(s[..4]), Value(s[5..7]), Value(s[8..]));
      if IsCalendarDate(d) then Some(d) else None
    else None
  }

  /** `moment(s)` on the start date of an all-day calendar event. */
  function MomentOfIsoDate(s: string): (m: Moment)
    ensures m.Moment? <==> ParseIsoDate(s).Some?
  {
    match ParseIsoDate(s)
    case Some(d) => Moment(d)
    case None => Invalid
  }

  /** Formatting a day with a four-digit year and reading it back gives the same day. */
  lemma FormatDateRoundTrip(d: CalendarDate)
    requires d.year <= 9999
    ensures ParseIsoDate(FormatDate(d)) == Some(d)
  {
    assert Pow10(4) == 10000 && Pow10(2) == 100;
    ZeroFillSpells(d.year, 4);
    ZeroFillSpells(d.month, 2);
    ZeroFillSpells(d.day, 2);
    var y, m, dd := ZeroFill(d.year, 4), ZeroFill(d.month, 2), ZeroFill(d.day, 2);
    var s := FormatDate(d);
    assert s == y + "-" + m + "-" + dd;
    assert s[..4] == y;
    assert s[5..7] == m;
    assert s[8..] == dd;
  }

  /** The same round trip seen through moment: reading back the formatted moment. */
  lemma MomentRoundTrip(m: Moment)
    requires m.Moment? && m.date.year <= 9999
    ensures MomentOfIsoDate(Format(m)) == m
  {
    FormatDateRoundTrip(m.date);
  }
}
