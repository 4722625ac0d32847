/**
 * `Date.prototype.toISOString`: a time value (milliseconds since 1970-01-01T00:00:00Z, proleptic
 * Gregorian calendar, no leap seconds) written as `YYYY-MM-DDTHH:mm:ss.sssZ`, with a signed
 * six-digit year outside 0000..9999.
 */
module IsoDate {
  import opened JsString

  const MsPerDay: int := 86_400_000
  const MsPerHour: int := 3_600_000
  const MsPerMinute: int := 60_000
  const MsPerSecond: int := 1_000

  /** The largest distance from the epoch a valid `Date` may hold. */
  const MaxTimeValue: int := 8_640_000_000_000_000

  /** The time value of a valid `Date`. */
  type TimeValue = t: int | -MaxTimeValue <= t <= MaxTimeValue

  /** A calendar date: `month` 1..12, `day` 1..31. */
  datatype CivilDate = CivilDate(year: int, month: nat, day: nat)

  /** A Gregorian leap year: divisible by 4, and by 400 when divisible by 100. */
  predicate LeapYear(y: int) {
    y % 4 == 0 && (y % 100 != 0 || y % 400 == 0)
  }

  /** The length of month `m` of year `y`: 28 to 31 days, 29 in February of a leap year only. */
  function DaysInMonth(y: int, m: int): (n: int)
    requires 1 <= m <= 12
    ensures 28 <= n <= 31
    ensures n == 29 <==> m == 2 && LeapYear(y)
  {
    if m == 2 then (if LeapYear(y) then 29 else 28)
    else if m == 4 || m == 6 || m == 9 || m == 11 then 30
    else 31
  }

  /** A date the calendar has: a month 1..12 and a day within that month's length. */
  predicate ValidDate(d: CivilDate) {
    1 <= d.month <= 12 && 1 <= d.day <= DaysInMonth(d.year, d.month)
  }

  /** The number of days from 1970-01-01 to the given date (the reference the conversion below inverts). */
  function DaysFromCivil(d: CivilDate): int {
    var y := if d.month <= 2 then d.year - 1 else d.year;
    var era := y / 400;
    var yoe := y - era * 400;
    var mp := if d.month > 2 then d.month - 3 else d.month + 9;
    var doy := (153 * mp + 2) / 5 + d.day - 1;
    var doe := yoe * 365 + yoe / 4 - yoe / 100 + doy;
    era * 146097 + doe - 719468
  }

  /** Year of the 400-year era (counted from March 1st) holding day `doe` of that era. */
  function YearOfEra(doe: int): int {
    (doe - doe / 1460 + doe / 36524 - doe / 146096) / 365
  }

  /** The first day of year `yoe` of an era, counted in days from the era's start. */
  function YearStart(yoe: int): int {
    365 * yoe + yoe / 4 - yoe / 100
  }

  /** Day `s` of 4-year cycle `k` of century `c` of an era lies in year 100c + 4k + j of the era,
      with j the year within the cycle (the cycle's leap day belongs to its last year). */
  lemma YearOfEraInCycle(doe: int, c: int, k: int, s: int)
    requires 0 <= c <= 3 && 0 <= k <= 24 && 0 <= s < 1461 && (k == 24 ==> s < 1460)
    requires doe == 36524 * c + 1461 * k + s
    ensures var j := if s / 365 > 3 then 3 else s / 365;
      YearOfEra(doe) == 100 * c + 4 * k + j && doe - YearStart(YearOfEra(doe)) == s - 365 * j
  {
    var j := if s / 365 > 3 then 3 else s / 365;
    assert doe / 36524 == c;
    assert doe / 146096 == 0;
    var e := (24 * c + k + s) / 1460;
    assert doe / 1460 == 25 * c + k + e;
    assert (36500 * c + 1460 * k + s - e) / 365 == 100 * c + 4 * k + j;
    var yoe := 100 * c + 4 * k + j;
    assert yoe / 4 == 25 * c + k;
    assert yoe / 100 == c;
  }

  /** Every day of an era falls in one of its 400 years, at most 365 days after that year's start. */
  lemma YearOfEraBounds(doe: int)
    requires 0 <= doe < 146097
    ensures 0 <= YearOfEra(doe) <= 399
    ensures 0 <= doe - YearStart(YearOfEra(doe)) <= 365
  {
    if doe < 146096 {
      var c := doe / 36524;
      var r := doe - 36524 * c;
      YearOfEraInCycle(doe, c, r / 1461, r % 1461);
    }
  }

  /** The last day of an era's year, 365 days after its start, exists only when the year ends in a
      leap day: the calendar year holding that year's January and February is a leap year. */
  lemma LastDayOfYearIsLeapDay(doe: int)
    requires 0 <= doe < 146097
    requires doe - YearStart(YearOfEra(doe)) == 365
    ensures LeapYear(YearOfEra(doe) + 1)
  {
    if doe < 146096 {
      var c := doe / 36524;
      var r := doe - 36524 * c;
      var k := r / 1461;
      YearOfEraInCycle(doe, c, k, r % 1461);
      assert YearOfEra(doe) + 1 == 100 * c + 4 * (k + 1) && k < 24;
      CycleEndLeap(c, k + 1);
    } else {
      assert YearOfEra(doe) == 399;
    }
  }

  /** Year 100c + 4m of an era, ending the m-th 4-year cycle of century c, is a leap year. */
  lemma CycleEndLeap(c: int, m: int)
    requires 0 <= c <= 3 && 1 <= m <= 24
    ensures LeapYear(100 * c + 4 * m)
  {
    ModShift(4 * m, 4, 25 * c);
    DivisionUnique(4 * m, 4, m, 0);
    ModShift(4 * m, 100, c);
    DivisionUnique(4 * m, 100, 0, 4 * m);
  }

  /** The day of a month found from day `doy` of a year counted from March 1st (month `mp` from
      March) lies within that month; the year's last day is February 29th. */
  lemma DayWithinMonth(doy: int, mp: int)
    requires 0 <= doy <= 365 && mp == (5 * doy + 2) / 153
    ensures 0 <= mp <= 11
    ensures var day := doy - (153 * mp + 2) / 5 + 1;
      1 <= day && (mp < 11 ==> day <= DaysInMonth(0, if mp < 10 then mp + 3 else mp - 9))
      && (mp == 11 ==> day <= 28 || doy == 365)
  {
  }

  /** Leap years repeat every 400 years. */
  lemma LeapYearPeriod(y: int, era: int)
    ensures LeapYear(y + era * 400) == LeapYear(y)
  {
    ModShift(y, 4, 100 * era);
    ModShift(y, 100, 4 * era);
    ModShift(y, 400, era);
  }

  /** Adding a multiple of `n` keeps the remainder modulo `n`. */
  lemma ModShift(y: int, n: int, k: int)
    requires n > 0
    ensures (y + n * k) % n == y % n
  {
    var q := y / n + k;
    assert y + n * k == n * q + y % n;
    DivisionUnique(y + n * k, n, q, y % n);
  }

  /** Euclidean division has one quotient and one remainder. */
  lemma DivisionUnique(x: int, n: int, q: int, r: int)
    requires n > 0 && 0 <= r < n && x == n * q + r
    ensures x % n == r
  {
    var q' := x / n;
    var r' := x % n;
    assert n * q + r == n * q' + r';
    if q > q' {
      MultipleAtLeast(n, q - q');
      assert false;
    } else if q < q' {
      MultipleAtLeast(n, q' - q);
      assert false;
    }
  }

  lemma {:induction false} MultipleAtLeast(n: int, d: int)
    requires n > 0 && d >= 1
    ensures n * d >= n
    decreases d
  {
    if d > 1 {
      MultipleAtLeast(n, d - 1);
      assert n * d == n * (d - 1) + n;
    }
  }

  /** The calendar date `days` days after 1970-01-01: always a date the calendar has. */
  function CivilFromDays(days: int): (d: CivilDate)
    ensures ValidDate(d)
  {
    var z := days + 719468;
    var era := z / 146097;
    var doe := z - era * 146097;
    YearOfEraBounds(doe);
    var yoe := YearOfEra(doe);
    var doy := doe - YearStart(yoe);
    var mp := (5 * doy + 2) / 153;
    var day := doy - (153 * mp + 2) / 5 + 1;
    var month := if mp < 10 then mp + 3 else mp - 9;
    var year := yoe + era * 400 + (if month <= 2 then 1 else 0);
    DayWithinMonth(doy, mp);
    assert doy == 365 ==> LeapYear(year) by {
      if doy == 365 {
        LastDayOfYearIsLeapDay(doe);
        LeapYearPeriod(yoe + 1, era);
      }
    }
    CivilDate(year, month, day)
  }

  /** Converting a day number to a date and back gives the day number: the valid date found
      names the day. */
  lemma CivilRoundTrip(days: int)
    ensures DaysFromCivil(CivilFromDays(days)) == days
  {
    var z := days + 719468;
    var era := z / 146097;
    var doe := z - era * 146097;
    YearOfEraBounds(doe);
    var yoe := YearOfEra(doe);
    var d := CivilFromDays(days);
    var y := if d.month <= 2 then d.year - 1 else d.year;
    assert y == 400 * era + yoe;
    DivisionUnique(y, 400, era, yoe);
  }

  /** The fields `toISOString` writes. */
  datatype DateTimeParts = DateTimeParts(date: CivilDate, hour: nat, minute: nat, second: nat, millisecond: nat)

  function PartsOf(t: TimeValue): (p: DateTimeParts)
    ensures ValidDate(p.date)
    ensures 0 <= p.hour < 24 && 0 <= p.minute < 60 && 0 <= p.second < 60 && 0 <= p.millisecond < 1000
  {
    var inDay := t % MsPerDay;
    var inHour := inDay % MsPerHour;
    var inMinute := inHour % MsPerMinute;
    DateTimeParts(CivilFromDays(t / MsPerDay), inDay / MsPerHour, inHour / MsPerMinute,
                  inMinute / MsPerSecond, inMinute % MsPerSecond)
  }

  /** The time value the fields denote. */
  function TimeOf(p: DateTimeParts): int {
    DaysFromCivil(p.date) * MsPerDay + p.hour * MsPerHour + p.minute * MsPerMinute
      + p.second * MsPerSecond + p.millisecond
  }

  /** The fields identify the instant: no information is lost in splitting a time value. */
  lemma PartsRoundTrip(t: TimeValue)
    ensures TimeOf(PartsOf(t)) == t
  {
    CivilRoundTrip(t / MsPerDay);
  }

  /** `n` in decimal, left-padded with zeros to `width` digits. */
  function Pad(n: nat, width: nat): (r: string)
    ensures forall k :: 0 <= k < |r| ==> IsDigit(r[k])
    ensures |r| >= width
  {
    var digits := NatText(n);
    if |digits| < width then seq(width - |digits|, _ => '0') + digits else digits
  }

  function Pow10(k: nat): nat {
    if k == 0 then 1 else 10 * Pow10(k - 1)
  }

  lemma {:induction false} NatTextFits(n: nat, width: nat)
    requires width >= 1 && n < Pow10(width)
    ensures |NatText(n)| <= width
    decreases width
  {
    if n >= 10 {
      assert width >= 2;
      assert n / 10 < Pow10(width - 1);
      NatTextFits(n / 10, width - 1);
      assert NatText(n) == NatText(n / 10) + [DigitChar(n % 10)];
    }
  }

  lemma PadWidth(n: nat, width: nat)
    requires width >= 1 && n < Pow10(width)
    ensures |Pad(n, width)| == width
  {
    NatTextFits(n, width);
  }

  /** The year as `toISOString` writes it: four digits, or a sign and six digits. */
  function YearText(y: int): (r: string)
    ensures AllIsoChars(r)
    ensures |r| >= 4
  {
    if 0 <= y <= 9999 then Pad(y, 4)
    else if y < 0 then AllIsoCharsConcat("-", Pad(-y, 6)); "-" + Pad(-y, 6)
    else AllIsoCharsConcat("+", Pad(y, 6)); "+" + Pad(y, 6)
  }

  /** `YYYY-MM-DD` */
  function DateText(p: DateTimeParts): string {
    YearText(p.date.year) + "-" + Pad(p.date.month, 2) + "-" + Pad(p.date.day, 2)
  }

  /** `HH:mm:ss.sss` */
  function TimeText(p: DateTimeParts): string {
    Pad(p.hour, 2) + ":" + Pad(p.minute, 2) + ":" + Pad(p.second, 2) + "." + Pad(p.millisecond, 3)
  }

  /** For years 0000..9999 the text has the fixed 24-character layout `YYYY-MM-DDTHH:mm:ss.sssZ`,
      with digits everywhere but the seven separators. */
  lemma IsoStringLayout(t: TimeValue)
    requires 0 <= PartsOf(t).date.year <= 9999
    ensures var r := ToIsoString(t);
      && |r| == 24
      && r[4] == '-' && r[7] == '-' && r[10] == 'T' && r[13] == ':' && r[16] == ':' && r[19] == '.' && r[23] == 'Z'
      && forall k :: 0 <= k < 24 && k !in {4, 7, 10, 13, 16, 19, 23} ==> IsDigit(r[k])
  {
    var p := PartsOf(t);
    assert Pow10(2) == 100 && Pow10(3) == 1000 && Pow10(4) == 10000;
    PadWidth(p.date.year, 4);
    PadWidth(p.date.month, 2);
    PadWidth(p.date.day, 2);
    PadWidth(p.hour, 2);
    PadWidth(p.minute, 2);
    PadWidth(p.second, 2);
    PadWidth(p.millisecond, 3);
    FixedLayout(Pad(p.date.year, 4), Pad(p.date.month, 2), Pad(p.date.day, 2), Pad(p.hour, 2),
                Pad(p.minute, 2), Pad(p.second, 2), Pad(p.millisecond, 3));
  }

  /** Digit fields of widths 4, 2, 2, 2, 2, 2 and 3 joined by the separators sit at fixed places. */
  lemma FixedLayout(y: string, mo: string, d: string, h: string, mi: string, s: string, ms: string)
    requires |y| == 4 && |mo| == 2 && |d| == 2 && |h| == 2 && |mi| == 2 && |s| == 2 && |ms| == 3
    requires forall k :: 0 <= k < |y| ==> IsDigit(y[k])
    requires forall k :: 0 <= k < |mo| ==> IsDigit(mo[k])
    requires forall k :: 0 <= k < |d| ==> IsDigit(d[k])
    requires forall k :: 0 <= k < |h| ==> IsDigit(h[k])
    requires forall k :: 0 <= k < |mi| ==> IsDigit(mi[k])
    requires forall k :: 0 <= k < |s| ==> IsDigit(s[k])
    requires forall k :: 0 <= k < |ms| ==> IsDigit(ms[k])
    ensures var r := (y + "-" + mo + "-" + d) + "T" + (h + ":" + mi + ":" + s + "." + ms) + "Z";
      && |r| == 24
      && r[4] == '-' && r[7] == '-' && r[10] == 'T' && r[13] == ':' && r[16] == ':' && r[19] == '.' && r[23] == 'Z'
      && forall k :: 0 <= k < 24 && k !in {4, 7, 10, 13, 16, 19, 23} ==> IsDigit(r[k])
  {
  }

  /** The characters `toISOString` can write. */
  predicate IsoChar(c: char) {
    IsDigit(c) || c == '+' || c == '-' || c == 'T' || c == ':' || c == '.' || c == 'Z'
  }

  predicate AllIsoChars(s: string) {
    forall k :: 0 <= k < |s| ==> IsoChar(s[k])
  }

  lemma AllIsoCharsConcat(a: string, b: string)
    requires AllIsoChars(a) && AllIsoChars(b)
    ensures AllIsoChars(a + b)
  {
  }

  /** `new Date(t).toISOString()`: at least 24 characters ending in `Z`, holding only digits, the
      sign of an expanded year and the separators. */
  function ToIsoString(t: TimeValue): (r: string)
    ensures |r| >= 24 && r[|r| - 1] == 'Z'
    ensures AllIsoChars(r)
  {
    var p := PartsOf(t);
    var y := p.date.year;
    var date := DateText(p);
    var time := TimeText(p);
    AllIsoCharsConcat(YearText(y), "-");
    AllIsoCharsConcat(YearText(y) + "-", Pad(p.date.month, 2));
    AllIsoCharsConcat(YearText(y) + "-" + Pad(p.date.month, 2), "-");
    AllIsoCharsConcat(YearText(y) + "-" + Pad(p.date.month, 2) + "-", Pad(p.date.day, 2));
    AllIsoCharsConcat(Pad(p.hour, 2), ":");
    AllIsoCharsConcat(Pad(p.hour, 2) + ":", Pad(p.minute, 2));
    AllIsoCharsConcat(Pad(p.hour, 2) + ":" + Pad(p.minute, 2), ":");
    AllIsoCharsConcat(Pad(p.hour, 2) + ":" + Pad(p.minute, 2) + ":", Pad(p.second, 2));
    AllIsoCharsConcat(Pad(p.hour, 2) + ":" + Pad(p.minute, 2) + ":" + Pad(p.second, 2), ".");
    AllIsoCharsConcat(Pad(p.hour, 2) + ":" + Pad(p.minute, 2) + ":" + Pad(p.second, 2) + ".", Pad(p.millisecond, 3));
    AllIsoCharsConcat(date, "T");
    AllIsoCharsConcat(date + "T", time);
    AllIsoCharsConcat(date + "T" + time, "Z");
    date + "T" + time + "Z"
  }
}
