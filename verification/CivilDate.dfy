/**
 The timestamp of a finished job: milliseconds since 1970-01-01 turned into calendar fields, checked
 against a Gregorian calendar that is stepped one day at a time.
 */
module CivilDate {
  datatype Date = Date(year: int, month: int, day: int)

  // ---------------------------------------------------------------- the calendar

  /** Appendix C of RFC 3339. */
  predicate LeapYear(y: int) {
    y % 4 == 0 && (y % 100 != 0 || y % 400 == 0)
  }

  /** The table of section 5.7 of RFC 3339. */
  function DaysInMonth(y: int, m: int): int {
    if m == 2 then (if LeapYear(y) then 29 else 28)
    else if m == 4 || m == 6 || m == 9 || m == 11 then 30
    else 31
  }

  function NextDay(d: Date): Date {
    if d.day < DaysInMonth(d.year, d.month) then Date(d.year, d.month, d.day + 1)
    else if d.month < 12 then Date(d.year, d.month + 1, 1)
    else Date(d.year + 1, 1, 1)
  }

  predicate IsDate(d: Date) {
    1 <= d.month <= 12 && 1 <= d.day <= DaysInMonth(d.year, d.month)
  }

  const EPOCH := Date(1970, 1, 1)

  /** The date n days after d. */
  function After(d: Date, n: nat): Date {
    if n == 0 then d else NextDay(After(d, n - 1))
  }

  // ---------------------------------------------------------------- the conversion

  /** Division of signed machine integers, which truncates toward zero. */
  function Quot(a: int, b: int): int
    requires b > 0
  {
    if a >= 0 then a / b else -((-a) / b)
  }

  /** Year of the era of day `doe`. */
  function YearOfDay(doe: int): int {
    (doe - doe / 1460 + doe / 36524 - doe / 146096) / 365
  }

  /** Days before year `yoe` of the era, which starts in March. */
  function YearStart(yoe: int): int {
    365 * yoe + yoe / 4 - yoe / 100
  }

  /** Month and day from the day of a March-based year. */
  function FromMarch(y: int, doy: int): Date {
    var mp := (5 * doy + 2) / 153;
    var d := doy - (153 * mp + 2) / 5 + 1;
    var m := if mp < 10 then mp + 3 else mp - 9;
    Date(if m <= 2 then y + 1 else y, m, d)
  }

  function CivilFromDays(days: int): Date {
    var z := days + 719468;
    var era := Quot(if z >= 0 then z else z - 146096, 146097);
    var doe := z - era * 146097;
    var yoe := YearOfDay(doe);
    FromMarch(yoe + era * 400, doe - YearStart(yoe))
  }

  // ---------------------------------------------------------------- years counted from March

  /** March-based year y ends with the February of y + 1. */
  function YearLength(y: int): int {
    if LeapYear(y + 1) then 366 else 365
  }

  lemma EraIsFloor(z: int)
    ensures Quot(if z >= 0 then z else z - 146096, 146097) == z / 146097
  {
  }

  lemma YearStartStep(y: int)
    requires 0 <= y < 400
    ensures YearStart(y) + YearLength(y) == YearStart(y + 1) + (if y == 399 then 1 else 0)
  {
    var n := y + 1;
    assert n / 4 == y / 4 + if n % 4 == 0 then 1 else 0;
    assert n / 100 == y / 100 + if n % 100 == 0 then 1 else 0;
    assert n % 100 == 0 ==> n % 4 == 0;
    assert n % 400 == 0 <==> n == 400;
  }

  /** A year has a day 365 only if it ends in a leap day. */
  lemma LongYear(y: int)
    requires 0 <= y < 400
    ensures YearLength(y) == 366 ==> y % 4 == 3 && (y % 100 == 99 ==> y / 100 == 3)
  {
  }

  /** The formula for the year of the era finds the year a day lies in. */
  lemma YearOfEra(y: int, doy: int)
    requires 0 <= y < 400 && 0 <= doy < YearLength(y)
    ensures 0 <= YearStart(y) + doy <= 146096 && YearOfDay(YearStart(y) + doy) == y
  {
    LongYear(y);
    assert YearLength(y) <= 366;
    hide YearLength;
    YearOfEraBy(y, y / 4, y % 4, y / 100, y % 100, doy);
  }

  lemma YearOfEraBy(y: int, q: int, r: int, c: int, w: int, doy: int)
    requires 0 <= y < 400 && y == 4 * q + r && 0 <= r < 4 && y == 100 * c + w && 0 <= w < 100
    requires q == y / 4 && c == y / 100
    requires 0 <= doy <= 365 && (doy == 365 ==> r == 3 && (w == 99 ==> c == 3))
    ensures 0 <= YearStart(y) + doy <= 146096 && YearOfDay(YearStart(y) + doy) == y
  {
    var doe := YearStart(y) + doy;
    var u := q - c + 365 * r + doy;
    var v := 365 * w + (q - 25 * c) + doy;
    assert doe == 1460 * q + u && doe == 36524 * c + v;
    assert 25 * c <= q <= 25 * c + 24;
    var a := if u < 1460 then q else q + 1;
    var last := doe == 146096;
    assert doe / 1460 == a;
    assert doe / 36524 == if last then 4 else c;
    assert doe / 146096 == if last then 1 else 0;
    assert 0 <= doy + q - a < 365;
  }

  /** Every day of an era lies in one of its 400 years. */
  lemma {:induction false} FindYear(doe: int, top: int) returns (y: int, doy: int)
    requires 0 <= doe <= 146096 && 0 <= top < 400
    requires doe < YearStart(top) + YearLength(top)
    ensures 0 <= y < 400 && 0 <= doy < YearLength(y) && doe == YearStart(y) + doy
    decreases top
  {
    if doe >= YearStart(top) {
      y, doy := top, doe - YearStart(top);
    } else {
      YearStartStep(top - 1);
      y, doy := FindYear(doe, top - 1);
    }
  }

  lemma MonthOfYear(y: int, doy: int)
    requires 0 <= doy < YearLength(y)
    ensures IsDate(FromMarch(y, doy))
    ensures doy + 1 < YearLength(y) ==> FromMarch(y, doy + 1) == NextDay(FromMarch(y, doy))
    ensures doy + 1 == YearLength(y) ==> FromMarch(y + 1, 0) == NextDay(FromMarch(y, doy))
  {
    var mp := (5 * doy + 2) / 153;
    assert 0 <= mp <= 11;
  }

  lemma EraOf(z: int, era: int, doe: int)
    requires 0 <= doe < 146097 && z == era * 146097 + doe
    ensures Quot(if z >= 0 then z else z - 146096, 146097) == era
  {
    EraIsFloor(z);
    assert z / 146097 == era;
  }

  lemma CivilIs(days: int, era: int, y: int, doy: int)
    requires 0 <= y < 400 && 0 <= doy < YearLength(y)
    requires days + 719468 == era * 146097 + YearStart(y) + doy
    ensures CivilFromDays(days) == FromMarch(400 * era + y, doy)
  {
    hide Quot, YearOfDay, YearStart, FromMarch, YearLength;
    YearOfEra(y, doy);
    EraOf(days + 719468, era, YearStart(y) + doy);
  }

  lemma Decompose(days: int) returns (era: int, y: int, doy: int)
    ensures 0 <= y < 400 && 0 <= doy < YearLength(y)
    ensures days + 719468 == era * 146097 + YearStart(y) + doy
  {
    var z := days + 719468;
    era := z / 146097;
    y, doy := FindYear(z - era * 146097, 399);
  }

  /** Leap years repeat every era. */
  lemma LengthRepeats(era: int, y: int)
    ensures YearLength(400 * era + y) == YearLength(y)
  {
    hide LeapYear;
    LeapRepeats(era, y + 1);
    assert 400 * era + y + 1 == 400 * era + (y + 1);
  }

  lemma LeapShift(y: int)
    ensures LeapYear(y + 400) == LeapYear(y)
  {
    ShiftMod4(y);
    ShiftMod100(y);
    ShiftMod400(y);
  }

  lemma ShiftMod4(y: int)
    ensures (y + 400) % 4 == y % 4
  {
  }

  lemma ShiftMod100(y: int)
    ensures (y + 400) % 100 == y % 100
  {
  }

  lemma ShiftMod400(y: int)
    ensures (y + 400) % 400 == y % 400
  {
  }

  lemma {:induction false} LeapRepeats(era: int, y: int)
    ensures LeapYear(400 * era + y) == LeapYear(y)
    decreases if era < 0 then -era else era
  {
    hide LeapYear;
    if era > 0 {
      LeapRepeats(era - 1, y + 400);
      LeapShift(y);
      assert 400 * (era - 1) + (y + 400) == 400 * era + y;
    } else if era < 0 {
      LeapRepeats(era + 1, y - 400);
      LeapShift(y - 400);
      assert 400 * (era + 1) + (y - 400) == 400 * era + y;
    }
  }

  /** The day after day doy of year y of era `era` is again a day of a year of an era. */
  lemma NextDecomposition(era: int, y: int, doy: int) returns (era': int, y': int, doy': int)
    requires 0 <= y < 400 && 0 <= doy < YearLength(y)
    ensures 0 <= y' < 400 && 0 <= doy' < YearLength(y')
    ensures era' * 146097 + YearStart(y') + doy' == era * 146097 + YearStart(y) + doy + 1
    ensures if doy + 1 < YearLength(y) then (era', y', doy') == (era, y, doy + 1)
            else doy' == 0 && 400 * era' + y' == 400 * era + y + 1
  {
    YearStartStep(y);
    if doy + 1 < YearLength(y) {
      era', y', doy' := era, y, doy + 1;
    } else if y < 399 {
      era', y', doy' := era, y + 1, 0;
    } else {
      era', y', doy' := era + 1, 0, 0;
    }
  }

  /** The conversion of the next day number is the next day of the conversion, for every day number. */
  lemma CivilSteps(days: int)
    ensures IsDate(CivilFromDays(days))
    ensures CivilFromDays(days + 1) == NextDay(CivilFromDays(days))
  {
    hide *;
    var era, y, doy := Decompose(days);
    LengthRepeats(era, y);
    CivilIs(days, era, y, doy);
    MonthOfYear(400 * era + y, doy);
    var era', y', doy' := NextDecomposition(era, y, doy);
    CivilIs(days + 1, era', y', doy');
  }

  /** Stepping the calendar from 1970-01-01 gives the conversion of every later day number. */
  lemma {:induction false} CivilIsCalendar(n: nat)
    ensures CivilFromDays(n) == After(EPOCH, n)
  {
    hide CivilFromDays, NextDay;
    if n == 0 {
      CivilIs(0, 4, 369, 306);
    } else {
      CivilIsCalendar(n - 1);
      CivilSteps(n - 1);
    }
  }

  /** And of every earlier one: stepping from it reaches 1970-01-01. */
  lemma {:induction false} CivilIsCalendarBefore(n: nat, k: nat)
    requires k <= n
    ensures After(CivilFromDays(-(n as int)), k) == CivilFromDays(k - n)
  {
    hide CivilFromDays, NextDay;
    if k > 0 {
      CivilIsCalendarBefore(n, k - 1);
      CivilSteps(k - 1 - n);
    }
  }

  // ---------------------------------------------------------------- order of dates

  /** A number that orders dates: dates are never more than 12 months of 31 days. */
  function Rank(d: Date): int {
    (d.year * 12 + (d.month - 1)) * 31 + (d.day - 1)
  }

  lemma {:induction false} CivilIncreases(a: int, b: int)
    requires a < b
    ensures Rank(CivilFromDays(a)) < Rank(CivilFromDays(b))
    ensures CivilFromDays(a).year <= CivilFromDays(b).year
    decreases b - a
  {
    hide CivilFromDays;
    if a + 1 < b { CivilIncreases(a, b - 1); }
    CivilSteps(b - 1);
  }

  /** Different day numbers are different dates. */
  lemma CivilIsInjective(a: int, b: int)
    requires CivilFromDays(a) == CivilFromDays(b)
    ensures a == b
  {
    hide CivilFromDays;
    if a < b { CivilIncreases(a, b); }
    if b < a { CivilIncreases(b, a); }
  }

  /** The calendar reaches the year 10000 on day 2932897. */
  lemma FirstFiveDigitYear(days: int)
    ensures CivilFromDays(days).year >= 10000 <==> days >= 2932897
    ensures days >= 0 ==> CivilFromDays(days).year >= 1970
  {
    CivilIs(2932897, 24, 399, 306);
    CivilIs(2932896, 24, 399, 305);
    CivilIs(0, 4, 369, 306);
    hide CivilFromDays;
    if days > 2932897 { CivilIncreases(2932897, days); }
    if days < 2932896 { CivilIncreases(days, 2932896); }
    if days > 0 { CivilIncreases(0, days); }
  }

  // ---------------------------------------------------------------- the string

  const DAY_MS := 86_400_000

  datatype Stamp = Stamp(date: Date, hour: int, minute: int, second: int, milli: int)

  function StampOf(ms: nat): Stamp {
    var rem := ms % DAY_MS;
    Stamp(CivilFromDays(ms / DAY_MS), rem / 3_600_000, rem % 3_600_000 / 60_000, rem % 60_000 / 1_000, rem % 1_000)
  }

  function Digit(n: int): char
    requires 0 <= n < 10
  {
    "0123456789"[n]
  }

  function Decimal(n: nat): string {
    if n < 10 then [Digit(n)] else Decimal(n / 10) + [Digit(n % 10)]
  }

  /** `{n:0w}`. */
  function Padded(n: nat, w: nat): string {
    if |Decimal(n)| >= w then Decimal(n) else Zeros(w - |Decimal(n)|) + Decimal(n)
  }

  function Zeros(k: nat): string {
    if k == 0 then "" else Zeros(k - 1) + "0"
  }

  function FormatCompletedAt(ms: nat): string {
    var t := StampOf(ms);
    FirstFiveDigitYear(ms / DAY_MS);
    FieldsInRange(ms);
    Padded(t.date.year, 4) + Tail(t)
  }

  /** Everything after the year. */
  function Tail(t: Stamp): string
    requires InRange(t)
  {
    "-" + Padded(t.date.month, 2) + "-" + Padded(t.date.day, 2) + "T" + Padded(t.hour, 2) + ":"
    + Padded(t.minute, 2) + ":" + Padded(t.second, 2) + "." + Padded(t.milli, 3) + "Z"
  }

  predicate InRange(t: Stamp) {
    && 1 <= t.date.month <= 12 && 1 <= t.date.day <= 31
    && 0 <= t.hour < 24 && 0 <= t.minute < 60 && 0 <= t.second < 60 && 0 <= t.milli < 1000
  }

  lemma FieldsInRange(ms: nat)
    ensures InRange(StampOf(ms))
  {
    CivilSteps(ms / DAY_MS);
  }

  lemma MinuteOfHour(x: nat)
    ensures x % 60_000 == x % 3_600_000 % 60_000
  {
    var q, r := x / 3_600_000, x % 3_600_000;
    assert x == 60_000 * (60 * q + r / 60_000) + r % 60_000;
  }

  lemma MilliOfMinute(x: nat)
    ensures x % 1_000 == x % 60_000 % 1_000
  {
    var q, r := x / 60_000, x % 60_000;
    assert x == 1_000 * (60 * q + r / 1_000) + r % 1_000;
  }

  /** The time fields recompose the milliseconds of the day. */
  lemma TimeRecomposes(ms: nat)
    ensures var t := StampOf(ms);
      ms == ((ms / DAY_MS * 24 + t.hour) * 60 + t.minute) * 60_000 + t.second * 1000 + t.milli
  {
    hide CivilFromDays;
    var rem := ms % DAY_MS;
    var h := rem / 3_600_000;
    var r1 := rem % 3_600_000;
    MinuteOfHour(rem);
    MilliOfMinute(rem);
  }

  // ---------------------------------------------------------------- reading it back

  function Value(s: string): int {
    if s == "" then 0 else Value(s[..|s| - 1]) * 10 + (s[|s| - 1] as int - '0' as int)
  }

  lemma {:induction false} ValueOfDecimal(n: nat)
    ensures Value(Decimal(n)) == n
    ensures |Decimal(n)| >= 1 && (n < 10 <==> |Decimal(n)| == 1)
  {
    if n >= 10 {
      ValueOfDecimal(n / 10);
      assert Decimal(n)[..|Decimal(n)| - 1] == Decimal(n / 10);
    } else {
      assert Decimal(n)[..0] == "";
    }
  }

  lemma {:induction false} ValueOfZeros(k: nat)
    ensures |Zeros(k)| == k && Value(Zeros(k)) == 0
  {
    if k > 0 {
      ValueOfZeros(k - 1);
      assert Zeros(k)[..k - 1] == Zeros(k - 1);
    }
  }

  lemma {:induction false} ValueOfPadded(zeros: string, s: string)
    requires Value(zeros) == 0
    ensures Value(zeros + s) == Value(s)
    decreases |s|
  {
    if s == "" {
      assert zeros + s == zeros;
    } else {
      ValueOfPadded(zeros, s[..|s| - 1]);
      assert (zeros + s)[..|zeros + s| - 1] == zeros + s[..|s| - 1];
    }
  }

  lemma DecimalWidth(n: nat)
    ensures |Decimal(n)| >= 1
    ensures n < 100 ==> |Decimal(n)| <= 2
    ensures n < 1000 ==> |Decimal(n)| <= 3
    ensures n < 10000 <==> |Decimal(n)| <= 4
  {
    ValueOfDecimal(n);
    ValueOfDecimal(n / 10);
    ValueOfDecimal(n / 10 / 10);
    ValueOfDecimal(n / 10 / 10 / 10);
  }

  lemma ReadPadded(n: nat, w: nat)
    ensures Value(Padded(n, w)) == n
    ensures |Padded(n, w)| == if |Decimal(n)| <= w then w else |Decimal(n)|
  {
    hide Decimal, Zeros, Value;
    ValueOfDecimal(n);
    if |Decimal(n)| < w {
      ValueOfZeros(w - |Decimal(n)|);
      ValueOfPadded(Zeros(w - |Decimal(n)|), Decimal(n));
    }
  }

  predicate AllDigits(s: string) {
    forall i :: 0 <= i < |s| ==> '0' <= s[i] <= '9'
  }

  /**
   The date-time of section 5.6 of RFC 3339 in UTC with milliseconds, except that the year may have more than
   four digits. Everything after the year has a fixed width.
   */
  predicate IsDateTime(s: string) {
    && |s| >= 24
    && var n := |s| - 20;
    && AllDigits(s[..n]) && s[n] == '-' && AllDigits(s[n + 1..n + 3]) && s[n + 3] == '-' && AllDigits(s[n + 4..n + 6])
    && s[n + 6] == 'T' && AllDigits(s[n + 7..n + 9]) && s[n + 9] == ':' && AllDigits(s[n + 10..n + 12])
    && s[n + 12] == ':' && AllDigits(s[n + 13..n + 15])
    && s[n + 15] == '.' && AllDigits(s[n + 16..n + 19]) && s[n + 19] == 'Z'
  }

  function ReadStamp(s: string): Stamp
    requires IsDateTime(s)
  {
    var n := |s| - 20;
    Stamp(Date(Value(s[..n]), Value(s[n + 1..n + 3]), Value(s[n + 4..n + 6])),
          Value(s[n + 7..n + 9]), Value(s[n + 10..n + 12]), Value(s[n + 13..n + 15]), Value(s[n + 16..n + 19]))
  }

  lemma {:induction false} DecimalDigits(n: nat)
    ensures AllDigits(Decimal(n))
  {
    if n >= 10 { DecimalDigits(n / 10); }
  }

  lemma {:induction false} ZeroDigits(k: nat)
    ensures AllDigits(Zeros(k))
  {
    if k > 0 { ZeroDigits(k - 1); }
  }

  lemma PaddedDigits(n: nat, w: nat)
    ensures AllDigits(Padded(n, w)) && |Padded(n, w)| >= w
  {
    hide Decimal, Zeros, Value;
    DecimalDigits(n);
    ReadPadded(n, w);
    if |Decimal(n)| < w { ZeroDigits(w - |Decimal(n)|); }
  }

  lemma TailReads(t: Stamp)
    requires InRange(t)
    ensures var s := Tail(t);
      && |s| == 20
      && s[1..3] == Padded(t.date.month, 2) && s[4..6] == Padded(t.date.day, 2) && s[7..9] == Padded(t.hour, 2)
      && s[10..12] == Padded(t.minute, 2) && s[13..15] == Padded(t.second, 2) && s[16..19] == Padded(t.milli, 3)
      && s[0] == '-' && s[3] == '-' && s[6] == 'T' && s[9] == ':' && s[12] == ':' && s[15] == '.' && s[19] == 'Z'
  {
    hide Padded;
    TwoDigits(t.date.month);
    TwoDigits(t.date.day);
    TwoDigits(t.hour);
    TwoDigits(t.minute);
    TwoDigits(t.second);
    ThreeDigits(t.milli);
  }

  lemma TwoDigits(n: nat)
    requires n < 100
    ensures |Padded(n, 2)| == 2
  {
    DecimalWidth(n);
    ReadPadded(n, 2);
  }

  lemma ThreeDigits(n: nat)
    requires n < 1000
    ensures |Padded(n, 3)| == 3
  {
    DecimalWidth(n);
    ReadPadded(n, 3);
  }

  /** A string with the parts of a date-time is one, and its parts are read. */
  lemma JoinedStamp(y: string, t: Stamp)
    requires InRange(t) && AllDigits(y) && |y| >= 4
    ensures var s := y + Tail(t);
      && IsDateTime(s) && |s| - 20 == |y|
      && ReadStamp(s) == Stamp(Date(Value(y), t.date.month, t.date.day), t.hour, t.minute, t.second, t.milli)
  {
    hide Value, Padded, Decimal, Tail, AllDigits;
    var s, n := y + Tail(t), |y|;
    TailReads(t);
    assert s[..n] == y;
    assert s[n + 1..n + 3] == Tail(t)[1..3] && s[n + 4..n + 6] == Tail(t)[4..6] && s[n + 7..n + 9] == Tail(t)[7..9];
    assert s[n + 10..n + 12] == Tail(t)[10..12] && s[n + 13..n + 15] == Tail(t)[13..15];
    assert s[n + 16..n + 19] == Tail(t)[16..19];
    ReadField(t.date.month, 2);
    ReadField(t.date.day, 2);
    ReadField(t.hour, 2);
    ReadField(t.minute, 2);
    ReadField(t.second, 2);
    ReadField(t.milli, 3);
  }

  lemma ReadField(n: nat, w: nat)
    ensures Value(Padded(n, w)) == n && AllDigits(Padded(n, w)) && |Padded(n, w)| >= w
  {
    ReadPadded(n, w);
    PaddedDigits(n, w);
  }

  /** The formatted string is a date-time, and reading it gives back the fields it was made from. */
  lemma FormatReadsBack(ms: nat)
    ensures IsDateTime(FormatCompletedAt(ms))
    ensures ReadStamp(FormatCompletedAt(ms)) == StampOf(ms)
  {
    hide CivilFromDays, Value, Padded, Decimal, Tail, IsDateTime, ReadStamp, AllDigits;
    var t := StampOf(ms);
    FirstFiveDigitYear(ms / DAY_MS);
    FieldsInRange(ms);
    ReadField(t.date.year, 4);
    JoinedStamp(Padded(t.date.year, 4), t);
  }

  /**
   The formatted string denotes exactly `ms`: read back, its date is reached by stepping the calendar
   one day at a time from 1970-01-01, and its time of day makes up the rest.
   */
  lemma FormatDenotes(ms: nat)
    ensures IsDateTime(FormatCompletedAt(ms))
    ensures var t := ReadStamp(FormatCompletedAt(ms)); var n := ms / DAY_MS;
      && t.date == After(EPOCH, n)
      && 0 <= t.hour < 24 && 0 <= t.minute < 60 && 0 <= t.second < 60 && 0 <= t.milli < 1000
      && ms == ((n * 24 + t.hour) * 60 + t.minute) * 60_000 + t.second * 1000 + t.milli
  {
    hide FormatCompletedAt, ReadStamp, CivilFromDays;
    FormatReadsBack(ms);
    FieldsInRange(ms);
    TimeRecomposes(ms);
    CivilIsCalendar(ms / DAY_MS);
  }

  /** No two instants share a string. */
  lemma FormatIsInjective(a: nat, b: nat)
    requires FormatCompletedAt(a) == FormatCompletedAt(b)
    ensures a == b
  {
    hide FormatCompletedAt, ReadStamp, CivilFromDays;
    FormatReadsBack(a);
    FormatReadsBack(b);
    TimeRecomposes(a);
    TimeRecomposes(b);
    CivilIsInjective(a / DAY_MS, b / DAY_MS);
  }

  /** The year has the four digits RFC 3339 asks for exactly until the end of 9999. */
  lemma FourDigitYears(ms: nat)
    ensures |FormatCompletedAt(ms)| == 24 <==> ms < 253_402_300_800_000
  {
    hide CivilFromDays, Padded, Decimal, Tail, Value;
    var t := StampOf(ms);
    FirstFiveDigitYear(ms / DAY_MS);
    FieldsInRange(ms);
    TailReads(t);
    ReadPadded(t.date.year, 4);
    DecimalWidth(t.date.year);
  }
}
