/** Splitting a time in milliseconds into a Gregorian date and a time of day. */
module Calendar {
  const UNSIGNED := 0x1_0000_0000
  const ERA_DAYS := 146097
  // Days from 1 March of year 0 to 1 January 1970.
  const EPOCH := 719468

  datatype Date = Date(year: int, month: int, day: int)

  datatype KDate = KDate(date: Date, hour: nat, minute: nat, second: nat, ms: nat)

  // The calendar itself (section 3.2.1 of ISO 8601:2004).

  predicate IsLeap(y: int) {
    y % 4 == 0 && (y % 100 != 0 || y % 400 == 0)
  }

  function DaysInMonth(y: int, m: int): int {
    if m == 2 then (if IsLeap(y) then 29 else 28)
    else if m == 4 || m == 6 || m == 9 || m == 11 then 30 else 31
  }

  predicate ValidDate(x: Date) {
    1 <= x.month <= 12 && 1 <= x.day <= DaysInMonth(x.year, x.month)
  }

  /** Dates from March of year 0 on: those with a shifted day number. */
  predicate FromYearZero(x: Date) {
    x.year > 0 || (x.year == 0 && x.month >= 3)
  }

  /** The day after. */
  function NextDate(x: Date): Date {
    if x.day < DaysInMonth(x.year, x.month) then x.(day := x.day + 1)
    else if x.month < 12 then Date(x.year, x.month + 1, 1)
    else Date(x.year + 1, 1, 1)
  }

  // Years counted from March, so that a leap day is a year's last.

  /** Days before the `y`-th year of a 400-year era. */
  function YearStart(y: int): int {
    365 * y + y / 4 - y / 100
  }

  /** Days of the year that begins in March of year `y`. */
  function YearDays(y: nat): int {
    if IsLeap(y + 1) then 366 else 365
  }

  /** Days before a month, March being 0. */
  function MonthStart(mp: int): int {
    (153 * mp + 2) / 5
  }

  /** Days since 1 January 1970. */
  function DayNumber(x: Date): int {
    var y := if x.month <= 2 then x.year - 1 else x.year;
    var mp := if x.month <= 2 then x.month + 9 else x.month - 3;
    y / 400 * ERA_DAYS + YearStart(y % 400) + MonthStart(mp) + x.day - 1 - EPOCH
  }

  // The computation, on unsigned numbers of 32 bits.

  function YearOfEra(doe: nat): int {
    (doe - doe / 1460 + doe / 36524 - doe / 146096) / 365
  }

  function MonthOfYear(doy: int): int {
    (5 * doy + 2) / 153
  }

  function DateFromShifted(z: nat): Date {
    var era := z / ERA_DAYS;
    var doe := z - era * ERA_DAYS;
    var yoe := YearOfEra(doe);
    var doy := doe - YearStart(yoe);
    var mp := MonthOfYear(doy);
    var d := doy - MonthStart(mp) + 1;
    var m := if mp < 10 then mp + 3 else mp - 9;
    Date(yoe + era * 400 + (if m <= 2 then 1 else 0), m, d)
  }

  /** Days since the epoch, cut to 32 bits before and after the shift. */
  function ShiftedDays(days: nat): nat {
    (days % UNSIGNED + EPOCH) % UNSIGNED
  }

  function TimeMsToDate(input: nat): KDate {
    KDate(DateFromShifted(ShiftedDays(input / 1000 / 86400)),
          input / 1000 / 60 / 60 % 24, input / 1000 / 60 % 60, input / 1000 % 60, input % 1000)
  }

  // Years of an era.

  /** A day of an era, split by centuries, four-year spans and years. */
  lemma YearFound(c: nat, q: nat, t: nat, u: nat)
    requires c <= 3 && q <= 24 && t <= 3
    requires u < YearDays(100 * c + 4 * q + t)
    ensures YearOfEra(YearStart(100 * c + 4 * q + t) + u) == 100 * c + 4 * q + t
  {
    hide YearStart, YearOfEra, IsLeap;
    var y := 100 * c + 4 * q + t;
    StartSplit(c, q, t);
    LeapSplit(c, q, t);
    var s := 365 * t + u;
    var doe := 36524 * c + 1461 * q + s;
    var b := if 24 * c + q + s >= 1460 then 1 else 0;
    Spans(doe, 25 * c + q + b, 24 * c + q + s - 1460 * b);
    Centuries(doe, c, 1461 * q + s);
    YearFromParts(doe, y, u - b);
  }

  lemma Spans(doe: nat, n: nat, r: nat)
    requires doe == 1460 * n + r && r < 1460
    ensures doe / 1460 == n
  {
  }

  lemma Centuries(doe: nat, c: nat, r: nat)
    requires c <= 3 && doe == 36524 * c + r && r <= 36524 && (r == 36524 ==> c == 3)
    ensures doe / 36524 - doe / 146096 == c
  {
  }

  lemma YearFromParts(doe: nat, y: int, r: int)
    requires doe - doe / 1460 + doe / 36524 - doe / 146096 == 365 * y + r && 0 <= r < 365
    ensures YearOfEra(doe) == y
  {
  }

  lemma StartSplit(c: nat, q: nat, t: nat)
    requires c <= 3 && q <= 24 && t <= 3
    ensures YearStart(100 * c + 4 * q + t) == 36524 * c + 1461 * q + 365 * t
  {
  }

  lemma LeapSplit(c: nat, q: nat, t: nat)
    requires c <= 3 && q <= 24 && t <= 3
    ensures IsLeap(100 * c + 4 * q + t + 1) <==> t == 3 && (q < 24 || c == 3)
  {
  }

  /** Every day of an era lies in one of its years. */
  lemma EraDay(doe: nat) returns (c: nat, q: nat, t: nat, u: nat)
    requires doe < ERA_DAYS
    ensures c <= 3 && q <= 24 && t <= 3 && u < YearDays(100 * c + 4 * q + t)
    ensures doe == YearStart(100 * c + 4 * q + t) + u
  {
    c := if doe == ERA_DAYS - 1 then 3 else doe / 36524;
    var r := doe - 36524 * c;
    q := r / 1461;
    var s := r - 1461 * q;
    t := if s == 1460 then 3 else s / 365;
    u := s - 365 * t;
    StartSplit(c, q, t);
    LeapSplit(c, q, t);
  }

  lemma YearOfDay(doe: nat)
    requires doe < ERA_DAYS
    ensures var y := YearOfEra(doe);
            0 <= y < 400 && 0 <= doe - YearStart(y) < YearDays(y)
  {
    hide YearOfEra, YearStart, YearDays;
    var c, q, t, u := EraDay(doe);
    YearFound(c, q, t, u);
  }

  lemma YearOfStart(y: nat, u: nat)
    requires y < 400 && u < YearDays(y)
    ensures YearOfEra(YearStart(y) + u) == y && YearStart(y) + u < ERA_DAYS && YearStart(y) >= 0
  {
    hide YearOfEra, YearDays;
    var c, q, t := y / 100, y % 100 / 4, y % 4;
    assert y == 100 * c + 4 * q + t;
    YearFound(c, q, t, u);
    LastDay(c, q, t, u);
  }

  lemma LastDay(c: nat, q: nat, t: nat, u: nat)
    requires c <= 3 && q <= 24 && t <= 3 && u < YearDays(100 * c + 4 * q + t)
    ensures 0 <= YearStart(100 * c + 4 * q + t) && YearStart(100 * c + 4 * q + t) + u < ERA_DAYS
  {
  }

  // Months of a year.

  lemma MonthStarts(mp: nat)
    requires mp <= 12
    ensures MonthStart(mp) == (if mp == 0 then 0 else if mp == 1 then 31 else if mp == 2 then 61
      else if mp == 3 then 92 else if mp == 4 then 122 else if mp == 5 then 153 else if mp == 6 then 184
      else if mp == 7 then 214 else if mp == 8 then 245 else if mp == 9 then 275 else if mp == 10 then 306
      else if mp == 11 then 337 else 367)
  {
  }

  /** The month found is the one the day lies in. */
  lemma MonthFound(doy: nat)
    requires doy <= 365
    ensures var mp := MonthOfYear(doy);
            0 <= mp <= 11 && MonthStart(mp) <= doy < MonthStart(mp + 1)
  {
  }

  lemma MonthOfStart(mp: nat, doy: nat)
    requires mp <= 11 && MonthStart(mp) <= doy < MonthStart(mp + 1)
    ensures MonthOfYear(doy) == mp
  {
  }

  /** The shifted month `mp` of the year begun in March of `y`. */
  function MonthDate(y: int, mp: nat, day: int): Date {
    Date(if mp < 10 then y else y + 1, if mp < 10 then mp + 3 else mp - 9, day)
  }

  /** A day is valid in its month exactly when the next month, or year, has not begun. */
  lemma DayFits(y: nat, mp: nat, doy: nat)
    requires mp <= 11 && MonthStart(mp) <= doy
    ensures ValidDate(MonthDate(y, mp, doy - MonthStart(mp) + 1)) <==> doy < MonthStart(mp + 1) && doy < YearDays(y)
  {
  }

  // The date of a day, and the day of a date.

  lemma ShiftedExactly(z: nat)
    ensures var x := DateFromShifted(z);
            ValidDate(x) && DayNumber(x) == z - EPOCH && FromYearZero(x)
  {
    hide YearOfEra, MonthOfYear, MonthStart, YearStart, YearDays, ValidDate;
    var era, doe := z / ERA_DAYS, z % ERA_DAYS;
    YearOfDay(doe);
    var yoe := YearOfEra(doe);
    var doy := doe - YearStart(yoe);
    YearDaysBound(yoe);
    MonthFound(doy);
    var mp := MonthOfYear(doy);
    var y := yoe + era * 400;
    LeapRepeats(yoe, era);
    DayFits(y, mp, doy);
    assert DateFromShifted(z) == MonthDate(y, mp, doy - MonthStart(mp) + 1);
    assert y / 400 == era && y % 400 == yoe;
  }

  lemma YearDaysBound(y: nat)
    ensures 365 <= YearDays(y) <= 366
  {
  }

  lemma LeapRepeats(yoe: nat, era: nat)
    ensures YearDays(yoe + era * 400) == YearDays(yoe)
  {
    LeapCycle(yoe + 1, era);
  }

  lemma LeapCycle(n: nat, era: nat)
    ensures IsLeap(n + era * 400) == IsLeap(n)
  {
    Multiple4(n, era * 100);
    Multiple100(n, era * 4);
    Multiple400(n, era);
  }

  lemma Multiple4(n: nat, k: nat)
    ensures (n + 4 * k) % 4 == n % 4
  {
  }

  lemma Multiple100(n: nat, k: nat)
    ensures (n + 100 * k) % 100 == n % 100
  {
  }

  lemma Multiple400(n: nat, k: nat)
    ensures (n + 400 * k) % 400 == n % 400
  {
  }

  /** Of every valid date from March of year 0 on, the day number leads back to it. */
  lemma DateOfDayNumber(x: Date)
    requires ValidDate(x) && DayNumber(x) + EPOCH >= 0 && FromYearZero(x)
    ensures DateFromShifted(DayNumber(x) + EPOCH) == x
  {
    hide YearOfEra, MonthOfYear, MonthStart, YearStart, YearDays, ValidDate;
    var y: nat := if x.month <= 2 then x.year - 1 else x.year;
    var mp := MonthIndex(x);
    var era, yoe := y / 400, y % 400;
    var doy := MonthStart(mp) + x.day - 1;
    DayPositive(x);
    assert MonthDate(y, mp, doy - MonthStart(mp) + 1) == x;
    DayFits(y, mp, doy);
    assert y == yoe + era * 400;
    LeapRepeats(yoe, era);
    YearOfStart(yoe, doy);
    MonthOfStart(mp, doy);
    var z := DayNumber(x) + EPOCH;
    assert z == era * ERA_DAYS + (YearStart(yoe) + doy);
    assert z / ERA_DAYS == era && z % ERA_DAYS == YearStart(yoe) + doy;
  }

  function MonthIndex(x: Date): (mp: nat)
    requires ValidDate(x)
    ensures mp <= 11 && mp == if x.month <= 2 then x.month + 9 else x.month - 3
  {
    if x.month <= 2 then x.month + 9 else x.month - 3
  }

  lemma DayPositive(x: Date)
    requires ValidDate(x)
    ensures 1 <= x.month <= 12 && x.day >= 1 && MonthStart(MonthIndex(x)) >= 0
  {
  }

  /** The day after has the next number. */
  lemma NextDayNumber(x: Date)
    requires ValidDate(x) && FromYearZero(x)
    ensures FromYearZero(NextDate(x))
    ensures ValidDate(NextDate(x)) && DayNumber(NextDate(x)) == DayNumber(x) + 1
  {
    hide DayNumber, DaysInMonth, YearStart, MonthStart;
    if x.day < DaysInMonth(x.year, x.month) {
      DayAfter(x);
    } else if x.month == 2 {
      FebruaryEnds(x);
    } else {
      MonthEnds(x);
    }
  }

  lemma DayAfter(x: Date)
    requires ValidDate(x) && x.day < DaysInMonth(x.year, x.month)
    ensures ValidDate(NextDate(x)) && DayNumber(NextDate(x)) == DayNumber(x) + 1
  {
    hide DaysInMonth, YearStart, MonthStart;
  }

  lemma FebruaryEnds(x: Date)
    requires ValidDate(x) && x.month == 2 && x.day == DaysInMonth(x.year, 2) && x.year > 0
    ensures ValidDate(NextDate(x)) && DayNumber(NextDate(x)) == DayNumber(x) + 1
  {
    hide YearStart, IsLeap;
    YearEnds(x.year - 1);
    MonthStarts(11);
    MonthStarts(0);
  }

  /** Within a year a month ends where the next begins. */
  lemma MonthEnds(x: Date)
    requires ValidDate(x) && x.day == DaysInMonth(x.year, x.month) && x.month != 2
    ensures ValidDate(NextDate(x)) && DayNumber(NextDate(x)) == DayNumber(x) + 1
  {
    hide YearStart;
    MonthStarts(MonthIndex(x));
    MonthStarts(MonthIndex(x) + 1);
  }

  /** The year begun in March of `y` ends, by its own length, where the next begins. */
  lemma YearEnds(y: nat)
    ensures (y + 1) / 400 * ERA_DAYS + YearStart((y + 1) % 400)
         == y / 400 * ERA_DAYS + YearStart(y % 400) + 337 + DaysInMonth(y + 1, 2)
  {
    var era, yoe := y / 400, y % 400;
    LeapRepeats(yoe, era);
    assert y == yoe + era * 400;
    if yoe < 399 {
      assert (y + 1) / 400 == era && (y + 1) % 400 == yoe + 1;
      YearStep(yoe);
    } else {
      assert (y + 1) / 400 == era + 1 && (y + 1) % 400 == 0;
    }
  }

  lemma YearStep(y: nat)
    requires y < 399
    ensures YearStart(y + 1) == YearStart(y) + YearDays(y)
  {
    hide YearStart, IsLeap;
    var c, q, t := y / 100, y % 100 / 4, y % 4;
    assert y == 100 * c + 4 * q + t;
    StartSplit(c, q, t);
    LeapSplit(c, q, t);
    if t < 3 {
      StartSplit(c, q, t + 1);
    } else if q < 24 {
      StartSplit(c, q + 1, 0);
    } else {
      StartSplit(c + 1, 0, 0);
    }
  }

  // What the program promises of a time.

  /** The date is valid, and is the day's own exactly when the shifted day number fits 32 bits. */
  lemma DateExactly(input: nat)
    ensures var x := TimeMsToDate(input).date;
            && ValidDate(x)
            && (DayNumber(x) == input / 1000 / 86400 <==> input / 1000 / 86400 + EPOCH < UNSIGNED)
  {
    hide DateFromShifted, ValidDate, DayNumber;
    ShiftedExactly(ShiftedDays(input / 1000 / 86400));
    ShiftExactly(input / 1000 / 86400);
  }

  lemma ShiftExactly(days: nat)
    ensures ShiftedDays(days) == days + EPOCH <==> days + EPOCH < UNSIGNED
  {
  }

  /** The first day whose shifted number does not fit is taken for 1 March of year 0. */
  lemma DateWraps()
    ensures var input, x := (UNSIGNED - EPOCH) * 86400000, Date(0, 3, 1);
            TimeMsToDate(input).date == x && DayNumber(x) != input / 1000 / 86400
  {
    hide DateFromShifted, DayNumber;
    WholeDays(UNSIGNED - EPOCH);
    ShiftedZero();
    DateOfDayNumber(Date(0, 3, 1));
    DateExactly((UNSIGNED - EPOCH) * 86400000);
  }

  lemma WholeDays(days: nat)
    ensures days * 86400000 / 1000 / 86400 == days
  {
  }

  lemma ShiftedZero()
    ensures DayNumber(Date(0, 3, 1)) == -EPOCH
  {
  }

  /** A day later is the next date. */
  lemma DatesInOrder(input: nat)
    requires input / 1000 / 86400 + 1 + EPOCH < UNSIGNED
    ensures TimeMsToDate(input + 86400000).date == NextDate(TimeMsToDate(input).date)
  {
    hide DateFromShifted, ValidDate, DayNumber, NextDate, FromYearZero;
    var days := input / 1000 / 86400;
    assert (input + 86400000) / 1000 / 86400 == days + 1;
    var z := days + EPOCH;
    ShiftedExactly(z);
    ShiftedExactly(z + 1);
    var x := DateFromShifted(z);
    NextDayNumber(x);
    DateOfDayNumber(NextDate(x));
  }

  /** The epoch is 1 January 1970, at midnight. */
  lemma EpochDate()
    ensures TimeMsToDate(0) == KDate(Date(1970, 1, 1), 0, 0, 0, 0)
  {
    hide DateFromShifted;
    EpochDay();
    DateOfDayNumber(Date(1970, 1, 1));
  }

  lemma EpochDay()
    ensures DayNumber(Date(1970, 1, 1)) == 0
  {
  }

  /** The time of day, put together again, is the time since midnight. */
  lemma TimeOfDay(input: nat)
    ensures var k := TimeMsToDate(input);
            && k.hour < 24 && k.minute < 60 && k.second < 60 && k.ms < 1000
            && input == ((input / 1000 / 86400 * 24 + k.hour) * 60 + k.minute) * 60000 + k.second * 1000 + k.ms
  {
    hide DateFromShifted;
    var s := input / 1000;
    assert s / 60 / 60 / 24 == s / 86400;
  }
}
