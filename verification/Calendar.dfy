/** How a size and a modification time read on screen. */
module DisplayedValue {
  // ----- the calendar, from its rules -----

  datatype Date = Date(year: int, month: int, day: int)

  predicate Leap(year: int) {
    year % 4 == 0 && (year % 100 != 0 || year % 400 == 0)
  }

  function MonthLength(year: int, month: int): int
    requires 1 <= month <= 12
  {
    if month == 2 then if Leap(year) then 29 else 28
    else if month == 4 || month == 6 || month == 9 || month == 11 then 30
    else 31
  }

  /** A date of the proleptic Gregorian calendar. */
  predicate ValidDate(date: Date) {
    1 <= date.month <= 12 && 1 <= date.day <= MonthLength(date.year, date.month)
  }

  function NextDay(date: Date): Date
    requires ValidDate(date)
  {
    if date.day < MonthLength(date.year, date.month) then date.(day := date.day + 1)
    else if date.month < 12 then Date(date.year, date.month + 1, 1)
    else Date(date.year + 1, 1, 1)
  }

  const EPOCH := Date(1970, 1, 1)

  // ----- the conversion -----

  function YearOfEra(dayOfEra: int): int {
    (dayOfEra - dayOfEra / 1460 + dayOfEra / 36524 - dayOfEra / 146096) / 365
  }

  function YearStart(yearOfEra: int): int {
    365 * yearOfEra + yearOfEra / 4 - yearOfEra / 100
  }

  /** The first day of a month of the year that starts in March. */
  function MonthStart(shiftedMonth: int): int {
    (153 * shiftedMonth + 2) / 5
  }

  function CivilFromDays(days: int): Date {
    var shifted := days + 719468;
    var era := shifted / 146097;
    var dayOfEra := shifted % 146097;
    var yearOfEra := YearOfEra(dayOfEra);
    var dayOfYear := dayOfEra - YearStart(yearOfEra);
    var shiftedMonth := (5 * dayOfYear + 2) / 153;
    var day := dayOfYear - MonthStart(shiftedMonth) + 1;
    var month := if shiftedMonth < 10 then shiftedMonth + 3 else shiftedMonth - 9;
    Date(yearOfEra + era * 400 + (if month <= 2 then 1 else 0), month, day)
  }

  /** A date's place in the era's March-based years, and its day count from the epoch. */
  function DaysOf(date: Date): int {
    var year := if date.month <= 2 then date.year - 1 else date.year;
    var shiftedMonth := if date.month > 2 then date.month - 3 else date.month + 9;
    var era, yearOfEra := year / 400, year % 400;
    era * 146097 + YearStart(yearOfEra) + MonthStart(shiftedMonth) + date.day - 1 - 719468
  }

  lemma YearInEra(dayOfEra: int)
    requires 0 <= dayOfEra < 146097
    ensures 0 <= YearOfEra(dayOfEra) < 400
  {
  }

  lemma YearNotEarlier(dayOfEra: int)
    requires 0 <= dayOfEra < 146097
    ensures YearStart(YearOfEra(dayOfEra)) <= dayOfEra
  {
    YearInEra(dayOfEra);
    InCentury(dayOfEra, YearOfEra(dayOfEra) / 100);
  }

  lemma InCentury(dayOfEra: int, century: int)
    requires 0 <= dayOfEra < 146097 && 0 <= century <= 3 && YearOfEra(dayOfEra) / 100 == century
    ensures YearStart(YearOfEra(dayOfEra)) <= dayOfEra
  {
    var year := YearOfEra(dayOfEra);
    var q := year / 4;
    assert year >= 100 * century;
    assert dayOfEra / 36524 >= century;
    assert 4 * q <= year;
    assert 365 * year <= dayOfEra - dayOfEra / 1460 + dayOfEra / 36524 - dayOfEra / 146096;
  }

  lemma YearNotLater(dayOfEra: int)
    requires 0 <= dayOfEra < 146097
    ensures dayOfEra < YearStart(YearOfEra(dayOfEra) + 1) || (YearOfEra(dayOfEra) == 399 && dayOfEra == 146096)
  {
    if dayOfEra == 146096 {
      LastDayOfEra();
    } else {
      var century := dayOfEra / 36524;
      var day := dayOfEra - 36524 * century;
      var leaps := (24 * century + day) / 1460;
      YearOfCentury(dayOfEra, century, day, leaps);
      var year := YearOfEra(dayOfEra) - 100 * century;
      hide YearOfEra, YearStart;
      NotLaterInCentury(century, day, leaps, year, (year + 1) / 4);
      StartInCentury(century, year + 1);
    }
  }

  lemma LastDayOfEra()
    ensures YearOfEra(146096) == 399
  {
  }

  /** The year a day falls in, from the start of its century. */
  lemma YearOfCentury(dayOfEra: int, century: int, day: int, leaps: int)
    requires 0 <= dayOfEra < 146096 && century == dayOfEra / 36524 && day == dayOfEra - 36524 * century
    requires leaps == (24 * century + day) / 1460
    ensures 0 <= century <= 3 && 0 <= day < 36524
    ensures 365 * (YearOfEra(dayOfEra) - 100 * century) <= day - leaps < 365 * (YearOfEra(dayOfEra) - 100 * century) + 365
  {
    LeapsInCenturies(dayOfEra, century, day);
    assert dayOfEra / 146096 == 0;
    ThreeSixtyFifths(dayOfEra - dayOfEra / 1460 + century, century, day - leaps);
  }

  lemma ThreeSixtyFifths(n: int, century: int, rest: int)
    requires n == 36500 * century + rest
    ensures 365 * (n / 365 - 100 * century) <= rest < 365 * (n / 365 - 100 * century) + 365
  {
  }

  lemma LeapsInCenturies(dayOfEra: int, century: int, day: int)
    requires dayOfEra == 36524 * century + day
    ensures dayOfEra / 1460 == 25 * century + (24 * century + day) / 1460
  {
  }

  /** A year's start, from the start of its century. */
  lemma StartInCentury(century: int, year: int)
    requires 0 <= century <= 3 && 0 <= year <= 100
    ensures YearStart(100 * century + year) == 36524 * century + 365 * year + year / 4 - (if year == 100 then 1 else 0)
  {
  }

  lemma NotLaterInCentury(century: int, day: int, leaps: int, year: int, fours: int)
    requires 0 <= century <= 3 && 0 <= day < 36524
    requires 1460 * leaps <= 24 * century + day < 1460 * leaps + 1460
    requires 365 * year <= day - leaps < 365 * year + 365
    requires 4 * fours <= year + 1 < 4 * fours + 4
    ensures 0 <= year <= 99
    ensures day < 365 * (year + 1) + fours - (if year == 99 then 1 else 0)
  {
  }

  lemma MonthFound(dayOfYear: int)
    requires 0 <= dayOfYear <= 365
    ensures var month := (5 * dayOfYear + 2) / 153;
            && 0 <= month <= 11
            && MonthStart(month) <= dayOfYear < MonthStart(month + 1)
  {
  }

  /** The years of an era that end in a leap day. */
  lemma YearLength(yearOfEra: int)
    requires 0 <= yearOfEra < 400
    ensures YearStart(yearOfEra + 1) - YearStart(yearOfEra)
         == if (yearOfEra + 1) % 4 == 0 && (yearOfEra + 1) % 100 != 0 then 366 else 365
  {
    StepBy4(yearOfEra);
    StepBy100(yearOfEra);
  }

  lemma StepBy4(n: int)
    ensures (n + 1) / 4 - n / 4 == if (n + 1) % 4 == 0 then 1 else 0
  {
  }

  lemma StepBy100(n: int)
    ensures (n + 1) / 100 - n / 100 == if (n + 1) % 100 == 0 then 1 else 0
    ensures (n + 1) % 100 == 0 ==> (n + 1) % 4 == 0
  {
  }

  /** The lengths of the months of the year that starts in March. */
  lemma MonthLengths(year: int, month: int)
    requires 1 <= month <= 12
    ensures var shifted := if month > 2 then month - 3 else month + 9;
            MonthStart(shifted + 1) - MonthStart(shifted) == if month == 2 then 30 else MonthLength(year, month)
    ensures MonthStart(0) == 0 && MonthStart(11) == 337
  {
  }

  function DateIn(era: int, yearOfEra: int, dayOfYear: int, shiftedMonth: int): Date {
    var month := if shiftedMonth < 10 then shiftedMonth + 3 else shiftedMonth - 9;
    Date(yearOfEra + era * 400 + (if month <= 2 then 1 else 0), month, dayOfYear - MonthStart(shiftedMonth) + 1)
  }

  /** What the conversion finds: the March-based year, month and day the day falls in. */
  lemma CivilParts(days: int) returns (era: int, yearOfEra: int, dayOfYear: int, shiftedMonth: int)
    ensures 0 <= yearOfEra < 400 && 0 <= dayOfYear <= 365 && 0 <= shiftedMonth <= 11
    ensures days + 719468 == era * 146097 + YearStart(yearOfEra) + dayOfYear
    ensures dayOfYear == 365 ==> Leap(yearOfEra + 1)
    ensures MonthStart(shiftedMonth) <= dayOfYear < MonthStart(shiftedMonth + 1)
    ensures CivilFromDays(days) == DateIn(era, yearOfEra, dayOfYear, shiftedMonth)
  {
    era := (days + 719468) / 146097;
    var dayOfEra := (days + 719468) % 146097;
    yearOfEra := YearOfEra(dayOfEra);
    dayOfYear := dayOfEra - YearStart(yearOfEra);
    YearInEra(dayOfEra);
    YearNotEarlier(dayOfEra);
    YearNotLater(dayOfEra);
    YearLength(yearOfEra);
    assert yearOfEra == 399 ==> YearStart(399) == 145731;
    hide YearOfEra, YearStart, MonthStart;
    MonthFound(dayOfYear);
    shiftedMonth := (5 * dayOfYear + 2) / 153;
  }

  lemma LeapEveryEra(year: int, era: int)
    ensures Leap(year + era * 400) == Leap(year)
  {
    Mod4(year, era * 100);
    Mod100(year, era * 4);
    Mod400(year, era);
  }

  lemma Mod4(n: int, k: int)
    ensures (n + 4 * k) % 4 == n % 4
  {
  }

  lemma Mod100(n: int, k: int)
    ensures (n + 100 * k) % 100 == n % 100
  {
  }

  lemma Mod400(n: int, k: int)
    ensures (n + 400 * k) % 400 == n % 400 && (n + 400 * k) / 400 == n / 400 + k
  {
  }

  /** Every day has a date of the calendar, and its day count is that day. */
  lemma CivilIsDate(days: int)
    ensures ValidDate(CivilFromDays(days)) && DaysOf(CivilFromDays(days)) == days
  {
    var era, yearOfEra, dayOfYear, shiftedMonth := CivilParts(days);
    hide *;
    PartsAreDate(era, yearOfEra, dayOfYear, shiftedMonth);
    PartsCount(era, yearOfEra, dayOfYear, shiftedMonth);
  }

  lemma PartsAreDate(era: int, yearOfEra: int, dayOfYear: int, shiftedMonth: int)
    requires 0 <= dayOfYear <= 365 && 0 <= shiftedMonth <= 11 && (dayOfYear == 365 ==> Leap(yearOfEra + 1))
    requires MonthStart(shiftedMonth) <= dayOfYear < MonthStart(shiftedMonth + 1)
    ensures ValidDate(DateIn(era, yearOfEra, dayOfYear, shiftedMonth))
  {
    var date := DateIn(era, yearOfEra, dayOfYear, shiftedMonth);
    MonthLengths(date.year, date.month);
    LeapEveryEra(yearOfEra + 1, era);
    hide Leap;
  }

  lemma PartsCount(era: int, yearOfEra: int, dayOfYear: int, shiftedMonth: int)
    requires 0 <= yearOfEra < 400 && 0 <= shiftedMonth <= 11
    ensures DaysOf(DateIn(era, yearOfEra, dayOfYear, shiftedMonth))
         == era * 146097 + YearStart(yearOfEra) + dayOfYear - 719468
  {
    Mod400(yearOfEra, era);
    hide YearStart, MonthStart;
  }

  // ----- day by day -----

  /** The day count, from 0000-03-01, of the first of March of a year. */
  function MarchFirst(year: int): int {
    year / 400 * 146097 + YearStart(year % 400)
  }

  function MarchYear(date: Date): int {
    if date.month <= 2 then date.year - 1 else date.year
  }

  function DayOfYear(date: Date): int {
    MonthStart(if date.month > 2 then date.month - 3 else date.month + 9) + date.day - 1
  }

  lemma DaysOfParts(date: Date)
    ensures DaysOf(date) == MarchFirst(MarchYear(date)) + DayOfYear(date) - 719468
  {
  }

  /** A year from March to March is as long as the February at its end makes it. */
  lemma MarchToMarch(year: int)
    ensures MarchFirst(year + 1) - MarchFirst(year) == if Leap(year + 1) then 366 else 365
  {
    var era, yearOfEra := year / 400, year % 400;
    YearLength(yearOfEra);
    LeapEveryEra(yearOfEra + 1, era);
    assert year == yearOfEra + era * 400;
    if yearOfEra == 399 {
      assert (year + 1) / 400 == era + 1 && (year + 1) % 400 == 0;
      assert YearStart(399) == 145731 && YearStart(0) == 0;
    } else {
      assert (year + 1) / 400 == era && (year + 1) % 400 == yearOfEra + 1;
      hide YearStart;
    }
  }

  lemma NextDayCounts(date: Date)
    requires ValidDate(date)
    ensures ValidDate(NextDay(date)) && DaysOf(NextDay(date)) == DaysOf(date) + 1
  {
    DaysOfParts(date);
    DaysOfParts(NextDay(date));
    if date.day < MonthLength(date.year, date.month) {
      hide DaysOf, MarchFirst, Leap, MonthStart;
    } else if date.month == 2 {
      MonthLengths(date.year, 2);
      MarchToMarch(date.year - 1);
      hide DaysOf, MarchFirst, Leap;
    } else {
      MonthLengths(date.year, date.month);
      hide DaysOf, MarchFirst, Leap, MonthStart;
      assert MarchYear(NextDay(date)) == MarchYear(date);
    }
  }

  lemma {:induction false} MarchesApart(year: int, later: int)
    requires year < later
    ensures MarchFirst(year) + (if later == year + 1 then MarchFirst(later) - MarchFirst(year) else 366) <= MarchFirst(later)
    decreases later - year
  {
    if later > year + 1 {
      MarchToMarch(later - 1);
      MarchesApart(year, later - 1);
      MarchToMarch(year);
      hide MarchFirst;
    }
  }

  /** A day lies within its March-based year. */
  lemma WithinYear(date: Date)
    requires ValidDate(date)
    ensures 0 <= DayOfYear(date) && MarchFirst(MarchYear(date)) + DayOfYear(date) < MarchFirst(MarchYear(date) + 1)
  {
    MarchToMarch(MarchYear(date));
    MonthLengths(date.year, date.month);
    hide MarchFirst, Leap;
  }

  /** Within one year, a day of the year is in one month. */
  lemma SameDayOfYear(a: Date, b: Date)
    requires ValidDate(a) && ValidDate(b) && MarchYear(a) == MarchYear(b) && DayOfYear(a) == DayOfYear(b)
    ensures a == b
  {
    MonthLengths(a.year, a.month);
    MonthLengths(b.year, b.month);
    hide Leap;
  }

  /** No two dates have one day count. */
  lemma DaysOfInjective(a: Date, b: Date)
    requires ValidDate(a) && ValidDate(b) && DaysOf(a) == DaysOf(b)
    ensures a == b
  {
    hide DaysOf, MarchFirst, MarchYear, DayOfYear, ValidDate;
    DaysOfParts(a);
    DaysOfParts(b);
    WithinYear(a);
    WithinYear(b);
    if MarchYear(a) < MarchYear(b) {
      MarchesBetween(MarchYear(a), MarchYear(b));
    } else if MarchYear(b) < MarchYear(a) {
      MarchesBetween(MarchYear(b), MarchYear(a));
    }
    SameDayOfYear(a, b);
  }

  lemma MarchesBetween(year: int, later: int)
    requires year < later
    ensures MarchFirst(year + 1) <= MarchFirst(later)
  {
    if year + 1 < later {
      MarchesApart(year + 1, later);
      MarchToMarch(year + 1);
    }
    hide MarchFirst;
  }

  lemma EpochIsDayZero()
    ensures CivilFromDays(0) == EPOCH
  {
  }

  /** The epoch is day zero, and each day's date is the day after the one before it: the conversion is the calendar. */
  lemma ConsecutiveDays(days: int)
    ensures CivilFromDays(0) == EPOCH
    ensures ValidDate(CivilFromDays(days)) && CivilFromDays(days + 1) == NextDay(CivilFromDays(days))
  {
    hide *;
    EpochIsDayZero();
    CivilIsDate(days);
    CivilIsDate(days + 1);
    NextDayCounts(CivilFromDays(days));
    DaysOfInjective(CivilFromDays(days + 1), NextDay(CivilFromDays(days)));
  }

  /** And back: a date's day count converts to that date. */
  lemma DateRoundTrip(date: Date)
    requires ValidDate(date)
    ensures CivilFromDays(DaysOf(date)) == date
  {
    CivilIsDate(DaysOf(date));
    hide *;
    DaysOfInjective(CivilFromDays(DaysOf(date)), date);
  }

  // ----- the checked conversions, a time of day, and a size -----

  /** `u32::try_from(n).unwrap_or(1)`. */
  function ToU32(n: int): int {
    if 0 <= n < 0x1_0000_0000 then n else 1
  }

  /** The conversion's day and month always fit, so what it falls back on is never used. */
  lemma FallbacksUnused(days: int)
    ensures 1 <= CivilFromDays(days).day <= 31 && 1 <= CivilFromDays(days).month <= 12
    ensures ToU32(CivilFromDays(days).day) == CivilFromDays(days).day
    ensures ToU32(CivilFromDays(days).month) == CivilFromDays(days).month
  {
    CivilIsDate(days);
    hide CivilFromDays, DaysOf;
  }

  const NANOS: int := 1_000_000_000

  /** Whole seconds from the epoch, as `duration_since` gives them: before it, counted from it, so rounded towards it. */
  function WholeSeconds(nanos: int): int {
    if nanos >= 0 then nanos / NANOS else -((-nanos) / NANOS)
  }

  datatype Shown = Shown(date: Date, hour: int, minute: int)

  function Modified(nanos: int): Shown {
    var seconds := WholeSeconds(nanos);
    var withinDay := seconds % 86400;
    Shown(CivilFromDays(seconds / 86400), withinDay / 3600, withinDay % 3600 / 60)
  }

  /** The minute a time shows as, counted from the epoch. */
  function MinuteShown(shown: Shown): int {
    (DaysOf(shown.date) * 24 + shown.hour) * 60 + shown.minute
  }

  /**
    A time shows as a date of the calendar and a time of day, and as the minute it falls in exactly unless it lies less
    than a second before a minute that is itself before the epoch or at it.
  */
  lemma ModifiedExactly(nanos: int)
    ensures var shown := Modified(nanos);
            && ValidDate(shown.date) && 0 <= shown.hour < 24 && 0 <= shown.minute < 60
            && (MinuteShown(shown) == nanos / (60 * NANOS) <==> !(nanos < 0 && nanos % (60 * NANOS) > 59 * NANOS))
  {
    var seconds := WholeSeconds(nanos);
    CivilIsDate(seconds / 86400);
    MinuteOfSeconds(seconds);
    MinutesOf(nanos);
    hide DaysOf, CivilFromDays, WholeSeconds, ValidDate;
  }

  /** A nanosecond before the epoch shows as the minute after the one it falls in. */
  lemma LastSecondShowsNextMinute()
    ensures Modified(-1) == Shown(EPOCH, 0, 0) && DaysOf(EPOCH) == 0 && CivilFromDays(-1) == Date(1969, 12, 31)
    ensures MinuteShown(Modified(-1)) == 0 && -1 / (60 * NANOS) == -1
  {
    EpochIsDayZero();
    DayBeforeEpoch();
    NanosecondBefore();
    hide CivilFromDays, DaysOf, WholeSeconds;
  }

  lemma NanosecondBefore()
    ensures WholeSeconds(-1) == 0 && -1 / (60 * NANOS) == -1
  {
  }

  lemma DayBeforeEpoch()
    ensures DaysOf(EPOCH) == 0 && CivilFromDays(-1) == Date(1969, 12, 31)
  {
    hide CivilFromDays;
    assert DaysOf(Date(1969, 12, 31)) == -1;
    DateRoundTrip(Date(1969, 12, 31));
  }

  lemma MinuteOfSeconds(seconds: int)
    ensures var withinDay := seconds % 86400;
            && 0 <= withinDay / 3600 < 24 && 0 <= withinDay % 3600 / 60 < 60
            && (seconds / 86400 * 24 + withinDay / 3600) * 60 + withinDay % 3600 / 60 == seconds / 60
  {
  }

  lemma MinutesOf(nanos: int)
    ensures WholeSeconds(nanos) / 60 == nanos / (60 * NANOS) <==> !(nanos < 0 && nanos % (60 * NANOS) > 59 * NANOS)
  {
  }

  // ----- sizes -----

  const U64_LIMIT: nat := 0x1_0000_0000_0000_0000
  const UNITS: seq<string> := ["B", "K", "M", "G", "T"]

  datatype Size = Bytes(bytes: nat) | Tenths(whole: nat, tenths: nat, unit: nat) | Whole(whole: nat, unit: nat)

  function Power(unit: nat): (p: nat)
    ensures p >= 1
  {
    if unit == 0 then 1 else 1024 * Power(unit - 1)
  }

  lemma {:induction false} PowerPositive(unit: nat)
    ensures Power(unit) >= 1 && Power(0) == 1
    ensures unit <= 4 ==> Power(unit) <= Power(4) == 1024 * 1024 * 1024 * 1024
  {
    assert Power(4) == 1024 * Power(3) && Power(3) == 1024 * Power(2) && Power(2) == 1024 * Power(1);
    if unit > 0 {
      PowerPositive(unit - 1);
    }
  }

  lemma AtLeast(k: int, size: nat)
    requires k >= 1
    ensures k * size >= size
  {
    if k > 1 {
      assert k * size == (k - 1) * size + size;
      AtLeast(k - 1, size);
    }
  }

  function Quotient(n: nat, size: nat): nat
    requires size > 0
  {
    n / size
  }

  function Remainder(n: nat, size: nat): nat
    requires size > 0
  {
    n % size
  }

  lemma Division(n: nat, size: nat)
    requires size > 0
    ensures n == Quotient(n, size) * size + Remainder(n, size) && Remainder(n, size) < size
  {
  }

  /** A quotient and a remainder below the divisor are the ones division gives. */
  lemma QuotientIs(n: nat, size: nat, q: int, r: nat)
    requires size > 0 && n == q * size + r && r < size
    ensures Quotient(n, size) == q && Remainder(n, size) == r
  {
    Division(n, size);
    var q2, r2 := Quotient(n, size), Remainder(n, size);
    hide Quotient, Remainder;
    assert (q2 - q) * size == q2 * size - q * size;
    if q2 > q {
      AtLeast(q2 - q, size);
    } else if q2 < q {
      assert (q - q2) * size == q * size - q2 * size;
      AtLeast(q - q2, size);
    }
  }

  lemma DivideTwice(n: nat, size: nat)
    requires size > 0
    ensures n / (1024 * size) == n / size / 1024
  {
    var q, r := n / size, n % size;
    var high, low := q / 1024, q % 1024;
    Split(n, size, q, r, high, low);
    LowFits(low, size, r);
    QuotientIs(n, 1024 * size, high, low * size + r);
  }

  lemma Split(n: nat, size: nat, q: nat, r: nat, high: nat, low: nat)
    requires n == q * size + r && q == high * 1024 + low
    ensures n == high * (1024 * size) + (low * size + r)
  {
    assert (high * 1024 + low) * size == high * 1024 * size + low * size;
  }

  lemma LowFits(low: nat, size: nat, r: nat)
    requires low < 1024 && r < size
    ensures low * size + r < 1024 * size
  {
    AtLeast(1024 - low, size);
    assert (1024 - low) * size == 1024 * size - low * size;
  }

  /** A count of units and tenths of one, rounded down. */
  lemma TenthsOf(n: nat, size: nat)
    requires size > 0
    ensures var tenths := Quotient(Remainder(n, size) * 10, size);
            Quotient(n, size) * 10 + tenths == Quotient(n * 10, size) && tenths < 10
  {
    Division(n, size);
    var q, r := Quotient(n, size), Remainder(n, size);
    Division(r * 10, size);
    hide Quotient, Remainder;
    TenthsCombine(n, size, q, r, Quotient(r * 10, size), Remainder(r * 10, size));
  }

  lemma TenthsCombine(n: nat, size: nat, q: nat, r: nat, t: nat, u: nat)
    requires size > 0 && n == q * size + r && r < size && r * 10 == t * size + u && u < size
    ensures q * 10 + t == Quotient(n * 10, size) && t < 10
  {
    TenTimes(n, size, q, r, t, u);
    AtMostNine(r, size, t, u);
    QuotientIs(n * 10, size, q * 10 + t, u);
  }

  lemma AtMostNine(r: nat, size: nat, t: nat, u: nat)
    requires r < size && r * 10 == t * size + u
    ensures t < 10
  {
    if t >= 10 {
      TimesTen(t, size);
    }
  }

  lemma TimesTen(t: nat, size: nat)
    requires t >= 10
    ensures t * size >= 10 * size
  {
    assert (t - 10) * size == t * size - 10 * size;
  }

  lemma TenTimes(n: nat, size: nat, q: nat, r: nat, t: nat, u: nat)
    requires n == q * size + r && r * 10 == t * size + u
    ensures n * 10 == (q * 10 + t) * size + u
  {
    assert (q * 10 + t) * size == q * 10 * size + t * size;
    assert q * 10 * size == q * size * 10;
  }

  /** The size in a unit it reads in: the largest that is not above it, with the tenth of it when that is under ten. */
  method FormatSize(bytes: nat) returns (size: Size)
    requires bytes < U64_LIMIT
    ensures size.Bytes? ==> size.bytes == bytes < 1024
    ensures !size.Bytes? ==>
              && 0 < size.unit < |UNITS| == 5
              && Power(size.unit) <= bytes && (size.unit < |UNITS| - 1 ==> bytes < Power(size.unit + 1))
              && size.whole == bytes / Power(size.unit)
    ensures size.Tenths? ==> size.whole < 10 && size.tenths < 10 && size.whole * 10 + size.tenths == bytes * 10 / Power(size.unit)
    ensures size.Whole? ==> size.whole >= 10
  {
    var unit, whole := 0, bytes;
    assert bytes / Power(0) == bytes;
    while whole >= 1024 && unit + 1 < |UNITS|
      invariant unit < |UNITS|
      invariant whole == bytes / Power(unit)
      invariant unit > 0 ==> whole >= 1
      decreases |UNITS| - unit
    {
      PowerPositive(unit);
      DivideTwice(bytes, Power(unit));
      whole := whole / 1024;
      unit := unit + 1;
    }
    PowerPositive(unit);
    var divisor := Power(unit);
    InUnit(bytes, divisor, whole);
    if unit == 0 {
      return Bytes(bytes);
    }
    if whole < 10 {
      assert bytes % divisor * 10 < U64_LIMIT;
      TenthsOf(bytes, divisor);
      return Tenths(whole, bytes % divisor * 10 / divisor, unit);
    } else {
      return Whole(whole, unit);
    }
  }

  lemma InUnit(n: nat, size: nat, whole: nat)
    requires size > 0 && whole == n / size
    ensures whole >= 1 ==> size <= n
    ensures whole < 1024 ==> n < 1024 * size
  {
    Division(n, size);
    assert Quotient(n, size) == whole;
    var r := Remainder(n, size);
    hide *;
    UnitsBound(n, size, whole, r);
  }

  lemma UnitsBound(n: nat, size: nat, whole: nat, r: nat)
    requires size > 0 && n == whole * size + r && r < size
    ensures whole >= 1 ==> size <= n
    ensures whole < 1024 ==> n < 1024 * size
  {
    if whole >= 1 {
      AtLeast(whole, size);
    }
    if whole < 1024 {
      LowFits(whole, size, r);
    }
  }
}
