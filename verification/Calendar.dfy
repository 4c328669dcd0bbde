// Calendar conversion of the RTC core (drivers/rtc/rtc.c): day numbers since
// 1970-01-01 against proleptic Gregorian dates, and `struct tm` against
// seconds since the epoch.
module Calendar {
  import opened CArith
  import opened Common

  datatype Date = Date(year: int, month: int, day: int)

  // ---- the Gregorian calendar, stated independently of the algorithm ----

  predicate Leap(y: int) {
    y % 4 == 0 && (y % 100 != 0 || y % 400 == 0)
  }

  function MonthLength(y: int, m: int): int {
    if m == 2 then (if Leap(y) then 29 else 28)
    else if m == 4 || m == 6 || m == 9 || m == 11 then 30
    else 31
  }

  predicate ValidDate(t: Date) {
    && 1 <= t.month <= 12
    && 1 <= t.day <= MonthLength(t.year, t.month)
  }

  function NextDay(t: Date): (n: Date)
    requires ValidDate(t)
    ensures ValidDate(n) && Before(t, n)
  {
    if t.day < MonthLength(t.year, t.month) then Date(t.year, t.month, t.day + 1)
    else if t.month < 12 then Date(t.year, t.month + 1, 1)
    else Date(t.year + 1, 1, 1)
  }

  predicate Before(a: Date, b: Date) {
    || a.year < b.year
    || (a.year == b.year && a.month < b.month)
    || (a.year == b.year && a.month == b.month && a.day < b.day)
  }

  // ---- the algorithm ----

  function DaysFromCivil(y0: int, m: int, d: int): int {
    var y := if m <= 2 then y0 - 1 else y0;
    var era := CDiv(if y >= 0 then y else y - 399, 400);
    var yoe := y - era * 400;
    var doy := CDiv(153 * (m + (if m > 2 then -3 else 9)) + 2, 5) + d - 1;
    var doe := yoe * 365 + CDiv(yoe, 4) - CDiv(yoe, 100) + doy;
    era * 146097 + doe - 719468
  }

  function CivilFromDays(z0: int): Date {
    var z := z0 + 719468;
    var era := CDiv(if z >= 0 then z else z - 146096, 146097);
    var doe := z - era * 146097;
    var yoe := CDiv(doe - CDiv(doe, 1460) + CDiv(doe, 36524) - CDiv(doe, 146096), 365);
    var doy := doe - (365 * yoe + CDiv(yoe, 4) - CDiv(yoe, 100));
    var mp := CDiv(5 * doy + 2, 153);
    var d := doy - CDiv(153 * mp + 2, 5) + 1;
    var m := if mp < 10 then mp + 3 else mp - 9;
    Date(yoe + era * 400 + (if m <= 2 then 1 else 0), m, d)
  }

  function DayNumber(t: Date): int {
    DaysFromCivil(t.year, t.month, t.day)
  }

  // ---- arithmetic of one era ----

  // First day of March-based year k of an era.
  function YearStart(k: int): int {
    365 * k + k / 4 - k / 100
  }

  // First day of March-based year y, counted from year 0.
  function AbsoluteYearStart(y: int): int {
    (y / 400) * 146097 + YearStart(y % 400)
  }

  // First day of March-based month mp of a year.
  function MonthStart(mp: int): int {
    (153 * mp + 2) / 5
  }

  function YearOfDay(doe: int): int {
    (doe - doe / 1460 + doe / 36524 - doe / 146096) / 365
  }

  lemma EraIsFloor(x: int, w: int)
    requires w > 0
    ensures CDiv(if x >= 0 then x else x - (w - 1), w) == x / w
  {
    if x < 0 {
      var q := x / w;
      assert -w < (x - (w - 1)) - w * q <= 0;
      CDivUnique(x - (w - 1), w, q);
    }
  }

  lemma YearOfDayIsRight(doe: int)
    requires 0 <= doe <= 146096
    ensures 0 <= YearOfDay(doe) <= 399
    ensures YearStart(YearOfDay(doe)) <= doe
    ensures doe < YearStart(YearOfDay(doe) + 1) || (YearOfDay(doe) == 399 && doe == 146096)
  {
    if doe == 146096 {
      assert YearOfDay(doe) == 399;
    } else {
      YearOfDayInCentury(doe, doe / 36524);
    }
  }

  lemma YearOfDayInCentury(doe: int, c: int)
    requires 0 <= c <= 3 && 36524 * c <= doe < 36524 * (c + 1)
    ensures 100 * c <= YearOfDay(doe) <= 100 * c + 99
    ensures YearStart(YearOfDay(doe)) <= doe
    ensures doe < YearStart(YearOfDay(doe) + 1)
  {
    hide YearOfDay, YearStart;
    var r := doe - 36524 * c;
    YearInCycle(c, r / 1461, r % 1461);
  }

  // Day s of four-year cycle n of century c.
  lemma YearInCycle(c: int, n: int, s: int)
    requires 0 <= c <= 3 && 0 <= n <= 24 && 0 <= s < 1461 && 1461 * n + s < 36524
    ensures var doe := 36524 * c + 1461 * n + s;
            var t := if s / 365 <= 3 then s / 365 else 3;
            var k := 100 * c + 4 * n + t;
            && YearOfDay(doe) == k
            && 100 * c <= k <= 100 * c + 99
            && YearStart(k) <= doe < YearStart(k + 1)
  {
    hide YearStart;
    var t := if s / 365 <= 3 then s / 365 else 3;
    YearOfCycleDay(c, n, s, t);
    CycleStart(c, n, t);
    CycleEnd(c, n, t);
  }

  lemma YearOfCycleDay(c: int, n: int, s: int, t: int)
    requires 0 <= c <= 3 && 0 <= n <= 24 && 0 <= s < 1461 && 1461 * n + s < 36524
    requires 0 <= t <= 3 && 365 * t <= s && (t < 3 ==> s < 365 * (t + 1))
    ensures YearOfDay(36524 * c + 1461 * n + s) == 100 * c + 4 * n + t
  {
    var doe := 36524 * c + 1461 * n + s;
    var late := if 24 * c + n + s >= 1460 then 1 else 0;
    DivMod(doe, 1460, 25 * c + n + late, 24 * c + n + s - 1460 * late);
    DivMod(doe, 36524, c, 1461 * n + s);
    DivMod(doe, 146096, 0, doe);
    DivMod(365 * (100 * c + 4 * n) + (s - late), 365, 100 * c + 4 * n + t, s - late - 365 * t);
  }

  lemma CycleStart(c: int, n: int, t: int)
    requires 0 <= c <= 3 && 0 <= n <= 24 && 0 <= t <= 3
    ensures YearStart(100 * c + 4 * n + t) == 36524 * c + 1461 * n + 365 * t
  {
    var k := 100 * c + 4 * n + t;
    DivMod(k, 4, 25 * c + n, t);
    DivMod(k, 100, c, 4 * n + t);
  }

  lemma CycleEnd(c: int, n: int, t: int)
    requires 0 <= c <= 3 && 0 <= n <= 24 && 0 <= t <= 3
    ensures YearStart(100 * c + 4 * n + t + 1)
            == 36524 * c + 1461 * n + (if t < 3 then 365 * (t + 1) else if n < 24 then 1461 else 1460)
  {
    hide YearStart;
    if t < 3 {
      CycleStart(c, n, t + 1);
    } else if n < 24 {
      CycleStart(c, n + 1, 0);
    } else if c < 3 {
      CycleStart(c + 1, 0, 0);
    } else {
      assert YearStart(400) == 146096 by { EndOfEra(); }
    }
  }

  lemma EndOfEra()
    ensures YearStart(400) == 146096
  {
  }

  // The day number through floor division only; the day need not exist in
  // its month.
  lemma DaysByYear(year: int, month: int, day: int)
    requires 1 <= month <= 12
    ensures var y := if month <= 2 then year - 1 else year;
            var mp := if month > 2 then month - 3 else month + 9;
            DaysFromCivil(year, month, day) == AbsoluteYearStart(y) + MonthStart(mp) + day - 1 - 719468
  {
    var y := if month <= 2 then year - 1 else year;
    EraIsFloor(y, 400);
    assert y - (y / 400) * 400 == y % 400;
  }

  lemma DayNumberByEra(t: Date)
    requires ValidDate(t)
    ensures var y := if t.month <= 2 then t.year - 1 else t.year;
            var mp := if t.month > 2 then t.month - 3 else t.month + 9;
            DayNumber(t) == AbsoluteYearStart(y) + MonthStart(mp) + t.day - 1 - 719468
  {
    hide DaysFromCivil;
    DaysByYear(t.year, t.month, t.day);
  }

  // ---- the results ----

  lemma EpochIsZero()
    ensures DayNumber(Date(1970, 1, 1)) == 0
  {
    hide DayNumber, AbsoluteYearStart;
    DayNumberByEra(Date(1970, 1, 1));
    EpochYearStart();
  }

  lemma EpochYearStart()
    ensures AbsoluteYearStart(1969) == 4 * 146097 + 134774
  {
  }

  // Each calendar day is one day number after the day before it.
  lemma NextDayIsNextNumber(t: Date)
    requires ValidDate(t)
    ensures DayNumber(NextDay(t)) == DayNumber(t) + 1
  {
    hide DayNumber, AbsoluteYearStart;
    DayNumberByEra(t);
    DayNumberByEra(NextDay(t));
    if t.day == MonthLength(t.year, t.month) && t.month == 2 {
      // 1 March opens the next March-based year, possibly the next era
      LastOfFebruary(t.year - 1);
    }
  }

  lemma LastOfFebruary(y: int)
    ensures AbsoluteYearStart(y + 1) == AbsoluteYearStart(y) + (if Leap(y + 1) then 366 else 365)
  {
    var e, k := y / 400, y % 400;
    assert y == 400 * e + k;
    YearLength(e, k);
    if k == 399 {
      assert y + 1 == 400 * (e + 1);
    } else {
      assert (y + 1) / 400 == e && (y + 1) % 400 == k + 1;
    }
  }

  // 29 February closes March-based year 400 * e + k exactly when the next
  // civil year is a leap year.
  lemma YearLength(e: int, k: int)
    requires 0 <= k <= 399
    ensures var length := (if k == 399 then 146097 else YearStart(k + 1)) - YearStart(k);
            length == if Leap(400 * e + k + 1) then 366 else 365
  {
    LeapIsPeriodic(e, k + 1);
    assert (k + 1) / 4 - k / 4 == if (k + 1) % 4 == 0 then 1 else 0;
    assert (k + 1) / 100 - k / 100 == if (k + 1) % 100 == 0 then 1 else 0;
  }

  lemma LeapIsPeriodic(e: int, k: int)
    ensures Leap(400 * e + k) == Leap(k)
  {
    ModAddMultiple(k, 4, 100 * e);
    ModAddMultiple(k, 100, 4 * e);
    ModAddMultiple(k, 400, e);
  }

  // civil_from_days yields a real date, and days_from_civil takes it back.
  lemma DaysOfCivil(z: int)
    ensures ValidDate(CivilFromDays(z))
    ensures DayNumber(CivilFromDays(z)) == z
  {
    hide *;
    var w := z + 719468;
    var era, doe := w / 146097, w % 146097;
    CivilByEra(z, era, doe);
    YearOfDayIsRight(doe);
    var yoe := YearOfDay(doe);
    var doy := doe - YearStart(yoe);
    YearLength(era, yoe);
    EndOfEra();
    FromPartsIsValid(era, yoe, doy);
    var mp := (5 * doy + 2) / 153;
    FromPartsNumber(era, yoe, mp, doy - MonthStart(mp) + 1);
  }

  lemma FromPartsNumber(era: int, yoe: int, mp: int, d: int)
    requires 0 <= yoe <= 399 && ValidDate(FromParts(era, yoe, mp, d)) && 0 <= mp <= 11
    ensures DayNumber(FromParts(era, yoe, mp, d)) == era * 146097 + YearStart(yoe) + MonthStart(mp) + d - 1 - 719468
  {
    hide DayNumber, YearStart, MonthStart, MonthLength;
    DayNumberByEra(FromParts(era, yoe, mp, d));
    DivMod(yoe + era * 400, 400, era, yoe);
  }

  // civil_from_days through floor division only.
  lemma CivilByEra(z: int, era: int, doe: int)
    requires z + 719468 == 146097 * era + doe && 0 <= doe < 146097
    ensures var yoe := YearOfDay(doe);
            var doy := doe - YearStart(yoe);
            var mp := (5 * doy + 2) / 153;
            CivilFromDays(z) == FromParts(era, yoe, mp, doy - MonthStart(mp) + 1)
  {
    hide *;
    var w := z + 719468;
    EraIsFloor(w, 146097);
    DivMod(w, 146097, era, doe);
    YearOfDayIsRight(doe);
    var yoe := YearOfDay(doe);
    YearOfDayByCDiv(doe);
    var doy := doe - YearStart(yoe);
    MonthByCDiv(yoe, doy);
    CivilIsFromParts(z, era, doe, yoe, doy, (5 * doy + 2) / 153);
  }

  lemma YearOfDayByCDiv(doe: int)
    requires 0 <= doe < 146097
    ensures CDiv(doe - CDiv(doe, 1460) + CDiv(doe, 36524) - CDiv(doe, 146096), 365) == YearOfDay(doe)
  {
    assert doe / 1460 <= doe;
  }

  lemma MonthByCDiv(yoe: int, doy: int)
    requires yoe >= 0 && doy >= 0
    ensures 365 * yoe + CDiv(yoe, 4) - CDiv(yoe, 100) == YearStart(yoe)
    ensures CDiv(5 * doy + 2, 153) == (5 * doy + 2) / 153 >= 0
    ensures CDiv(153 * ((5 * doy + 2) / 153) + 2, 5) == MonthStart((5 * doy + 2) / 153)
  {
  }

  lemma CivilIsFromParts(z: int, era: int, doe: int, yoe: int, doy: int, mp: int)
    requires era == CDiv(if z + 719468 >= 0 then z + 719468 else z + 719468 - 146096, 146097)
    requires doe == z + 719468 - era * 146097
    requires yoe == CDiv(doe - CDiv(doe, 1460) + CDiv(doe, 36524) - CDiv(doe, 146096), 365)
    requires doy == doe - (365 * yoe + CDiv(yoe, 4) - CDiv(yoe, 100))
    requires mp == CDiv(5 * doy + 2, 153)
    ensures CivilFromDays(z) == FromParts(era, yoe, mp, doy - CDiv(153 * mp + 2, 5) + 1)
  {
    hide CDiv;
  }

  // The civil date of day d in March-based month mp of year yoe of an era.
  function FromParts(era: int, yoe: int, mp: int, d: int): Date {
    var m := if mp < 10 then mp + 3 else mp - 9;
    Date(yoe + era * 400 + (if m <= 2 then 1 else 0), m, d)
  }

  lemma FromPartsIsValid(era: int, yoe: int, doy: int)
    requires 0 <= yoe <= 399
    requires 0 <= doy < (if Leap(400 * era + yoe + 1) then 366 else 365)
    ensures var mp := (5 * doy + 2) / 153;
            0 <= mp <= 11 && ValidDate(FromParts(era, yoe, mp, doy - MonthStart(mp) + 1))
  {
    MonthOfDayIsRight(doy);
  }

  lemma MonthOfDayIsRight(doy: int)
    requires 0 <= doy <= 365
    ensures var mp := (5 * doy + 2) / 153;
            && 0 <= mp <= 11
            && MonthStart(mp) <= doy
            && (mp < 11 ==> doy < MonthStart(mp + 1))
  {
  }

  // Day numbers grow with dates: lexicographic order is day order.
  lemma OrderOfDays(a: Date, b: Date)
    requires ValidDate(a) && ValidDate(b)
    ensures Before(a, b) <==> DayNumber(a) < DayNumber(b)
  {
    if Before(a, b) {
      LaterIsGreater(a, b);
    } else if Before(b, a) {
      LaterIsGreater(b, a);
    } else {
      assert a == b;
    }
  }

  lemma LaterIsGreater(a: Date, b: Date)
    requires ValidDate(a) && ValidDate(b) && Before(a, b)
    ensures DayNumber(a) < DayNumber(b)
  {
    hide DayNumber, AbsoluteYearStart;
    DayNumberByEra(a);
    DayNumberByEra(b);
    var ya := if a.month <= 2 then a.year - 1 else a.year;
    var yb := if b.month <= 2 then b.year - 1 else b.year;
    if ya < yb {
      LastOfFebruary(ya);
      YearStartsGrow(ya + 1, yb);
    }
  }

  lemma {:induction false} YearStartsGrow(a: int, b: int)
    requires a <= b
    ensures AbsoluteYearStart(a) <= AbsoluteYearStart(b)
    decreases b - a
  {
    if a < b {
      LastOfFebruary(a);
      YearStartsGrow(a + 1, b);
    }
  }

  // days_from_civil followed by civil_from_days is the identity on dates.
  lemma CivilOfDays(t: Date)
    requires ValidDate(t)
    ensures CivilFromDays(DayNumber(t)) == t
  {
    var u := CivilFromDays(DayNumber(t));
    DaysOfCivil(DayNumber(t));
    OrderOfDays(t, u);
    OrderOfDays(u, t);
  }

  // ---- struct tm ----

  datatype RtcTime = RtcTime(sec: int, min: int, hour: int, mday: int, mon: int, year: int, wday: int, yday: int)

  // Conversion to a 32-bit `int`.
  function ToInt32(x: int): (r: int)
    ensures -0x8000_0000 <= r < 0x8000_0000
    ensures -0x8000_0000 <= x < 0x8000_0000 ==> r == x
    ensures (x - r) % 0x1_0000_0000 == 0
  {
    (x + 0x8000_0000) % 0x1_0000_0000 - 0x8000_0000
  }

  function SecsToTm(secs: nat): RtcTime {
    var days, rem := secs / 86400, secs % 86400;
    var t := CivilFromDays(days);
    RtcTime(rem % 60, rem / 60 % 60, rem / 3600, t.day, t.month - 1, ToInt32(t.year - 1900),
            (days + 4) % 7, ToInt32(days - DaysFromCivil(t.year, 1, 1)))
  }

  predicate TmInRange(t: RtcTime) {
    && 0 <= t.sec <= 60 && 0 <= t.min <= 59 && 0 <= t.hour <= 23
    && 1 <= t.mday <= 31 && 0 <= t.mon <= 11 && t.year >= 70
  }

  function TmToSecs(t: RtcTime): Result<int> {
    if !TmInRange(t) then Err(EINVAL)
    else
      var days := DaysFromCivil(t.year + 1900, t.mon + 1, t.mday);
      Ok(days * 86400 + t.hour * 3600 + t.min * 60 + t.sec)
  }

  // Exactly which times are accepted.
  lemma AcceptedTimes(t: RtcTime)
    ensures TmToSecs(t).Ok? <==>
            && 0 <= t.sec <= 60 && 0 <= t.min <= 59 && 0 <= t.hour <= 23
            && 1 <= t.mday <= 31 && 0 <= t.mon <= 11 && t.year >= 70
    ensures TmToSecs(t).Ok? || TmToSecs(t) == Err(EINVAL)
  {
    hide DaysFromCivil;
  }

  // The first second of the first year that does not fit `tm_year`.
  const TM_YEAR_LIMIT := 0x8000_0000 + 1900
  const TM_SECS_LIMIT := 67768036191676800

  lemma LimitIsNewYear()
    ensures DayNumber(Date(TM_YEAR_LIMIT, 1, 1)) * 86400 == TM_SECS_LIMIT
  {
    hide DayNumber, AbsoluteYearStart;
    DayNumberByEra(Date(TM_YEAR_LIMIT, 1, 1));
    LimitYearStart();
  }

  lemma LimitYearStart()
    ensures AbsoluteYearStart(TM_YEAR_LIMIT - 1) == 5368713 * 146097 + 126738
  {
    DivMod(TM_YEAR_LIMIT - 1, 400, 5368713, 347);
    DivMod(347, 4, 86, 3);
    DivMod(347, 100, 3, 47);
  }

  lemma YearFitsBelowLimit(secs: nat)
    ensures CivilFromDays(secs / 86400).year >= 1970
    ensures CivilFromDays(secs / 86400).year < TM_YEAR_LIMIT <==> secs < TM_SECS_LIMIT
  {
    hide CivilFromDays, DayNumber;
    var days := secs / 86400;
    var t := CivilFromDays(days);
    DaysOfCivil(days);
    EpochIsZero();
    LimitIsNewYear();
    OrderOfDays(t, Date(1970, 1, 1));
    OrderOfDays(t, Date(TM_YEAR_LIMIT, 1, 1));
  }

  // Setting the clock to the time just read changes nothing exactly as long
  // as the year fits the 32-bit field.
  lemma TmRoundTrip(secs: nat)
    ensures TmToSecs(SecsToTm(secs)) == Ok(secs) <==> secs < TM_SECS_LIMIT
  {
    hide CivilFromDays, DaysFromCivil, ToInt32;
    var days, rem := secs / 86400, secs % 86400;
    var c := CivilFromDays(days);
    DaysOfCivil(days);
    YearFitsBelowLimit(secs);
    var t := SecsToTm(secs);
    SplitOfDay(rem);
    if t.year == c.year - 1900 {
      assert TmToSecs(t) == Ok(secs);
    } else if TmToSecs(t).Ok? {
      YearDetermined(t.year + 1900, c.year, c.month, c.day);
    }
  }

  lemma SplitOfDay(rem: int)
    requires 0 <= rem < 86400
    ensures rem == rem / 3600 * 3600 + rem / 60 % 60 * 60 + rem % 60
    ensures 0 <= rem / 3600 <= 23 && 0 <= rem / 60 % 60 <= 59 && 0 <= rem % 60 <= 59
  {
    assert rem / 3600 == rem / 60 / 60;
  }

  // The same month and day of different years have different day numbers,
  // whether or not that day exists in both.
  lemma YearDetermined(y1: int, y2: int, m: int, d: int)
    requires y1 != y2 && 1 <= m <= 12
    ensures DaysFromCivil(y1, m, d) != DaysFromCivil(y2, m, d)
  {
    hide DaysFromCivil, AbsoluteYearStart;
    DaysByYear(y1, m, d);
    DaysByYear(y2, m, d);
    var a := if m <= 2 then y1 - 1 else y1;
    var b := if m <= 2 then y2 - 1 else y2;
    if a < b {
      LastOfFebruary(a);
      YearStartsGrow(a + 1, b);
    } else {
      LastOfFebruary(b);
      YearStartsGrow(b + 1, a);
    }
  }

  // A real date and time of day from 1970 on survives being set and read back.
  lemma SetThenRead(t: RtcTime)
    requires TmInRange(t) && t.sec < 60 && t.year < 0x8000_0000
    requires ValidDate(Date(t.year + 1900, t.mon + 1, t.mday))
    ensures TmToSecs(t).Ok? && TmToSecs(t).value >= 0
    ensures var r := SecsToTm(TmToSecs(t).value);
            && r.(wday := t.wday, yday := t.yday) == t
            && 0 <= r.yday <= 365
  {
    hide CivilFromDays, DaysFromCivil, Leap;
    var c := Date(t.year + 1900, t.mon + 1, t.mday);
    DayOfYear(c);
    CivilOfDays(c);
    JoinOfDay(DayNumber(c), t.hour, t.min, t.sec);
  }

  lemma DayOfYear(c: Date)
    requires ValidDate(c) && c.year >= 1970
    ensures DayNumber(c) >= 0
    ensures 0 <= DayNumber(c) - DayNumber(Date(c.year, 1, 1)) <= 365
  {
    hide DayNumber, Leap;
    EpochIsZero();
    OrderOfDays(c, Date(1970, 1, 1));
    OrderOfDays(c, Date(c.year, 1, 1));
    OrderOfDays(c, Date(c.year + 1, 1, 1));
    YearHasAtMost366(c.year);
  }

  lemma JoinOfDay(days: int, h: int, m: int, s: int)
    requires 0 <= h <= 23 && 0 <= m <= 59 && 0 <= s <= 59
    ensures var secs := days * 86400 + h * 3600 + m * 60 + s;
            var rem := secs % 86400;
            && secs / 86400 == days
            && rem / 3600 == h && rem / 60 % 60 == m && rem % 60 == s
  {
    var rem := h * 3600 + m * 60 + s;
    assert (days * 86400 + rem) / 86400 == days;
    assert rem / 60 == h * 60 + m && rem / 3600 == h;
  }

  lemma YearHasAtMost366(y: int)
    ensures DayNumber(Date(y + 1, 1, 1)) - DayNumber(Date(y, 1, 1)) <= 366
  {
    hide DayNumber, AbsoluteYearStart;
    DayNumberByEra(Date(y, 1, 1));
    DayNumberByEra(Date(y + 1, 1, 1));
    LastOfFebruary(y - 1);
  }

  // The time of day, and the date by its own day number.
  lemma TmFields(secs: nat) returns (year: int)
    ensures var t := SecsToTm(secs);
            && 0 <= t.sec < 60 && 0 <= t.min < 60 && 0 <= t.hour < 24
            && t.year == ToInt32(year - 1900) && ValidDate(Date(year, t.mon + 1, t.mday))
            && secs == DayNumber(Date(year, t.mon + 1, t.mday)) * 86400 + t.hour * 3600 + t.min * 60 + t.sec
  {
    hide CivilFromDays, DayNumber, ToInt32, ValidDate;
    var c, t := CivilFromDays(secs / 86400), SecsToTm(secs);
    year := c.year;
    DaysOfCivil(secs / 86400);
    SplitOfDay(secs % 86400);
    assert c == Date(year, t.mon + 1, t.mday);
  }

  // The second `rem` of a day.
  function At(days: nat, rem: nat): (secs: nat)
    ensures rem < 86400 ==> secs / 86400 == days && secs % 86400 == rem
  {
    days * 86400 + rem
  }

  // 1 January 1970 was a Thursday, and the day of the week goes on by one a day
  // from 0, Sunday, to 6.
  lemma WeekDays(days: nat, rem: nat, rem': nat)
    requires rem < 86400 && rem' < 86400
    ensures SecsToTm(At(0, rem)).wday == 4
    ensures var wday := SecsToTm(At(days, rem)).wday;
            0 <= wday <= 6 && SecsToTm(At(days + 1, rem')).wday == if wday == 6 then 0 else wday + 1
  {
    hide CivilFromDays, DaysFromCivil, ToInt32, At;
  }

  // The day of the year is 0 on 1 January and goes on by one a day.
  lemma YearDays(days: nat, rem: nat, rem': nat)
    requires rem < 86400 && rem' < 86400
    ensures var t, n := SecsToTm(At(days, rem)), SecsToTm(At(days + 1, rem'));
            && 0 <= t.yday <= 365 && (t.mon == 0 && t.mday == 1 ==> t.yday == 0)
            && n.yday == if t.mon == 11 && t.mday == 31 then 0 else t.yday + 1
  {
    hide CivilFromDays, DayNumber, ToInt32, Leap, At;
    var c, d := CivilFromDays(days), CivilFromDays(days + 1);
    YearDayIs(days, rem);
    YearDayIs(days + 1, rem');
    NextDayIsNextNumber(c);
    CivilOfDays(NextDay(c));
    hide SecsToTm;
    assert d == NextDay(c);
  }

  lemma YearDayIs(days: nat, rem: nat)
    requires rem < 86400
    ensures var c := CivilFromDays(days); var t := SecsToTm(At(days, rem));
            && ValidDate(c) && DayNumber(c) == days && t.mon == c.month - 1 && t.mday == c.day
            && t.yday == days - DayNumber(Date(c.year, 1, 1)) && 0 <= t.yday <= 365
  {
    hide CivilFromDays, DaysFromCivil, Leap, At;
    var c := CivilFromDays(days);
    DaysOfCivil(days);
    EpochIsZero();
    OrderOfDays(c, Date(1970, 1, 1));
    DayOfYear(c);
  }
}
