/**
 Spreadsheet dates (backend/excelize/date.go): the Julian day number to
 Gregorian date algorithm, and the conversions between a date and its serial
 number, on whole days. A date is a day, a month and a year, with the year 0 and
 the years before it; a day is its Julian day number.
 */
module Date {

  datatype Date = Date(day: int, month: int, year: int)

  // ----- the calendar -----

  predicate IsLeap(y: int) {
    y % 4 == 0 && (y % 100 != 0 || y % 400 == 0)
  }

  function DaysIn(m: int, y: int): int {
    if m == 2 then (if IsLeap(y) then 29 else 28)
    else if m == 4 || m == 6 || m == 9 || m == 11 then 30
    else 31
  }

  predicate Valid(d: Date) {
    1 <= d.month <= 12 && 1 <= d.day <= DaysIn(d.month, d.year)
  }

  function Next(d: Date): Date {
    if d.day < DaysIn(d.month, d.year) then d.(day := d.day + 1)
    else if d.month < 12 then Date(1, d.month + 1, d.year)
    else Date(1, 1, d.year + 1)
  }

  // ----- the algorithm -----

  /** Division of the source language: truncated toward zero. */
  function Quo(a: int, b: int): int
    requires b > 0
  {
    if a >= 0 then a / b else -((-a) / b)
  }

  function Fliegel(jd: int): Date {
    var l := jd + 68569;
    var n := Quo(4 * l, 146097);
    var l := l - Quo(146097 * n + 3, 4);
    var i := Quo(4000 * (l + 1), 1461001);
    var l := l - Quo(1461 * i, 4) + 31;
    var j := Quo(80 * l, 2447);
    var d := l - Quo(2447 * j, 80);
    var l := Quo(j, 11);
    var m := j + 2 - 12 * l;
    var y := 100 * (n - 49) + i + l;
    Date(d, m, y)
  }

  // ----- centuries and years that begin in March -----

  function CenturyStart(n: int): int {
    (146097 * n + 3) / 4
  }

  function YearStart(i: int): int {
    1461 * i / 4
  }

  /** Days of year `i` of century `n`; the last year ends with the century. */
  function YearLength(n: int, i: int): int {
    (if i == 99 then CenturyStart(n + 1) - CenturyStart(n) else YearStart(i + 1)) - YearStart(i)
  }

  /** The date of day `k` (from 0) of a year that begins on 1 March. */
  function InYear(n: int, i: int, k: int): Date {
    var j := 80 * (k + 31) / 2447;
    Date(k + 31 - 2447 * j / 80, j + 2 - 12 * (j / 11), 100 * (n - 49) + i + j / 11)
  }

  /** Day `l` is day `k` of year `i` of century `n`. */
  ghost predicate Splits(l: int, n: int, i: int, k: int) {
    && 0 <= n && 0 <= i <= 99 && 0 <= k < YearLength(n, i)
    && l == CenturyStart(n) + YearStart(i) + k
  }

  lemma LastYearLength(n: int)
    requires 0 <= n
    ensures YearLength(n, 99) == if n % 4 == 0 then 366 else 365
  {
  }

  lemma EarlierYearLength(n: int, i: int)
    requires 0 <= i < 99
    ensures YearLength(n, i) == if (i + 1) % 4 == 0 then 366 else 365
  {
  }

  lemma Mod400(q: int, r: int)
    requires 0 <= r < 400
    ensures (400 * q + r) % 400 == r
  {
  }

  lemma Mod100(q: int, r: int)
    requires 0 <= r < 100
    ensures (100 * q + r) % 100 == r
  {
  }

  lemma Mod4(q: int, r: int)
    ensures (4 * q + r) % 4 == r % 4
  {
  }

  lemma LeapInCentury(c: int, i: int)
    requires 1 <= i <= 99
    ensures IsLeap(100 * c + i) <==> i % 4 == 0
  {
    Mod100(c, i);
    Mod4(25 * c, i);
    if (100 * c + i) % 400 == 0 {
      Mod100(4 * ((100 * c + i) / 400), 0);
    }
  }

  lemma LeapCentury(c: int)
    ensures IsLeap(100 * c) <==> c % 4 == 0
  {
    var q, r := c / 4, c % 4;
    assert 100 * c == 400 * q + 100 * r;
    Mod400(q, 100 * r);
    Mod100(c, 0);
    Mod4(25 * c, 0);
  }

  lemma YearLengths(n: int, i: int)
    requires 0 <= n && 0 <= i <= 99
    ensures YearLength(n, i) == if IsLeap(100 * (n - 49) + i + 1) then 366 else 365
  {
    if i < 99 {
      EarlierYearLength(n, i);
      LeapInCentury(n - 49, i + 1);
    } else {
      LastYearLength(n);
      LeapCentury(n - 48);
    }
  }

  lemma FliegelSplits(l: int) returns (n: int, i: int, k: int)
    requires 0 <= l
    ensures Splits(l, n, i, k) && Fliegel(l - 68569) == InYear(n, i, k)
  {
    n := 4 * l / 146097;
    var l1 := l - CenturyStart(n);
    assert 0 <= l1 < CenturyStart(n + 1) - CenturyStart(n);
    i := 4000 * (l1 + 1) / 1461001;
    k := l1 - YearStart(i);
    assert 0 <= i <= 99;
    assert YearStart(i) <= l1;
    assert i < 99 ==> l1 < YearStart(i + 1);
  }

  lemma SplitUnique(l: int, n: int, i: int, k: int, n': int, i': int, k': int)
    requires Splits(l, n, i, k) && Splits(l, n', i', k')
    ensures n == n' && i == i' && k == k'
  {
  }

  function MonthStart(j: int): int {
    2447 * j / 80 - 30
  }

  /** Month `j` of a year that begins on 1 March holds day `k`. */
  lemma MonthOfDay(k: int, j: int)
    requires 0 <= k <= 365 && j == 80 * (k + 31) / 2447
    ensures 1 <= j <= 12 && MonthStart(j) <= k < MonthStart(j + 1)
  {
  }

  /** Before February the months have their calendar lengths. */
  lemma MonthLength(j: int, y: int)
    requires 1 <= j <= 11
    ensures MonthStart(j + 1) - MonthStart(j) == DaysIn(j + 2 - 12 * (j / 11), y)
  {
  }

  lemma InYearValid(n: int, i: int, k: int)
    requires 0 <= n && 0 <= i <= 99 && 0 <= k < YearLength(n, i)
    ensures Valid(InYear(n, i, k))
  {
    YearLengths(n, i);
    var j := 80 * (k + 31) / 2447;
    MonthOfDay(k, j);
    if j <= 11 {
      MonthLength(j, InYear(n, i, k).year);
    }
  }

  lemma MonthStep(k: int, j: int, j': int)
    requires 0 <= k < 365 && j == 80 * (k + 31) / 2447 && j' == 80 * (k + 32) / 2447
    ensures j' == if k + 1 < MonthStart(j + 1) then j else j + 1
  {
    MonthOfDay(k, j);
    MonthOfDay(k + 1, j');
  }

  lemma NextInYear(n: int, i: int, k: int)
    requires 0 <= n && 0 <= i <= 99 && 0 <= k && k + 1 < YearLength(n, i)
    ensures InYear(n, i, k + 1) == Next(InYear(n, i, k))
  {
    YearLengths(n, i);
    var j, j' := 80 * (k + 31) / 2447, 80 * (k + 32) / 2447;
    MonthOfDay(k, j);
    MonthStep(k, j, j');
    var d := InYear(n, i, k);
    assert d == Date(k - MonthStart(j) + 1, j + 2 - 12 * (j / 11), 100 * (n - 49) + i + j / 11);
    assert InYear(n, i, k + 1) == Date(k + 1 - MonthStart(j') + 1, j' + 2 - 12 * (j' / 11), 100 * (n - 49) + i + j' / 11);
    if j <= 11 {
      MonthLength(j, d.year);
    }
  }

  lemma NextYear(n: int, i: int, k: int)
    requires 0 <= n && 0 <= i <= 99 && k + 1 == YearLength(n, i)
    ensures Next(InYear(n, i, k)) == if i < 99 then InYear(n, i + 1, 0) else InYear(n + 1, 0, 0)
  {
    YearLengths(n, i);
    MonthOfDay(k, 80 * (k + 31) / 2447);
  }

  lemma NextSplit(l: int, n: int, i: int, k: int, n': int, i': int, k': int)
    requires Splits(l, n, i, k) && Splits(l + 1, n', i', k')
    ensures InYear(n', i', k') == Next(InYear(n, i, k))
  {
    if k + 1 < YearLength(n, i) {
      NextInYear(n, i, k);
      SplitUnique(l + 1, n, i, k + 1, n', i', k');
    } else {
      NextYear(n, i, k);
      if i < 99 {
        YearLengths(n, i + 1);
        SplitUnique(l + 1, n, i + 1, 0, n', i', k');
      } else {
        YearLengths(n + 1, 0);
        SplitUnique(l + 1, n + 1, 0, 0, n', i', k');
      }
    }
  }

  // ----- main results about the algorithm -----

  /** The result is a date of the calendar. */
  lemma FliegelValid(jd: int)
    requires jd + 68569 >= 0
    ensures Valid(Fliegel(jd))
  {
    var n, i, k := FliegelSplits(jd + 68569);
    InYearValid(n, i, k);
  }

  /** Consecutive day numbers have consecutive dates. */
  lemma FliegelNext(jd: int)
    requires jd + 68569 >= 0
    ensures Fliegel(jd + 1) == Next(Fliegel(jd))
  {
    var l := jd + 68569;
    var n, i, k := FliegelSplits(l);
    var n', i', k' := FliegelSplits(l + 1);
    NextSplit(l, n, i, k, n', i', k');
  }

  /** The date `k` days after `d`. */
  function After(d: Date, k: nat): Date {
    if k == 0 then d else Next(After(d, k - 1))
  }

  lemma {:induction false} Counts(f: int -> Date, start: int, k: nat)
    requires forall x :: start <= x ==> f(x + 1) == Next(f(x))
    ensures f(start + k) == After(f(start), k)
    decreases k
  {
    if k > 0 {
      Counts(f, start, k - 1);
      assert f(start + (k - 1) + 1) == Next(f(start + (k - 1)));
    }
  }

  /** The whole algorithm: it counts days of the calendar. */
  lemma FliegelCounts(jd: int, k: nat)
    requires jd + 68569 >= 0
    ensures Fliegel(jd + k) == After(Fliegel(jd), k)
  {
    forall x | jd <= x ensures Fliegel(x + 1) == Next(Fliegel(x)) {
      FliegelNext(x);
    }
    Counts(x => Fliegel(x), jd, k);
  }

  // Fixed points of the calendar.

  lemma FirstDay()
    ensures Fliegel(-68569) == Date(1, 3, -4900)
  {
    assert Quo(4 * 0, 146097) == 0 && Quo(146097 * 0 + 3, 4) == 0 && Quo(4000 * 1, 1461001) == 0;
    assert Quo(1461 * 0, 4) == 0 && Quo(80 * 31, 2447) == 1 && Quo(2447 * 1, 80) == 30 && Quo(1, 11) == 0;
  }

  lemma Epoch1900()
    ensures Fliegel(2415019) == Date(30, 12, 1899)
  {
    assert Quo(4 * 2483588, 146097) == 67 && Quo(146097 * 67 + 3, 4) == 2447125 && Quo(4000 * 36464, 1461001) == 99;
    assert Quo(1461 * 99, 4) == 36159 && Quo(80 * 335, 2447) == 10 && Quo(2447 * 10, 80) == 305 && Quo(10, 11) == 0;
  }

  lemma NewYear1900()
    ensures Fliegel(2415021) == Date(1, 1, 1900)
  {
    assert Quo(4 * 2483590, 146097) == 67 && Quo(146097 * 67 + 3, 4) == 2447125 && Quo(4000 * 36466, 1461001) == 99;
    assert Quo(1461 * 99, 4) == 36159 && Quo(80 * 337, 2447) == 11 && Quo(2447 * 11, 80) == 336 && Quo(11, 11) == 1;
  }

  lemma NewYear1904()
    ensures Fliegel(2416481) == Date(1, 1, 1904)
  {
    assert Quo(4 * 2485050, 146097) == 68 && Quo(146097 * 68 + 3, 4) == 2483649 && Quo(4000 * 1402, 1461001) == 3;
    assert Quo(1461 * 3, 4) == 1095 && Quo(80 * 337, 2447) == 11 && Quo(2447 * 11, 80) == 336 && Quo(11, 11) == 1;
  }

  lemma March1900()
    ensures Fliegel(2415080) == Date(1, 3, 1900)
  {
    assert Quo(4 * 2483649, 146097) == 68 && Quo(146097 * 68 + 3, 4) == 2483649 && Quo(4000 * 1, 1461001) == 0;
    assert Quo(1461 * 0, 4) == 0 && Quo(80 * 31, 2447) == 1 && Quo(2447 * 1, 80) == 30 && Quo(1, 11) == 0;
  }

  /** The bound on the day number is sharp: the day before the first one comes out as 30 February. */
  lemma FliegelBound()
    ensures Fliegel(-68570) == Date(30, 2, -4900) && !Valid(Fliegel(-68570))
  {
    assert Quo(4 * -1, 146097) == 0 && Quo(3, 4) == 0;
    assert Quo(4000 * 0, 1461001) == 0 && Quo(80 * 30, 2447) == 0 && Quo(0, 80) == 0 && Quo(0, 11) == 0;
  }

  // ----- serial numbers of whole days -----

  const FIRST := -68569

  /** The calendar: 1 March -4900 and the days after it. */
  function CalendarDate(jd: int): Date
    requires jd >= FIRST
  {
    After(Date(1, 3, -4900), jd - FIRST)
  }

  lemma FliegelIsCalendar(jd: int)
    requires jd >= FIRST
    ensures Fliegel(jd) == CalendarDate(jd)
  {
    FirstDay();
    FliegelCounts(FIRST, jd - FIRST);
  }

  predicate Earlier(d: Date, e: Date) {
    d.year < e.year || (d.year == e.year && (d.month < e.month || (d.month == e.month && d.day < e.day)))
  }

  lemma {:induction false} AfterIsLater(d: Date, k: nat)
    requires Valid(d) && k > 0
    ensures Valid(After(d, k)) && Earlier(d, After(d, k))
  {
    if k == 1 {
      assert After(d, 0) == d;
    } else {
      AfterIsLater(d, k - 1);
    }
  }

  lemma {:induction false} AfterAfter(d: Date, j: nat, k: nat)
    ensures After(d, j + k) == After(After(d, j), k)
    decreases k
  {
    if k > 0 {
      AfterAfter(d, j, k - 1);
    }
  }

  /** Different days have different dates. */
  lemma CalendarInjective(a: int, b: int)
    requires FIRST <= a < b
    ensures CalendarDate(a) != CalendarDate(b)
  {
    var d := Date(1, 3, -4900);
    AfterAfter(d, a - FIRST, b - a);
    FliegelIsCalendar(a);
    FliegelValid(a);
    AfterIsLater(CalendarDate(a), b - a);
  }

  const DAY := 24 * 60 * 60 * 1_000_000_000
  const MAX_DURATION := 290 * 364 * DAY
  const MAX_INT64 := 0x7fff_ffff_ffff_ffff

  const MIN_TIME := 2415020   // 31 December 1899
  const MARCH_1900 := 2415080
  const EPOCH_1900 := 2415019 // 30 December 1899
  const EPOCH_1904 := 2416481 // 1 January 1904

  /** Subtraction of times saturates at the longest duration. */
  function TimeSub(t: int, u: int): int {
    if (t - u) * DAY > MAX_INT64 then MAX_INT64 else (t - u) * DAY
  }

  function Serial(t: int): int {
    if t < MIN_TIME then 0 else t - MIN_TIME + (if t >= MARCH_1900 then 1 else 0)
  }

  /** `timeToExcelTime` at midnight of day `t`: durations are peeled off before they saturate. */
  method TimeToExcelTime(t: int) returns (result: real)
    ensures result == Serial(t) as real
  {
    if t < MIN_TIME {
      return 0.0;
    }
    var tt := t;
    var diff := TimeSub(t, MIN_TIME);
    result := 0.0;
    while diff >= MAX_DURATION
      invariant tt >= MIN_TIME && diff == TimeSub(tt, MIN_TIME)
      invariant result == (t - tt) as real
      decreases tt
    {
      result := result + (MAX_DURATION / DAY) as real;
      tt := tt - MAX_DURATION / DAY;
      diff := TimeSub(tt, MIN_TIME);
    }
    var rem := diff % DAY;
    assert diff == (tt - MIN_TIME) * DAY && rem == 0;
    WholeDays(tt - MIN_TIME);
    result := result + (diff - rem) as real / DAY as real + rem as real / DAY as real;
    if t >= MARCH_1900 {
      result := result + 1.0;
    }
  }

  lemma WholeDays(n: int)
    ensures (n * DAY) as real / DAY as real == n as real
  {
  }

  function ShiftJulianToNoon(days: real, fraction: real): (real, real) {
    if -0.5 < fraction < 0.5 then (days, fraction + 0.5)
    else if fraction >= 0.5 then (days + 1.0, fraction - 0.5)
    else (days - 1.0, fraction + 1.5)
  }

  /** `julianDateToGregorianTime` of 2400000.5 plus a whole number of days. */
  function JulianToDate(days: int): Date {
    var (d, f) := ShiftJulianToNoon(2400000.0 + days as real, 0.5);
    Fliegel(d.Floor)
  }

  lemma JulianToDateDay(days: int, jd: int)
    requires jd == 2400001 + days
    ensures JulianToDate(days) == Fliegel(jd)
  {
    assert (2400000.0 + days as real + 1.0).Floor == jd;
  }

  lemma JulianIsCalendar(days: int, jd: int)
    requires jd == 2400001 + days && jd >= FIRST
    ensures JulianToDate(days) == CalendarDate(jd)
  {
    JulianToDateDay(days, jd);
    FliegelIsCalendar(jd);
  }

  /** `timeFromExcelTime` up to serial number 61. */
  function EarlyDate(serial: nat, date1904: bool): Date {
    JulianToDate(serial + (if date1904 then 16480 else 15018))
  }

  function EpochDay(date1904: bool): (jd: int)
    ensures jd >= FIRST
  {
    if date1904 then EPOCH_1904 else EPOCH_1900
  }

  /** Serial numbers count from 30 December 1899, or from 1 January 1904. */
  lemma Epochs()
    ensures CalendarDate(EpochDay(false)) == Date(30, 12, 1899)
    ensures CalendarDate(EpochDay(true)) == Date(1, 1, 1904)
  {
    FliegelIsCalendar(2415019);
    FliegelIsCalendar(2416481);
    Epoch1900();
    NewYear1904();
  }

  lemma EarlyDateDay(serial: nat, date1904: bool)
    ensures EarlyDate(serial, date1904) == CalendarDate(EpochDay(date1904) + serial)
  {
    JulianIsCalendar(serial + (if date1904 then 16480 else 15018), EpochDay(date1904) + serial);
  }

  const MDD := 106750

  /** `timeFromExcelTime` of a whole serial number. */
  method TimeFromExcelTime(serial: nat, date1904: bool) returns (d: Date)
    ensures d == CalendarDate(EpochDay(date1904) + serial)
  {
    var date := EpochDay(date1904);
    if serial <= 61 {
      EarlyDateDay(serial, date1904);
      return EarlyDate(serial, date1904);
    }
    var days := serial;
    while days > MDD
      invariant days >= 0 && date + days == EpochDay(date1904) + serial
    {
      assert MDD * DAY <= MAX_INT64;
      date := date + MDD;
      days := days - MDD;
    }
    assert days * DAY <= MAX_INT64;
    d := CalendarDate(date + days);
  }

  /** From 1 March 1900 on a date survives the trip through its serial number, before that only 30 December 1899 does. */
  lemma SerialRoundTrip(t: int)
    requires t >= FIRST
    ensures CalendarDate(EpochDay(false) + Serial(t)) == CalendarDate(t) <==> t >= MARCH_1900 || t == EPOCH_1900
    ensures CalendarDate(MARCH_1900) == Date(1, 3, 1900) && CalendarDate(EPOCH_1900) == Date(30, 12, 1899)
  {
    FliegelIsCalendar(MARCH_1900);
    March1900();
    FliegelIsCalendar(EPOCH_1900);
    Epoch1900();
    var u := EpochDay(false) + Serial(t);
    if t < u {
      CalendarInjective(t, u);
    } else if u < t {
      CalendarInjective(u, t);
    }
  }

  /** Before 1 March 1900 the day before comes back, and for everything up to 30 December 1899 that day itself. */
  lemma EarlySerial(t: int)
    requires t < MARCH_1900
    ensures CalendarDate(EpochDay(false) + Serial(t)) == if t > EPOCH_1900 then CalendarDate(t - 1) else Date(30, 12, 1899)
  {
    FliegelIsCalendar(EPOCH_1900);
    Epoch1900();
  }
}
