/** Day numbers and civil dates of the proleptic Gregorian calendar. */
module Calendar {
  import opened Base

  datatype Date = Date(year: int, month: int, day: int)

  const EPOCH: Date := Date(1970, 1, 1)

  /** Integer division that truncates toward zero. */
  function TruncDiv(a: int, b: int): int
    requires b > 0
  {
    if a >= 0 then a / b else -((-a) / b)
  }

  // ---------- the calendar itself ----------

  predicate IsLeap(year: int) {
    year % 4 == 0 && (year % 100 != 0 || year % 400 == 0)
  }

  function DaysInMonth(year: int, month: int): Option<int> {
    if month in [1, 3, 5, 7, 8, 10, 12] then Some(31)
    else if month in [4, 6, 9, 11] then Some(30)
    else if month == 2 then Some(if IsLeap(year) then 29 else 28)
    else None
  }

  predicate IsValid(date: Date) {
    DaysInMonth(date.year, date.month).Some? && 1 <= date.day <= DaysInMonth(date.year, date.month).value
  }

  /** The day after a date, read off the lengths of the months alone. */
  function NextDay(date: Date): Date
    requires IsValid(date)
  {
    if date.day < DaysInMonth(date.year, date.month).value then date.(day := date.day + 1)
    else if date.month < 12 then Date(date.year, date.month + 1, 1)
    else Date(date.year + 1, 1, 1)
  }

  predicate Before(a: Date, b: Date) {
    || a.year < b.year
    || (a.year == b.year && (a.month < b.month || (a.month == b.month && a.day < b.day)))
  }

  // ---------- the conversions ----------

  function CivilFromDays(days: int): Date {
    var z := days + 719468;
    var era := TruncDiv(if z >= 0 then z else z - 146096, 146097);
    CivilOfEra(era, z - era * 146097)
  }

  /** The date of day `doe` of an era of 400 years that starts on 1 March. */
  function CivilOfEra(era: int, doe: int): Date {
    var yoe := (doe - doe / 1460 + doe / 36524 - doe / 146096) / 365;
    var doy := doe - (365 * yoe + yoe / 4 - yoe / 100);
    CivilOfYear(yoe + era * 400, doy)
  }

  /** The date of day `doy` of the year that starts on 1 March of `year`. */
  function CivilOfYear(year: int, doy: int): Date {
    var mp := (5 * doy + 2) / 153;
    var day := doy - (153 * mp + 2) / 5 + 1;
    var month := mp + if mp < 10 then 3 else -9;
    Date(year + if month <= 2 then 1 else 0, month, day)
  }

  function DayOfYear(month: int, day: int): int {
    var monthPrime := month + if month > 2 then -3 else 9;
    (153 * monthPrime + 2) / 5 + day - 1
  }

  /** The signed day number; day 0 is 1 January 1970. */
  function DayNumber(date: Date): int {
    var adjusted := date.year - if date.month <= 2 then 1 else 0;
    var era := adjusted / 400;
    var yoe := adjusted - era * 400;
    var doe := yoe * 365 + yoe / 4 - yoe / 100 + DayOfYear(date.month, date.day);
    era * 146097 + doe - 719468
  }

  function DaysFromCivil(date: Date): Option<nat> {
    var days := DayNumber(date);
    if days >= 0 then Some(days) else None
  }

  // ---------- years within an era ----------

  /** Year `100 * c + 4 * q + s` of an era, and day `doy` of that year counted from 1 March. */
  predicate InEra(c: int, q: int, s: int, doy: int) {
    && 0 <= c < 4 && 0 <= q < 25 && 0 <= s < 4 && 0 <= doy <= 365
    && (doy == 365 ==> s == 3 && (q < 24 || c == 3))
  }

  lemma YearStart(c: int, q: int, s: int)
    requires 0 <= c < 4 && 0 <= q < 25 && 0 <= s < 4
    ensures var yoe := 100 * c + 4 * q + s;
      365 * yoe + yoe / 4 - yoe / 100 == 36524 * c + 1461 * q + 365 * s
  {
    var yoe := 100 * c + 4 * q + s;
    assert yoe / 4 == 25 * c + q;
    assert yoe / 100 == c;
  }

  lemma Quotients(c: int, q: int, s: int, doy: int)
    requires InEra(c, q, s, doy)
    ensures
      var doe := 36524 * c + 1461 * q + 365 * s + doy;
      var last := doe == 146096;
      && doe / 36524 == c + (if last then 1 else 0)
      && doe / 146096 == (if last then 1 else 0)
      && doe / 1460 == 25 * c + q + (if 24 * c + q + 365 * s + doy >= 1460 then 1 else 0)
  {
    var doe := 36524 * c + 1461 * q + 365 * s + doy;
    var w := 24 * c + q + 365 * s + doy;
    assert doe == 1460 * (25 * c + q) + w && 0 <= w < 2 * 1460;
    assert 0 <= doe - 36524 * c <= 36524;
  }

  /** The year of era is recovered from the day of era. */
  lemma YearOfEra(c: int, q: int, s: int, doy: int)
    requires InEra(c, q, s, doy)
    ensures var doe := 36524 * c + 1461 * q + 365 * s + doy;
      (doe - doe / 1460 + doe / 36524 - doe / 146096) / 365 == 100 * c + 4 * q + s
  {
    Quotients(c, q, s, doy);
    var doe := 36524 * c + 1461 * q + 365 * s + doy;
    var extra := if 24 * c + q + 365 * s + doy >= 1460 then 1 else 0;
    assert doe - doe / 1460 + doe / 36524 - doe / 146096 == 365 * (100 * c + 4 * q + s) + doy - extra;
    assert 0 <= doy - extra < 365;
  }

  lemma SplitDayOfEra(doe: int) returns (c: int, q: int, s: int, doy: int)
    requires 0 <= doe < 146097
    ensures InEra(c, q, s, doy) && doe == 36524 * c + 1461 * q + 365 * s + doy
  {
    c := if doe / 36524 < 4 then doe / 36524 else 3;
    var r := doe - 36524 * c;
    q := r / 1461;
    var r' := r - 1461 * q;
    s := if r' / 365 < 4 then r' / 365 else 3;
    doy := r' - 365 * s;
  }

  lemma SplitYearOfEra(yoe: int) returns (c: int, q: int, s: int)
    requires 0 <= yoe < 400
    ensures 0 <= c < 4 && 0 <= q < 25 && 0 <= s < 4 && yoe == 100 * c + 4 * q + s
  {
    c := yoe / 100;
    q := (yoe % 100) / 4;
    s := yoe % 4;
  }

  lemma YearMod4(era: int, rest: int)
    ensures (400 * era + rest) % 4 == rest % 4
  {
    assert 400 * era + rest == 4 * (100 * era + rest / 4) + rest % 4;
  }

  lemma YearMod100(era: int, rest: int)
    ensures (400 * era + rest) % 100 == rest % 100
  {
    assert 400 * era + rest == 100 * (4 * era + rest / 100) + rest % 100;
  }

  lemma YearMod400(era: int, rest: int)
    requires 1 <= rest <= 400
    ensures (400 * era + rest) % 400 == 0 <==> rest == 400
  {
  }

  lemma LeapYearOfEra(era: int, rest: int)
    requires 1 <= rest <= 400
    ensures IsLeap(400 * era + rest) <==> rest % 4 == 0 && (rest % 100 != 0 || rest == 400)
  {
    YearMod4(era, rest);
    YearMod100(era, rest);
    YearMod400(era, rest);
  }

  /** The year after `400 * era + yoe` is a leap year exactly when its March-based year has a day 365. */
  lemma LeapDay(era: int, c: int, q: int, s: int)
    requires 0 <= c < 4 && 0 <= q < 25 && 0 <= s < 4
    ensures IsLeap(400 * era + 100 * c + 4 * q + s + 1) <==> s == 3 && (q < 24 || c == 3)
  {
    var rest := 100 * c + 4 * q + s + 1;
    LeapYearOfEra(era, rest);
    assert rest % 4 == (s + 1) % 4;
    assert rest % 100 == (4 * q + s + 1) % 100;
  }

  // ---------- months within a March-based year ----------

  function MonthPrime(month: int): int {
    month + if month > 2 then -3 else 9
  }

  function MonthStart(mp: int): int {
    (153 * mp + 2) / 5
  }

  /** Month starts differ by the month lengths; the twelfth month runs to the end of the year. */
  lemma MonthLengths(year: int, month: int)
    requires 1 <= month <= 12 && month != 2
    ensures DaysInMonth(year, month) == Some(MonthStart(MonthPrime(month) + 1) - MonthStart(MonthPrime(month)))
  {
    assert month in [1, 3, 4, 5, 6, 7, 8, 9, 10, 11, 12];
  }

  lemma MonthOfDay(mp: int, day: int)
    requires 0 <= mp <= 11 && 1 <= day && MonthStart(mp) + day - 1 <= 365
    requires mp < 11 ==> MonthStart(mp) + day - 1 < MonthStart(mp + 1)
    ensures (5 * (MonthStart(mp) + day - 1) + 2) / 153 == mp
  {
    var doy := MonthStart(mp) + day - 1;
    assert 153 * mp <= 5 * doy + 2;
    assert 5 * doy + 2 < 153 * (mp + 1);
  }

  lemma ValidDayOfYear(date: Date)
    requires IsValid(date)
    ensures 1 <= date.month <= 12 && 0 <= MonthPrime(date.month) <= 11
    ensures DayOfYear(date.month, date.day) == MonthStart(MonthPrime(date.month)) + date.day - 1
    ensures 0 <= DayOfYear(date.month, date.day) <= 365
    ensures DayOfYear(date.month, date.day) == 365 ==> date.month == 2 && IsLeap(date.year)
    ensures MonthPrime(date.month) < 11 ==> DayOfYear(date.month, date.day) < MonthStart(MonthPrime(date.month) + 1)
  {
    if date.month != 2 {
      MonthLengths(date.year, date.month);
      assert MonthStart(MonthPrime(date.month) + 1) <= 337;
    }
  }

  lemma CivilOfYearValid(year: int, doy: int)
    requires 0 <= doy <= 365 && (doy == 365 ==> IsLeap(year + 1))
    ensures
      var date := CivilOfYear(year, doy);
      && IsValid(date) && DayOfYear(date.month, date.day) == doy
      && date.year - (if date.month <= 2 then 1 else 0) == year
  {
    var mp := (5 * doy + 2) / 153;
    var date := CivilOfYear(year, doy);
    assert 0 <= mp <= 11;
    assert MonthStart(mp) <= doy;
    assert doy < MonthStart(mp + 1);
    assert date.month != 2 ==> IsValid(date) by {
      if date.month != 2 {
        MonthLengths(date.year, date.month);
      }
    }
  }

  // ---------- the conversions undo each other ----------

  lemma EraOfDay(z: int)
    ensures TruncDiv(if z >= 0 then z else z - 146096, 146097) == z / 146097
  {
    if z < 0 {
      var era, doe := z / 146097, z % 146097;
      assert 146096 - z == 146097 * (-era) + (146096 - doe);
    }
  }

  /** A day number splits into an era, a March-based year and a day of that year. */
  lemma DayNumberSplits(date: Date) returns (era: int, c: int, q: int, s: int)
    requires IsValid(date)
    ensures InEra(c, q, s, DayOfYear(date.month, date.day))
    ensures date.year - (if date.month <= 2 then 1 else 0) == 400 * era + 100 * c + 4 * q + s
    ensures DayNumber(date) + 719468 ==
      146097 * era + 36524 * c + 1461 * q + 365 * s + DayOfYear(date.month, date.day)
  {
    var adjusted := date.year - if date.month <= 2 then 1 else 0;
    era := adjusted / 400;
    c, q, s := SplitYearOfEra(adjusted - era * 400);
    YearStart(c, q, s);
    ValidDayOfYear(date);
    if DayOfYear(date.month, date.day) == 365 {
      LeapDay(era, c, q, s);
    }
  }

  lemma EraBounds(c: int, q: int, s: int, doy: int)
    requires InEra(c, q, s, doy)
    ensures 0 <= 36524 * c + 1461 * q + 365 * s + doy < 146097
  {
  }

  lemma CivilOfEraSplit(era: int, c: int, q: int, s: int, doy: int)
    requires InEra(c, q, s, doy)
    ensures CivilOfEra(era, 36524 * c + 1461 * q + 365 * s + doy) == CivilOfYear(400 * era + 100 * c + 4 * q + s, doy)
  {
    YearOfEra(c, q, s, doy);
    YearStart(c, q, s);
  }

  lemma EraSplit(z: int, era: int, doe: int)
    requires z == 146097 * era + doe && 0 <= doe < 146097
    ensures z / 146097 == era
  {
  }

  lemma CivilOfSplit(days: int, era: int, c: int, q: int, s: int, doy: int)
    requires InEra(c, q, s, doy) && days + 719468 == 146097 * era + 36524 * c + 1461 * q + 365 * s + doy
    ensures CivilFromDays(days) == CivilOfYear(400 * era + 100 * c + 4 * q + s, doy)
  {
    var doe := 36524 * c + 1461 * q + 365 * s + doy;
    EraBounds(c, q, s, doy);
    EraOfDay(days + 719468);
    EraSplit(days + 719468, era, doe);
    CivilOfEraSplit(era, c, q, s, doy);
  }

  /** Every valid date is recovered from its day number. */
  lemma CivilOfDayNumber(date: Date)
    requires IsValid(date)
    ensures CivilFromDays(DayNumber(date)) == date
  {
    var era, c, q, s := DayNumberSplits(date);
    var doy := DayOfYear(date.month, date.day);
    CivilOfSplit(DayNumber(date), era, c, q, s, doy);
    CivilOfValidDay(date);
  }

  lemma CivilOfValidDay(date: Date)
    requires IsValid(date)
    ensures CivilOfYear(date.year - (if date.month <= 2 then 1 else 0), DayOfYear(date.month, date.day)) == date
  {
    ValidDayOfYear(date);
    MonthOfDay(MonthPrime(date.month), date.day);
  }

  /** Every day number has a valid date, from which it is recovered. */
  lemma DayNumberOfCivil(days: int)
    ensures IsValid(CivilFromDays(days))
    ensures DayNumber(CivilFromDays(days)) == days
  {
    var z := days + 719468;
    var era, doe := z / 146097, z % 146097;
    var c, q, s, doy := SplitDayOfEra(doe);
    CivilOfSplit(days, era, c, q, s, doy);
    var year := 400 * era + 100 * c + 4 * q + s;
    LeapDay(era, c, q, s);
    CivilOfYearValid(year, doy);
    DayNumberFrom(CivilOfYear(year, doy), era, c, q, s, doy);
  }

  lemma DayNumberFrom(date: Date, era: int, c: int, q: int, s: int, doy: int)
    requires 0 <= c < 4 && 0 <= q < 25 && 0 <= s < 4
    requires date.year - (if date.month <= 2 then 1 else 0) == 400 * era + 100 * c + 4 * q + s
    requires DayOfYear(date.month, date.day) == doy
    ensures DayNumber(date) == 146097 * era + 36524 * c + 1461 * q + 365 * s + doy - 719468
  {
    YearStart(c, q, s);
    assert (400 * era + 100 * c + 4 * q + s) / 400 == era;
  }

  // ---------- day numbers count days ----------

  lemma YearLength(year: int)
    ensures DayNumber(Date(year + 1, 3, 1)) == DayNumber(Date(year, 3, 1)) + if IsLeap(year + 1) then 366 else 365
  {
    var era := year / 400;
    var c, q, s := SplitYearOfEra(year - 400 * era);
    LeapDay(era, c, q, s);
    DayNumberFrom(Date(year, 3, 1), era, c, q, s, 0);
    if s < 3 {
      DayNumberFrom(Date(year + 1, 3, 1), era, c, q, s + 1, 0);
    } else if q < 24 {
      DayNumberFrom(Date(year + 1, 3, 1), era, c, q + 1, 0, 0);
    } else if c < 3 {
      DayNumberFrom(Date(year + 1, 3, 1), era, c + 1, 0, 0, 0);
    } else {
      DayNumberFrom(Date(year + 1, 3, 1), era + 1, 0, 0, 0, 0);
    }
  }

  lemma DayNumberInYear(date: Date)
    ensures DayNumber(date) ==
      DayNumber(Date(date.year - (if date.month <= 2 then 1 else 0), 3, 1)) + DayOfYear(date.month, date.day)
  {
  }

  lemma SameMonth(year: int, month: int, day: int)
    ensures DayNumber(Date(year, month, day + 1)) == DayNumber(Date(year, month, day)) + 1
  {
  }

  /** The last day of a month other than February lies one day before the first of the next. */
  lemma MonthTurns(year: int, month: int)
    requires 1 <= month <= 12 && month != 2
    ensures
      var last := Date(year, month, DaysInMonth(year, month).value);
      DayNumber(if month < 12 then Date(year, month + 1, 1) else Date(year + 1, 1, 1)) == DayNumber(last) + 1
  {
    var length := DaysInMonth(year, month).value;
    var next := if month < 12 then Date(year, month + 1, 1) else Date(year + 1, 1, 1);
    MonthLengths(year, month);
    DayNumberInYear(Date(year, month, length));
    DayNumberInYear(next);
    assert DayOfYear(next.month, 1) == DayOfYear(month, length) + 1;
  }

  lemma FebruaryTurns(year: int)
    ensures DayNumber(Date(year, 3, 1)) == DayNumber(Date(year, 2, DaysInMonth(year, 2).value)) + 1
  {
    YearLength(year - 1);
    DayNumberInYear(Date(year, 2, DaysInMonth(year, 2).value));
  }

  /** One calendar day is one day number. */
  lemma NextDayAdvances(date: Date)
    requires IsValid(date)
    ensures IsValid(NextDay(date)) && Before(date, NextDay(date))
    ensures DayNumber(NextDay(date)) == DayNumber(date) + 1
  {
    if date.day < DaysInMonth(date.year, date.month).value {
      SameMonth(date.year, date.month, date.day);
    } else if date.month == 2 {
      FebruaryTurns(date.year);
    } else {
      MonthTurns(date.year, date.month);
    }
  }

  function Advance(date: Date, days: nat): (r: Date)
    requires IsValid(date)
    ensures IsValid(r)
  {
    if days == 0 then date
    else
      NextDayAdvances(Advance(date, days - 1));
      NextDay(Advance(date, days - 1))
  }

  lemma EpochIsDayZero()
    ensures IsValid(EPOCH) && DayNumber(EPOCH) == 0
  {
  }

  lemma CivilOfNextDay(date: Date, days: int)
    requires IsValid(date) && DayNumber(date) == days
    ensures CivilFromDays(days + 1) == NextDay(date)
  {
    NextDayAdvances(date);
    CivilOfDayNumber(NextDay(date));
  }

  /** `CivilFromDays` names the date reached by counting that many days from 1 January 1970. */
  lemma {:induction false} CivilCountsDays(days: nat)
    ensures IsValid(EPOCH) && CivilFromDays(days) == Advance(EPOCH, days)
  {
    EpochIsDayZero();
    if days == 0 {
      CivilOfDayNumber(EPOCH);
    } else {
      CivilCountsDays(days - 1);
      DayNumberOfCivil(days - 1);
      CivilOfNextDay(CivilFromDays(days - 1), days - 1);
    }
  }

  lemma {:induction false} LaterDays(date: Date, days: nat)
    requires IsValid(date) && days > 0
    ensures Before(date, Advance(date, days)) && DayNumber(Advance(date, days)) == DayNumber(date) + days
  {
    NextDayAdvances(Advance(date, days - 1));
    if days > 1 {
      LaterDays(date, days - 1);
    }
  }

  lemma SameDayNumber(a: Date, b: Date)
    requires IsValid(a) && IsValid(b) && DayNumber(a) == DayNumber(b)
    ensures a == b
  {
    CivilOfDayNumber(a);
    CivilOfDayNumber(b);
  }

  lemma Reaches(a: Date, b: Date)
    requires IsValid(a) && IsValid(b) && DayNumber(a) < DayNumber(b)
    ensures Before(a, b)
  {
    var days := DayNumber(b) - DayNumber(a);
    LaterDays(a, days);
    SameDayNumber(Advance(a, days), b);
  }

  /** Day numbers order valid dates as the calendar does. */
  lemma DayNumbersKeepOrder(a: Date, b: Date)
    requires IsValid(a) && IsValid(b)
    ensures DayNumber(a) < DayNumber(b) <==> Before(a, b)
    ensures DayNumber(a) == DayNumber(b) <==> a == b
  {
    if DayNumber(a) < DayNumber(b) {
      Reaches(a, b);
    } else if DayNumber(b) < DayNumber(a) {
      Reaches(b, a);
    } else {
      SameDayNumber(a, b);
    }
  }

  /** A valid date converts exactly when it does not lie before the epoch, and converting back restores it. */
  lemma ConversionsAreInverse(date: Date, days: nat)
    requires IsValid(date)
    ensures DaysFromCivil(date).None? <==> Before(date, EPOCH)
    ensures DaysFromCivil(date).Some? ==> CivilFromDays(DaysFromCivil(date).value) == date
    ensures DaysFromCivil(CivilFromDays(days)) == Some(days)
  {
    assert DayNumber(EPOCH) == 0;
    DayNumbersKeepOrder(date, EPOCH);
    CivilOfDayNumber(date);
    DayNumberOfCivil(days);
  }
}
