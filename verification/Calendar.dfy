/** Window arithmetic and the UTC timestamps of object keys. */
module Calendar {
  import opened Wrappers
  import opened Bytes

  // ----- an independent account of the proleptic Gregorian calendar (ISO 8601:2004, section 3.2.1) -----

  datatype Date = Date(year: int, month: int, day: int)

  predicate IsLeap(year: int) {
    year % 4 == 0 && (year % 100 != 0 || year % 400 == 0)
  }

  function DaysInMonth(year: int, month: int): nat {
    if month == 2 then (if IsLeap(year) then 29 else 28)
    else if month in {4, 6, 9, 11} then 30
    else 31
  }

  predicate ValidDate(d: Date) {
    1 <= d.month <= 12 && 1 <= d.day <= DaysInMonth(d.year, d.month)
  }

  function NextDay(d: Date): Date {
    if d.day < DaysInMonth(d.year, d.month) then d.(day := d.day + 1)
    else if d.month < 12 then Date(d.year, d.month + 1, 1)
    else Date(d.year + 1, 1, 1)
  }

  // ----- the algorithm -----

  function YearOfEra(doe: nat): nat {
    (doe - doe / 1460 + doe / 36524 - doe / 146096) / 365
  }

  /** Days before year `y` of an era; a computational year starts on the first of March. */
  function YearStart(y: nat): nat {
    365 * y + y / 4 - y / 100
  }

  /** The date of day `doy` of computational year `y`. */
  function FromDayOfYear(y: int, doy: int): Date {
    var mp := (5 * doy + 2) / 153;
    var day := doy - (153 * mp + 2) / 5 + 1;
    var month := if mp < 10 then mp + 3 else mp - 9;
    Date(if month <= 2 then y + 1 else y, month, day)
  }

  /** Days since 1970-01-01 to a date. Days are never negative here: they come from unsigned
      seconds, which also keeps the checked addition of the collector from overflowing. */
  function CivilFromDays(days: nat): Date {
    var z := days + 719468;
    var era := z / 146097;
    var doe := z - era * 146097;
    var yoe := YearOfEra(doe);
    FromDayOfYear(yoe + era * 400, doe - YearStart(yoe))
  }

  // ----- correctness -----

  function YearLength(y: int): nat {
    if IsLeap(y + 1) then 366 else 365
  }

  /** The algorithm's year, by century `c`, four-year cycle `q` and day `s` of the cycle. */
  lemma YearByCycles(c: nat, q: nat, s: nat)
    requires c < 4 && q < 25 && s <= 1460 && (q == 24 ==> s < 1460)
    ensures YearOfEra(36524 * c + 1461 * q + s) == 100 * c + 4 * q + (if s == 1460 then 3 else s / 365)
  {
    var doe := 36524 * c + 1461 * q + s;
    var e := if 24 * c + q + s >= 1460 then 1 else 0;
    assert 1461 * q + s < 36524;
    assert doe / 36524 == c;
    assert doe / 146096 == 0;
    assert doe == 1460 * (25 * c + q + e) + (24 * c + q + s - 1460 * e);
    assert doe / 1460 == 25 * c + q + e;
    assert doe - doe / 1460 + c == 365 * (100 * c + 4 * q) + (s - e);
  }

  lemma YearStartByCycles(c: nat, q: nat, t: nat)
    requires q < 25 && t < 4
    ensures YearStart(100 * c + 4 * q + t) == 36524 * c + 1461 * q + 365 * t
  {
    assert (100 * c + 4 * q + t) / 4 == 25 * c + q;
    assert (100 * c + 4 * q + t) / 100 == c;
  }

  lemma YearOfEraBounds(doe: nat)
    requires doe < 146097
    ensures YearOfEra(doe) < 400
    ensures YearStart(YearOfEra(doe)) <= doe < YearStart(YearOfEra(doe)) + YearLength(YearOfEra(doe))
  {
    if doe < 146096 {
      var c, r := doe / 36524, doe % 36524;
      var q, s := r / 1461, r % 1461;
      var t := if s == 1460 then 3 else s / 365;
      YearByCycles(c, q, s);
      YearStartByCycles(c, q, t);
      if s == 1460 { CycleEndIsLeap(c, q); }
    }
  }

  lemma CycleEndIsLeap(c: nat, q: nat)
    requires q < 24
    ensures IsLeap(100 * c + 4 * q + 3 + 1)
  {
    assert 100 * c + 4 * q + 4 == 4 * (25 * c + q + 1);
    assert (100 * c + (4 * q + 4)) % 100 == 4 * q + 4;
  }

  lemma YearStartStep(y: nat)
    requires y < 400
    ensures YearStart(y) + YearLength(y) == if y == 399 then 146097 else YearStart(y + 1)
  {
  }

  lemma YearStartLast()
    ensures YearStart(0) == 0 && YearStart(399) + YearLength(399) == 146097
  {
  }

  lemma YearStartGrows(y: nat, y': nat)
    requires y < y'
    ensures YearStart(y) < YearStart(y')
  {
  }

  lemma YearOfEraUnique(doe: nat, y: nat)
    requires doe < 146097 && y < 400 && YearStart(y) <= doe < YearStart(y) + YearLength(y)
    ensures YearOfEra(doe) == y
  {
    var y' := YearOfEra(doe);
    YearOfEraBounds(doe);
    YearStartStep(y);
    YearStartStep(y');
    if y < y' && y + 1 < y' { YearStartGrows(y + 1, y'); }
    if y' < y && y' + 1 < y { YearStartGrows(y' + 1, y); }
  }

  /** Days of the computational year before its month `mp`, as the algorithm has them. */
  function MonthStart(mp: nat): nat {
    (153 * mp + 2) / 5
  }

  lemma MonthOfDay(doy: nat)
    requires doy < 366
    ensures var mp := (5 * doy + 2) / 153; mp < 12 && MonthStart(mp) <= doy && (mp < 11 ==> doy < MonthStart(mp + 1))
  {
  }

  lemma MonthUnique(doy: nat, mp: nat)
    requires mp < 12 && doy < 366 && MonthStart(mp) <= doy && (mp < 11 ==> doy < MonthStart(mp + 1))
    ensures (5 * doy + 2) / 153 == mp
  {
  }

  /** March-based month lengths, February excepted. */
  lemma MonthLengths(y: int, mp: nat)
    requires mp < 12
    ensures mp < 11 ==> var month := if mp < 10 then mp + 3 else mp - 9;
                        MonthStart(mp + 1) - MonthStart(mp) == DaysInMonth(if month <= 2 then y + 1 else y, month)
    ensures mp == 11 ==> YearLength(y) - MonthStart(11) == DaysInMonth(y + 1, 2)
  {
    assert mp == 0 || mp == 1 || mp == 2 || mp == 3 || mp == 4 || mp == 5 || mp == 6 || mp == 7
        || mp == 8 || mp == 9 || mp == 10 || mp == 11;
  }

  lemma DayOfYearDate(y: int, doy: int)
    requires 0 <= doy < YearLength(y)
    ensures ValidDate(FromDayOfYear(y, doy))
    ensures NextDay(FromDayOfYear(y, doy))
         == if doy + 1 < YearLength(y) then FromDayOfYear(y, doy + 1) else FromDayOfYear(y + 1, 0)
  {
    hide DaysInMonth, IsLeap;
    var mp := (5 * doy + 2) / 153;
    MonthOfDay(doy);
    MonthLengths(y, mp);
    if doy + 1 < YearLength(y) {
      if mp < 11 && doy + 1 == MonthStart(mp + 1) {
        if mp < 10 { MonthLengths(y, mp + 1); }
        MonthUnique(doy + 1, mp + 1);
      } else {
        MonthUnique(doy + 1, mp);
      }
    }
  }

  lemma LeapShift(y: int, era: int)
    ensures IsLeap(y + era * 400) == IsLeap(y)
  {
    Remainder4(y, 100 * era);
    Remainder100(y, 4 * era);
    Remainder400(y, era);
  }

  lemma Remainder4(y: int, k: int)
    ensures (y + 4 * k) % 4 == y % 4
  {
  }

  lemma Remainder100(y: int, k: int)
    ensures (y + 100 * k) % 100 == y % 100
  {
  }

  lemma Remainder400(y: int, k: int)
    ensures (y + 400 * k) % 400 == y % 400
  {
  }

  lemma EraOf(z: nat, era: nat, doe: nat)
    requires z == era * 146097 + doe && doe < 146097
    ensures z / 146097 == era && z - era * 146097 == doe
  {
  }

  lemma CivilSplit(days: nat, era: nat, yoe: nat, doy: nat)
    requires yoe < 400 && doy < YearLength(yoe)
    requires days + 719468 == era * 146097 + (YearStart(yoe) + doy)
    ensures CivilFromDays(days) == FromDayOfYear(yoe + era * 400, doy)
  {
    hide YearStart, YearOfEra, FromDayOfYear;
    YearStartLast();
    YearStartStep(yoe);
    if yoe < 399 && yoe + 1 < 399 { YearStartGrows(yoe + 1, 399); }
    EraOf(days + 719468, era, YearStart(yoe) + doy);
    YearOfEraUnique(YearStart(yoe) + doy, yoe);
  }

  /** Every day number yields a date that exists, and the next day number the day after it. */
  lemma CivilFromDaysCorrect(days: nat)
    ensures CivilFromDays(0) == Date(1970, 1, 1)
    ensures ValidDate(CivilFromDays(days))
    ensures CivilFromDays(days + 1) == NextDay(CivilFromDays(days))
  {
    hide YearStart, YearOfEra, FromDayOfYear, IsLeap, NextDay, ValidDate, CivilFromDays;
    DayZero();
    var z := days + 719468;
    var era, doe := z / 146097, z % 146097;
    var yoe := YearOfEra(doe);
    YearOfEraBounds(doe);
    YearStartLast();
    var doy, y := doe - YearStart(yoe), yoe + era * 400;
    LeapShift(yoe + 1, era);
    DayOfYearDate(y, doy);
    CivilSplit(days, era, yoe, doy);
    YearStartStep(yoe);
    if doy + 1 < YearLength(yoe) {
      CivilSplit(days + 1, era, yoe, doy + 1);
    } else if yoe < 399 {
      CivilSplit(days + 1, era, yoe + 1, 0);
    } else {
      CivilSplit(days + 1, era + 1, 0, 0);
    }
  }

  lemma DayZero()
    ensures CivilFromDays(0) == Date(1970, 1, 1)
  {
    hide CivilFromDays;
    assert YearStart(369) == 134774 && 306 < YearLength(369);
    CivilSplit(0, 4, 369, 306);
    assert FromDayOfYear(1969, 306) == Date(1970, 1, 1);
  }

  predicate Before(a: Date, b: Date) {
    a.year < b.year || (a.year == b.year && (a.month < b.month || (a.month == b.month && a.day < b.day)))
  }

  lemma NextDayIsAfter(d: Date)
    requires ValidDate(d)
    ensures Before(d, NextDay(d))
  {
  }

  /** Later day numbers are later dates. */
  lemma {:induction false} DatesInOrder(a: nat, b: nat)
    requires a < b
    ensures Before(CivilFromDays(a), CivilFromDays(b))
    decreases b
  {
    hide CivilFromDays;
    CivilFromDaysCorrect(b - 1);
    NextDayIsAfter(CivilFromDays(b - 1));
    if a < b - 1 { DatesInOrder(a, b - 1); }
  }
}
