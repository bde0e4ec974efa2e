/** Timestamps as text and the object keys built from them. */
module Timestamp {
  import opened Wrappers
  import opened Bytes
  import opened Cohort
  import opened Calendar

  const SECONDS_PER_DAY: nat := 86400
  /** 10000-01-01T00:00Z: the first instant whose year takes five digits. */
  const YEAR_10000: nat := 253402300800

  datatype WindowError = ZeroDuration

  function AlignedWindowStart(seconds: nat, width: nat): Result<nat, WindowError> {
    if width == 0 then Err(ZeroDuration) else Ok(seconds - seconds % width)
  }

  lemma AlignmentIsFloor(seconds: nat, width: nat)
    requires width > 0
    ensures var start := AlignedWindowStart(seconds, width).value;
            start % width == 0 && start <= seconds < start + width
  {
    RemainderOfMultiple(width, seconds / width, 0);
    assert seconds - seconds % width == width * (seconds / width);
  }

  /** Euclidean division is unique. */
  lemma RemainderOfMultiple(width: nat, q: int, r: nat)
    requires r < width
    ensures (width * q + r) % width == r && (width * q + r) / width == q
  {
    var n := width * q + r;
    var q', r' := n / width, n % width;
    assert n == width * q' + r';
    DistanceOfMultiples(width, q' - q);
    assert width * (q' - q) == r - r';
  }

  lemma DistanceOfMultiples(width: nat, k: int)
    requires width > 0
    ensures k > 0 ==> width * k >= width
    ensures k < 0 ==> width * k + width <= 0
  {
  }

  /** Decimal digits of `n`, padded with zeros to at least `width` of them. */
  function Pad(n: nat, width: nat): (s: seq<Byte>)
    ensures |s| >= 1 && |s| >= width
    decreases n, width
  {
    if n < 10 && width <= 1 then [48 + n]
    else Pad(n / 10, if width > 0 then width - 1 else 0) + [48 + n % 10]
  }

  const LETTER_T: seq<Byte> := [84]
  const LETTER_Z: seq<Byte> := [90]

  function DayOf(t: nat): nat { t / SECONDS_PER_DAY }
  function HourOf(t: nat): nat { t % SECONDS_PER_DAY / 3600 }
  function MinuteOf(t: nat): nat { t % SECONDS_PER_DAY % 3600 / 60 }

  lemma YearsStartAt1970(days: nat)
    ensures CivilFromDays(days).year >= 1970
    ensures 1 <= CivilFromDays(days).month <= 12 && 1 <= CivilFromDays(days).day <= 31
  {
    hide CivilFromDays;
    CivilFromDaysCorrect(days);
    if days > 0 { DatesInOrder(0, days); }
  }

  function ClockText(hour: nat, minute: nat): (s: seq<Byte>) {
    LETTER_T + (Pad(hour, 2) + (Pad(minute, 2) + LETTER_Z))
  }

  function DateText(d: Date, clock: seq<Byte>): (s: seq<Byte>)
    requires d.year >= 0 && d.month >= 0 && d.day >= 0
  {
    Pad(d.year, 4) + (Pad(d.month, 2) + (Pad(d.day, 2) + clock))
  }

  /** `YYYYMMDDTHHMMZ`; the years of unsigned times never run out. */
  function Format(t: nat): seq<Byte> {
    YearsStartAt1970(DayOf(t));
    DateText(CivilFromDays(DayOf(t)), ClockText(HourOf(t), MinuteOf(t)))
  }

  /** `YYYY-MM-DDTHH:MM:00Z`, cut out of the compact form as the tuner does it. */
  function Iso8601(t: nat): seq<Byte> {
    FormatLength(t);
    var c := Format(t);
    c[0..4] + Text("-") + c[4..6] + Text("-") + c[6..8] + Text("T") + c[9..11] + Text(":") + c[11..13] + Text(":00Z")
  }

  // ----- digits -----

  lemma {:induction false} PadWidth(n: nat, width: nat, bound: nat)
    requires 1 <= width <= 4 && n < bound
    requires bound == if width == 1 then 10 else if width == 2 then 100 else if width == 3 then 1000 else 10000
    ensures |Pad(n, width)| == width
  {
    if width > 1 { PadWidth(n / 10, width - 1, bound / 10); }
  }

  lemma {:induction false} PadInjective(a: nat, b: nat, width: nat)
    requires Pad(a, width) == Pad(b, width)
    ensures a == b
    decreases a, width
  {
    var s, t, w := Pad(a, width), Pad(b, width), if width > 0 then width - 1 else 0;
    assert s[|s| - 1] == 48 + a % 10 && t[|t| - 1] == 48 + b % 10;
    if !(a < 10 && width <= 1) && !(b < 10 && width <= 1) {
      assert s[..|s| - 1] == Pad(a / 10, w) && t[..|t| - 1] == Pad(b / 10, w);
      PadInjective(a / 10, b / 10, w);
    }
  }

  /** The number that decimal digits spell. */
  function Decimal(digits: seq<Byte>): int {
    if digits == [] then 0 else 10 * Decimal(digits[..|digits| - 1]) + digits[|digits| - 1] - 48
  }

  predicate AreDigits(s: seq<Byte>) { forall i :: 0 <= i < |s| ==> 48 <= s[i] <= 57 }

  /** Padded numbers are spelled in decimal digits. */
  lemma {:induction false} PadIsDecimal(n: nat, width: nat)
    ensures AreDigits(Pad(n, width)) && Decimal(Pad(n, width)) == n
    decreases n, width
  {
    var s := Pad(n, width);
    if n < 10 && width <= 1 {
      assert s[..0] == [];
    } else {
      PadIsDecimal(n / 10, if width > 0 then width - 1 else 0);
      assert s[..|s| - 1] == Pad(n / 10, if width > 0 then width - 1 else 0);
    }
  }

  predicate LexLess(s: seq<Byte>, t: seq<Byte>) {
    t != [] && (s == [] || s[0] < t[0] || (s[0] == t[0] && LexLess(s[1..], t[1..])))
  }

  lemma {:induction false} LexConcat(p: seq<Byte>, s: seq<Byte>, q: seq<Byte>, t: seq<Byte>)
    requires |p| == |q|
    ensures LexLess(p + s, q + t) <==> LexLess(p, q) || (p == q && LexLess(s, t))
  {
    if p == [] {
      assert p + s == s && q + t == t;
    } else {
      assert (p + s)[1..] == p[1..] + s && (q + t)[1..] == q[1..] + t;
      LexConcat(p[1..], s, q[1..], t);
      assert p == [p[0]] + p[1..] && q == [q[0]] + q[1..];
    }
  }

  /** Between numbers of equally many digits, text order is numeric order. */
  lemma {:induction false} PadOrder(a: nat, b: nat, width: nat)
    requires |Pad(a, width)| == |Pad(b, width)|
    ensures LexLess(Pad(a, width), Pad(b, width)) <==> a < b
    decreases a, width
  {
    var w := if width > 0 then width - 1 else 0;
    if a < 10 && width <= 1 {
      assert |Pad(b, width)| == 1;
    } else if !(b < 10 && width <= 1) {
      LexConcat(Pad(a / 10, w), [48 + a % 10], Pad(b / 10, w), [48 + b % 10]);
      PadOrder(a / 10, b / 10, w);
      if Pad(a / 10, w) == Pad(b / 10, w) { PadInjective(a / 10, b / 10, w); }
      LexSingle(48 + a % 10, 48 + b % 10);
    }
  }

  lemma LexSingle(x: Byte, y: Byte)
    ensures LexLess([x], [y]) <==> x < y
  {
  }

  // ----- timestamps -----

  lemma ClockRanges(t: nat)
    ensures HourOf(t) < 24 && MinuteOf(t) < 60
    ensures t / 60 == DayOf(t) * 1440 + HourOf(t) * 60 + MinuteOf(t)
  {
  }

  lemma ClockLength(hour: nat, minute: nat)
    requires hour < 24 && minute < 60
    ensures |Pad(hour, 2)| == |Pad(minute, 2)| == 2 && |ClockText(hour, minute)| == 6
  {
    PadWidth(hour, 2, 100);
    PadWidth(minute, 2, 100);
  }

  lemma FormatLength(t: nat)
    ensures |Format(t)| == |Pad(CivilFromDays(DayOf(t)).year, 4)| + 10 >= 14
  {
    hide CivilFromDays, Pad;
    var d := CivilFromDays(DayOf(t));
    YearsStartAt1970(DayOf(t));
    ClockRanges(t);
    ClockLength(HourOf(t), MinuteOf(t));
    PadWidth(d.month, 2, 100);
    PadWidth(d.day, 2, 100);
  }

  lemma ClockOrder(h: nat, m: nat, h': nat, m': nat)
    requires h < 24 && m < 60 && h' < 24 && m' < 60
    ensures LexLess(ClockText(h, m), ClockText(h', m')) <==> h * 60 + m < h' * 60 + m'
    ensures ClockText(h, m) == ClockText(h', m') ==> h == h' && m == m'
  {
    hide Pad, LexLess;
    ClockLength(h, m);
    ClockLength(h', m');
    LexConcat(LETTER_T, Pad(h, 2) + (Pad(m, 2) + LETTER_Z), LETTER_T, Pad(h', 2) + (Pad(m', 2) + LETTER_Z));
    LexConcat(Pad(h, 2), Pad(m, 2) + LETTER_Z, Pad(h', 2), Pad(m', 2) + LETTER_Z);
    LexConcat(Pad(m, 2), LETTER_Z, Pad(m', 2), LETTER_Z);
    LexSingle(84, 84);
    LexSingle(90, 90);
    PadOrder(h, h', 2);
    PadOrder(m, m', 2);
    if ClockText(h, m) == ClockText(h', m') {
      assert ClockText(h, m)[1..3] == Pad(h, 2) && ClockText(h', m')[1..3] == Pad(h', 2);
      assert ClockText(h, m)[3..5] == Pad(m, 2) && ClockText(h', m')[3..5] == Pad(m', 2);
    }
    if Pad(h, 2) == Pad(h', 2) { PadInjective(h, h', 2); }
    if Pad(m, 2) == Pad(m', 2) { PadInjective(m, m', 2); }
  }

  lemma DateOrder(d: Date, c: seq<Byte>, d': Date, c': seq<Byte>)
    requires ValidDate(d) && ValidDate(d') && 0 <= d.year < 10000 && 0 <= d'.year < 10000
    ensures LexLess(DateText(d, c), DateText(d', c')) <==> Before(d, d') || (d == d' && LexLess(c, c'))
  {
    hide Pad, LexLess, ValidDate;
    assert 1 <= d.month <= 12 && 1 <= d.day <= 31 by { ValidBounds(d); }
    assert 1 <= d'.month <= 12 && 1 <= d'.day <= 31 by { ValidBounds(d'); }
    PadWidth(d.year, 4, 10000);
    PadWidth(d'.year, 4, 10000);
    PadWidth(d.month, 2, 100);
    PadWidth(d'.month, 2, 100);
    PadWidth(d.day, 2, 100);
    PadWidth(d'.day, 2, 100);
    LexConcat(Pad(d.year, 4), Pad(d.month, 2) + (Pad(d.day, 2) + c), Pad(d'.year, 4),
              Pad(d'.month, 2) + (Pad(d'.day, 2) + c'));
    LexConcat(Pad(d.month, 2), Pad(d.day, 2) + c, Pad(d'.month, 2), Pad(d'.day, 2) + c');
    LexConcat(Pad(d.day, 2), c, Pad(d'.day, 2), c');
    PadOrder(d.year, d'.year, 4);
    PadOrder(d.month, d'.month, 2);
    PadOrder(d.day, d'.day, 2);
    if Pad(d.year, 4) == Pad(d'.year, 4) { PadInjective(d.year, d'.year, 4); }
    if Pad(d.month, 2) == Pad(d'.month, 2) { PadInjective(d.month, d'.month, 2); }
    if Pad(d.day, 2) == Pad(d'.day, 2) { PadInjective(d.day, d'.day, 2); }
  }

  lemma ValidBounds(d: Date)
    requires ValidDate(d)
    ensures 1 <= d.month <= 12 && 1 <= d.day <= 31
  {
  }

  lemma DateTextInjective(d: Date, c: seq<Byte>, d': Date, c': seq<Byte>)
    requires 0 <= d.year && 0 <= d'.year && 1 <= d.month <= 12 && 1 <= d'.month <= 12
    requires 1 <= d.day <= 31 && 1 <= d'.day <= 31 && |c| == |c'|
    requires DateText(d, c) == DateText(d', c')
    ensures d == d' && c == c'
  {
    hide Pad;
    PadWidth(d.month, 2, 100);
    PadWidth(d'.month, 2, 100);
    PadWidth(d.day, 2, 100);
    PadWidth(d'.day, 2, 100);
    var s, s', n := DateText(d, c), DateText(d', c'), |Pad(d.year, 4)|;
    assert s[..n] == Pad(d.year, 4) && s'[..n] == Pad(d'.year, 4);
    assert s[n..n + 2] == Pad(d.month, 2) && s'[n..n + 2] == Pad(d'.month, 2);
    assert s[n + 2..n + 4] == Pad(d.day, 2) && s'[n + 2..n + 4] == Pad(d'.day, 2);
    assert s[n + 4..] == c && s'[n + 4..] == c';
    PadInjective(d.year, d'.year, 4);
    PadInjective(d.month, d'.month, 2);
    PadInjective(d.day, d'.day, 2);
  }

  /** Two times share a timestamp exactly when they lie in the same minute, in any year. */
  lemma FormatInjective(t: nat, t': nat)
    ensures Format(t) == Format(t') <==> t / 60 == t' / 60
  {
    hide CivilFromDays, ClockText, DateText;
    ClockRanges(t);
    ClockRanges(t');
    if Format(t) == Format(t') {
      var d, d' := CivilFromDays(DayOf(t)), CivilFromDays(DayOf(t'));
      YearsStartAt1970(DayOf(t));
      YearsStartAt1970(DayOf(t'));
      ClockLength(HourOf(t), MinuteOf(t));
      ClockLength(HourOf(t'), MinuteOf(t'));
      DateTextInjective(d, ClockText(HourOf(t), MinuteOf(t)), d', ClockText(HourOf(t'), MinuteOf(t')));
      ClockOrder(HourOf(t), MinuteOf(t), HourOf(t'), MinuteOf(t'));
      if DayOf(t) < DayOf(t') { DatesInOrder(DayOf(t), DayOf(t')); }
      if DayOf(t') < DayOf(t) { DatesInOrder(DayOf(t'), DayOf(t)); }
    }
  }

  lemma Year10000()
    ensures CivilFromDays(2932897) == Date(10000, 1, 1) && DayOf(YEAR_10000) == 2932897
    ensures CivilFromDays(2932896) == Date(9999, 12, 31)
  {
    hide CivilFromDays;
    assert YearStart(399) == 145731 && 306 < YearLength(399) && 305 < YearLength(399);
    CivilSplit(2932897, 24, 399, 306);
    assert FromDayOfYear(9999, 306) == Date(10000, 1, 1);
    CivilSplit(2932896, 24, 399, 305);
    assert FromDayOfYear(9999, 305) == Date(9999, 12, 31);
  }

  lemma YearsBelow10000(t: nat)
    requires t < YEAR_10000
    ensures CivilFromDays(DayOf(t)).year < 10000
  {
    hide CivilFromDays;
    Year10000();
    assert DayOf(t) <= 2932896;
    if DayOf(t) < 2932896 { DatesInOrder(DayOf(t), 2932896); }
  }

  lemma EarlierSortsFirst(t: nat, t': nat)
    requires t / 60 < t' / 60 && t' < YEAR_10000
    ensures LexLess(Format(t), Format(t'))
  {
    hide CivilFromDays, ClockText, DateText, LexLess, ValidDate;
    var d, d' := DayOf(t), DayOf(t');
    ClockRanges(t);
    ClockRanges(t');
    YearsBelow10000(t);
    YearsBelow10000(t');
    YearsStartAt1970(d);
    YearsStartAt1970(d');
    CivilFromDaysCorrect(d);
    CivilFromDaysCorrect(d');
    ClockOrder(HourOf(t), MinuteOf(t), HourOf(t'), MinuteOf(t'));
    DateOrder(CivilFromDays(d), ClockText(HourOf(t), MinuteOf(t)), CivilFromDays(d'),
              ClockText(HourOf(t'), MinuteOf(t')));
    if d < d' { DatesInOrder(d, d'); }
  }

  /** Sorting by timestamp text sorts by time, for every pair of whole minutes before `limit`. */
  predicate TextOrderIsTimeOrder(limit: nat) {
    forall t: nat, t': nat :: t % 60 == 0 && t' % 60 == 0 && t < t' < limit ==> LexLess(Format(t), Format(t'))
  }

  /** The dashboard sorts round files by name: that is chronological order exactly as long as no
      round is later than the year 9999. */
  lemma SortableUntilYear10000(limit: nat)
    ensures TextOrderIsTimeOrder(limit) <==> limit <= YEAR_10000
  {
    hide Format, LexLess;
    if limit <= YEAR_10000 {
      forall t: nat, t': nat | t % 60 == 0 && t' % 60 == 0 && t < t' < limit
        ensures LexLess(Format(t), Format(t'))
      {
        assert t / 60 < t' / 60;
        EarlierSortsFirst(t, t');
      }
    } else {
      Year10000SortsFirst();
      assert (YEAR_10000 - 60) % 60 == 0 && YEAR_10000 % 60 == 0;
    }
  }

  /** The last minute of the year 9999 sorts after the first of the year 10000. */
  lemma Year10000SortsFirst()
    ensures !LexLess(Format(YEAR_10000 - 60), Format(YEAR_10000))
  {
    hide CivilFromDays;
    Year10000();
    assert DayOf(YEAR_10000 - 60) == 2932896;
    YearDigits();
    assert Format(YEAR_10000 - 60)[0] == 57;
    assert Format(YEAR_10000)[0] == 49;
  }

  lemma YearDigits()
    ensures Pad(9999, 4)[0] == 57 && Pad(10000, 4)[0] == 49
  {
    assert Pad(9, 1) == [57] && Pad(1, 0) == [49];
    assert Pad(99, 2)[0] == 57 && Pad(10, 0)[0] == 49;
    assert Pad(999, 3)[0] == 57 && Pad(100, 1)[0] == 49 && Pad(1000, 2)[0] == 49;
    assert Pad(1000, 3)[0] == 49;
  }

  // ----- what the text says -----

  /** The date and the time of day that digits at these places of a text spell. */
  predicate Spells(s: seq<Byte>, date: Date, hour: nat, minute: nat, month: nat, day: nat, clock: nat, past: nat)
    requires 4 <= month && month + 2 <= day && day + 2 <= clock && clock + 2 <= past && past + 2 <= |s|
  {
    && Decimal(s[0..4]) == date.year && Decimal(s[month..month + 2]) == date.month
    && Decimal(s[day..day + 2]) == date.day && Decimal(s[clock..clock + 2]) == hour
    && Decimal(s[past..past + 2]) == minute
  }

  lemma FormatSlices(t: nat)
    requires t < YEAR_10000
    ensures var d, f := CivilFromDays(DayOf(t)), Format(t);
            && |f| == 14 && d.year >= 0 && d.month >= 0 && d.day >= 0
            && f[0..4] == Pad(d.year, 4) && f[4..6] == Pad(d.month, 2) && f[6..8] == Pad(d.day, 2)
            && f[8] == 84 && f[9..11] == Pad(HourOf(t), 2) && f[11..13] == Pad(MinuteOf(t), 2) && f[13] == 90
  {
    hide CivilFromDays, Pad;
    var d := CivilFromDays(DayOf(t));
    YearsStartAt1970(DayOf(t));
    YearsBelow10000(t);
    ClockRanges(t);
    ClockLength(HourOf(t), MinuteOf(t));
    PadWidth(d.year, 4, 10000);
    PadWidth(d.month, 2, 100);
    PadWidth(d.day, 2, 100);
  }

  /** The timestamp spells the date of its day and the hour and minute of its time, in digits. */
  lemma FormatSpells(t: nat)
    requires t < YEAR_10000
    ensures var f := Format(t);
            && |f| == 14 && f[8] == 'T' as int && f[13] == 'Z' as int
            && Spells(f, CivilFromDays(t / 86400), t % 86400 / 3600, t % 3600 / 60, 4, 6, 9, 11)
  {
    hide CivilFromDays, Pad, Decimal, Format;
    FormatSlices(t);
    var d := CivilFromDays(DayOf(t));
    PadIsDecimal(d.year, 4);
    PadIsDecimal(d.month, 2);
    PadIsDecimal(d.day, 2);
    PadIsDecimal(HourOf(t), 2);
    PadIsDecimal(MinuteOf(t), 2);
    SameMinute(t);
  }

  lemma SameMinute(t: nat)
    ensures MinuteOf(t) == t % 3600 / 60
  {
    var d, r := t / 86400, t % 86400;
    assert t == 3600 * (24 * d + r / 3600) + r % 3600;
    RemainderOfMultiple(3600, 24 * d + r / 3600, r % 3600);
  }

  /** The round's times in the record spell the same, with the separators of ISO 8601 and no seconds. */
  lemma Iso8601Spells(t: nat)
    requires t < YEAR_10000
    ensures var s := Iso8601(t);
            && |s| == 20 && s[4] == s[7] == '-' as int && s[10] == 'T' as int && s[13] == s[16] == ':' as int
            && s[17..20] == Text("00Z")
            && Spells(s, CivilFromDays(t / 86400), t % 86400 / 3600, t % 3600 / 60, 5, 8, 11, 14)
  {
    hide CivilFromDays, Pad, Decimal, Format;
    FormatSpells(t);
    var c, s := Format(t), Iso8601(t);
    assert s[0..4] == c[0..4] && s[5..7] == c[4..6] && s[8..10] == c[6..8];
    assert s[11..13] == c[9..11] && s[14..16] == c[11..13];
  }
}
