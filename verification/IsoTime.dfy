/** Timestamps as the database stores them: datetime.isoformat() of UTC datetimes, compared as
    text by every query on time. */
module IsoTime {
  import opened Prelude
  import opened Positional

  const DECIMAL: Alphabet := "0123456789"

  const ZONE := "+00:00"

  // ---- the proleptic Gregorian calendar of Python's datetime ----

  datatype DateTime = DateTime(year: nat, month: nat, day: nat,
                               hour: nat, minute: nat, second: nat, micro: nat)

  predicate Leap(year: nat) {
    year % 4 == 0 && (year % 100 != 0 || year % 400 == 0)
  }

  function DaysInMonth(year: nat, month: nat): nat {
    if month == 2 then (if Leap(year) then 29 else 28)
    else if month in {4, 6, 9, 11} then 30
    else 31
  }

  function YearLength(year: nat): nat {
    if Leap(year) then 366 else 365
  }

  function DaysBeforeYear(year: nat): nat
    requires year >= 1
  {
    var y := year - 1;
    y * 365 + y / 4 - y / 100 + y / 400
  }

  function DaysBeforeMonth(year: nat, month: nat): nat {
    if month <= 1 then 0 else DaysBeforeMonth(year, month - 1) + DaysInMonth(year, month - 1)
  }

  predicate ValidDate(year: nat, month: nat, day: nat) {
    1 <= year <= 9999 && 1 <= month <= 12 && 1 <= day <= DaysInMonth(year, month)
  }

  predicate Valid(d: DateTime) {
    && ValidDate(d.year, d.month, d.day)
    && d.hour < 24 && d.minute < 60 && d.second < 60 && d.micro < 1_000_000
  }

  /** Day 1 is 1 January of year 1. */
  function Ordinal(year: nat, month: nat, day: nat): nat
    requires year >= 1
  {
    DaysBeforeYear(year) + DaysBeforeMonth(year, month) + day
  }

  const EPOCH: nat := 719_163

  function TimeOfDay(hour: nat, minute: nat, second: nat, micro: nat): nat {
    ((hour * 60 + minute) * 60 + second) * 1_000_000 + micro
  }

  function Moment(d: DateTime): Instant
    requires Valid(d)
  {
    (Ordinal(d.year, d.month, d.day) - EPOCH) * DAY + TimeOfDay(d.hour, d.minute, d.second, d.micro)
  }

  // ---- isoformat ----

  /** A zero fraction is left out; the zone is always UTC. */
  function Fraction(micro: nat): string {
    (if micro == 0 then "" else "." + Digits(micro, 6, DECIMAL)) + ZONE
  }

  function Field(v: nat, width: nat, rest: string): string {
    Digits(v, width, DECIMAL) + rest
  }

  function IsoClock(d: DateTime): string {
    Field(d.hour, 2, ":" + Field(d.minute, 2, ":" + Field(d.second, 2, Fraction(d.micro))))
  }

  function Iso(d: DateTime): string {
    Field(d.year, 4, "-" + Field(d.month, 2, "-" + Field(d.day, 2, "T" + IsoClock(d))))
  }

  // ---- text order follows the fields ----

  predicate EarlierClock(a: DateTime, b: DateTime) {
    a.hour < b.hour || (a.hour == b.hour &&
    (a.minute < b.minute || (a.minute == b.minute &&
    (a.second < b.second || (a.second == b.second && a.micro < b.micro)))))
  }

  predicate EarlierDate(a: DateTime, b: DateTime) {
    a.year < b.year || (a.year == b.year &&
    (a.month < b.month || (a.month == b.month && a.day < b.day)))
  }

  predicate SameDate(a: DateTime, b: DateTime) {
    a.year == b.year && a.month == b.month && a.day == b.day
  }

  lemma Widths()
    ensures |DECIMAL| == 10
    ensures Power(10, 2) == 100 && Power(10, 4) == 10_000 && Power(10, 6) == 1_000_000
  {
  }

  lemma FieldOrder(v: nat, w: nat, width: nat, x: string, y: string)
    requires v < Power(10, width) && w < Power(10, width)
    ensures Before(Field(v, width, x), Field(w, width, y)) <==> v < w || (v == w && Before(x, y))
  {
    Widths();
    DigitsOrder(v, w, width, DECIMAL);
    DigitsInjective(v, w, width, DECIMAL);
    BeforeAppend(Digits(v, width, DECIMAL), x, Digits(w, width, DECIMAL), y);
  }

  lemma Separated(sep: char, x: string, y: string)
    ensures Before([sep] + x, [sep] + y) <==> Before(x, y)
  {
    assert ([sep] + x)[1..] == x && ([sep] + y)[1..] == y;
  }

  lemma FractionIs(u: nat)
    ensures Fraction(u) == if u == 0 then ZONE else ['.'] + Field(u, 6, ZONE)
  {
    if u == 0 {
      assert "" + ZONE == ZONE;
    } else {
      assert "." + Digits(u, 6, DECIMAL) + ZONE == ['.'] + (Digits(u, 6, DECIMAL) + ZONE);
    }
  }

  lemma ZoneFirst(x: string)
    ensures Before(ZONE, ['.'] + x) && !Before(['.'] + x, ZONE)
  {
    assert ZONE[0] == '+' && (['.'] + x)[0] == '.';
  }

  /** '+' comes before '.', so a whole second comes before its fractions. */
  lemma FractionOrder(u: nat, v: nat)
    requires u < 1_000_000 && v < 1_000_000
    ensures Before(Fraction(u), Fraction(v)) <==> u < v
  {
    Widths();
    FractionIs(u);
    FractionIs(v);
    NeverBeforeItself(ZONE);
    ZoneFirst(Field(u, 6, ZONE));
    ZoneFirst(Field(v, 6, ZONE));
    FieldOrder(u, v, 6, ZONE, ZONE);
    Separated('.', Field(u, 6, ZONE), Field(v, 6, ZONE));
  }

  lemma ClockOrder(a: DateTime, b: DateTime)
    requires Valid(a) && Valid(b)
    ensures Before(IsoClock(a), IsoClock(b)) <==> EarlierClock(a, b)
  {
    Widths();
    FractionOrder(a.micro, b.micro);
    var a2, b2 := Field(a.second, 2, Fraction(a.micro)), Field(b.second, 2, Fraction(b.micro));
    FieldOrder(a.second, b.second, 2, Fraction(a.micro), Fraction(b.micro));
    Separated(':', a2, b2);
    var a1, b1 := Field(a.minute, 2, ":" + a2), Field(b.minute, 2, ":" + b2);
    FieldOrder(a.minute, b.minute, 2, ":" + a2, ":" + b2);
    Separated(':', a1, b1);
    FieldOrder(a.hour, b.hour, 2, ":" + a1, ":" + b1);
  }

  lemma DateOrder(a: DateTime, b: DateTime)
    requires Valid(a) && Valid(b)
    ensures Before(Iso(a), Iso(b)) <==>
            EarlierDate(a, b) || (SameDate(a, b) && Before(IsoClock(a), IsoClock(b)))
  {
    Widths();
    Separated('T', IsoClock(a), IsoClock(b));
    var a2, b2 := Field(a.day, 2, "T" + IsoClock(a)), Field(b.day, 2, "T" + IsoClock(b));
    FieldOrder(a.day, b.day, 2, "T" + IsoClock(a), "T" + IsoClock(b));
    Separated('-', a2, b2);
    var a1, b1 := Field(a.month, 2, "-" + a2), Field(b.month, 2, "-" + b2);
    FieldOrder(a.month, b.month, 2, "-" + a2, "-" + b2);
    Separated('-', a1, b1);
    FieldOrder(a.year, b.year, 4, "-" + a1, "-" + b1);
  }

  // ---- the fields follow the instant ----

  lemma NextQuotient(y: nat, n: nat)
    requires n in {4, 100, 400}
    ensures (y + 1) / n == y / n + Multiple(y + 1, n)
  {
  }

  lemma FourTimes(q: nat)
    ensures (4 * q) % 4 == 0
  {
  }

  lemma HundredTimes(q: nat)
    ensures (100 * q) % 100 == 0
  {
  }

  lemma Century(year: nat)
    requires year % 100 == 0
    ensures year % 4 == 0
  {
    var q := year / 100;
    assert year == 4 * (25 * q);
    FourTimes(25 * q);
  }

  lemma FourCenturies(year: nat)
    requires year % 400 == 0
    ensures year % 100 == 0
  {
    var q := year / 400;
    assert year == 100 * (4 * q);
    HundredTimes(4 * q);
  }

  function Multiple(year: nat, n: nat): nat
    requires n > 0
  {
    if year % n == 0 then 1 else 0
  }

  lemma LeapDay(year: nat)
    ensures YearLength(year) == 365 + Multiple(year, 4) - Multiple(year, 100) + Multiple(year, 400)
  {
    if year % 400 == 0 {
      FourCenturies(year);
    }
    if year % 100 == 0 {
      Century(year);
    }
  }

  lemma NextYear(year: nat)
    requires year >= 1
    ensures DaysBeforeYear(year + 1) == DaysBeforeYear(year) + YearLength(year)
  {
    LeapDay(year);
    NextQuotient(year - 1, 4);
    NextQuotient(year - 1, 100);
    NextQuotient(year - 1, 400);
  }

  lemma {:induction false} YearsAscend(y: nat, z: nat)
    requires 1 <= y < z
    ensures DaysBeforeYear(y) + YearLength(y) <= DaysBeforeYear(z)
    decreases z
  {
    NextYear(z - 1);
    if y < z - 1 {
      YearsAscend(y, z - 1);
    }
  }

  lemma {:induction false} MonthsAscend(year: nat, m: nat, n: nat)
    requires 1 <= m < n
    ensures DaysBeforeMonth(year, m) + DaysInMonth(year, m) <= DaysBeforeMonth(year, n)
    decreases n
  {
    if m < n - 1 {
      MonthsAscend(year, m, n - 1);
    }
  }

  lemma MonthsFillYear(year: nat)
    ensures DaysBeforeMonth(year, 12) + DaysInMonth(year, 12) == YearLength(year)
  {
    var leap := if Leap(year) then 1 else 0;
    assert DaysBeforeMonth(year, 2) == 31;
    assert DaysBeforeMonth(year, 4) == 90 + leap;
    assert DaysBeforeMonth(year, 6) == 151 + leap;
    assert DaysBeforeMonth(year, 8) == 212 + leap;
    assert DaysBeforeMonth(year, 10) == 273 + leap;
    assert DaysBeforeMonth(year, 12) == 334 + leap;
  }

  lemma DayWithinYear(year: nat, month: nat, day: nat)
    requires ValidDate(year, month, day)
    ensures 1 <= DaysBeforeMonth(year, month) + day <= YearLength(year)
  {
    MonthsFillYear(year);
    if month < 12 {
      MonthsAscend(year, month, 12);
    }
  }

  lemma OrdinalAscends(a: DateTime, b: DateTime)
    requires Valid(a) && Valid(b) && EarlierDate(a, b)
    ensures Ordinal(a.year, a.month, a.day) < Ordinal(b.year, b.month, b.day)
  {
    DayWithinYear(a.year, a.month, a.day);
    DayWithinYear(b.year, b.month, b.day);
    if a.year < b.year {
      YearsAscend(a.year, b.year);
    } else if a.month < b.month {
      MonthsAscend(a.year, a.month, b.month);
    }
  }

  lemma TimeWithinDay(d: DateTime)
    requires Valid(d)
    ensures TimeOfDay(d.hour, d.minute, d.second, d.micro) < DAY
  {
  }

  lemma ClockAscends(a: DateTime, b: DateTime)
    requires Valid(a) && Valid(b) && EarlierClock(a, b)
    ensures TimeOfDay(a.hour, a.minute, a.second, a.micro) < TimeOfDay(b.hour, b.minute, b.second, b.micro)
  {
  }

  lemma DayFirst(p: int, x: nat, q: int, y: nat)
    requires p < q && x < DAY
    ensures p * DAY + x < q * DAY + y
  {
  }

  lemma MomentAscends(a: DateTime, b: DateTime)
    requires Valid(a) && Valid(b)
    requires EarlierDate(a, b) || (SameDate(a, b) && EarlierClock(a, b))
    ensures Moment(a) < Moment(b)
  {
    var x := TimeOfDay(a.hour, a.minute, a.second, a.micro);
    var y := TimeOfDay(b.hour, b.minute, b.second, b.micro);
    if EarlierDate(a, b) {
      TimeWithinDay(a);
      OrdinalAscends(a, b);
      DayFirst(Ordinal(a.year, a.month, a.day) - EPOCH, x, Ordinal(b.year, b.month, b.day) - EPOCH, y);
    } else {
      ClockAscends(a, b);
    }
  }

  /** Stored timestamps compare as text exactly as their instants do. */
  lemma {:induction false} TextOrderIsTimeOrder(a: DateTime, b: DateTime)
    requires Valid(a) && Valid(b)
    ensures Before(Iso(a), Iso(b)) <==> Moment(a) < Moment(b)
    ensures Iso(a) == Iso(b) <==> Moment(a) == Moment(b)
  {
    DateOrder(a, b);
    ClockOrder(a, b);
    if EarlierDate(a, b) || (SameDate(a, b) && EarlierClock(a, b)) {
      MomentAscends(a, b);
      NeverBeforeItself(Iso(a));
    } else if a != b {
      DateOrder(b, a);
      ClockOrder(b, a);
      MomentAscends(b, a);
      NeverBeforeItself(Iso(a));
    }
  }

  // ---- the range of datetime ----

  lemma NextDay(year: nat, month: nat, day: nat) returns (y: nat, m: nat, d: nat)
    requires ValidDate(year, month, day) && Ordinal(year, month, day) < 3_652_059
    ensures ValidDate(y, m, d) && Ordinal(y, m, d) == Ordinal(year, month, day) + 1
  {
    if day < DaysInMonth(year, month) {
      y, m, d := year, month, day + 1;
    } else if month < 12 {
      y, m, d := year, month + 1, 1;
    } else {
      y, m, d := year + 1, 1, 1;
      NextYear(year);
      MonthsFillYear(year);
      assert DaysBeforeYear(10_000) == 3_652_059;
    }
  }

  lemma {:induction false} DateOf(n: nat) returns (y: nat, m: nat, d: nat)
    requires 1 <= n <= 3_652_059
    ensures ValidDate(y, m, d) && Ordinal(y, m, d) == n
    decreases n
  {
    if n == 1 {
      y, m, d := 1, 1, 1;
    } else {
      y, m, d := DateOf(n - 1);
      y, m, d := NextDay(y, m, d);
    }
  }

  lemma ClockOf(rest: nat) returns (hour: nat, minute: nat, second: nat, micro: nat)
    requires rest < DAY
    ensures hour < 24 && minute < 60 && second < 60 && micro < 1_000_000
    ensures TimeOfDay(hour, minute, second, micro) == rest
  {
    var seconds := rest / 1_000_000;
    var minutes := seconds / 60;
    hour, minute, second, micro := minutes / 60, minutes % 60, seconds % 60, rest % 1_000_000;
  }

  lemma OrdinalInRange(year: nat, month: nat, day: nat)
    requires ValidDate(year, month, day)
    ensures 1 <= Ordinal(year, month, day) <= 3_652_059
  {
    DayWithinYear(year, month, day);
    YearsAscend(year, 10_000);
    assert DaysBeforeYear(10_000) == 3_652_059;
  }

  lemma RangeOfDays(n: int, rest: int)
    requires 0 <= rest < DAY
    ensures 1 <= n <= 3_652_059 <==> Representable((n - EPOCH) * DAY + rest)
  {
  }

  /** An instant has a datetime exactly if it is in the range beyond which arithmetic on
      datetimes raises. */
  lemma {:induction false} RepresentableExactlyWhen(t: Instant)
    ensures Representable(t) <==> exists d: DateTime :: Valid(d) && Moment(d) == t
  {
    if d: DateTime :| Valid(d) && Moment(d) == t {
      TimeWithinDay(d);
      OrdinalInRange(d.year, d.month, d.day);
      RangeOfDays(Ordinal(d.year, d.month, d.day), TimeOfDay(d.hour, d.minute, d.second, d.micro));
    }
    if Representable(t) {
      var n, rest := t / DAY + EPOCH, t % DAY;
      assert t == (n - EPOCH) * DAY + rest;
      RangeOfDays(n, rest);
      var y, m, d := DateOf(n);
      var hour, minute, second, micro := ClockOf(rest);
      var date := DateTime(y, m, d, hour, minute, second, micro);
      assert Valid(date) && Moment(date) == t;
    }
  }

  // ---- in figures ----

  lemma OneMoreDigit(u: nat, v: nat, d: nat, k: nat)
    requires d < 10 && u == 10 * v + d
    ensures Digits(u, k + 1, DECIMAL) == Digits(v, k, DECIMAL) + [DECIMAL[d]]
  {
    assert |DECIMAL| == 10;
    assert u / 10 == v && u % 10 == d;
  }

  lemma TwoDigits(u: nat, a: nat, b: nat)
    requires a < 10 && b < 10 && u == 10 * a + b
    ensures Digits(u, 2, DECIMAL) == [DECIMAL[a], DECIMAL[b]]
  {
    OneMoreDigit(u, a, b, 1);
    OneMoreDigit(a, 0, a, 0);
    assert Digits(0, 0, DECIMAL) == [];
  }

  lemma FourDigits(u: nat, w: nat, v: nat, c: nat, d: nat)
    requires c < 10 && d < 10 && w == 10 * v + c && u == 10 * w + d
    ensures Digits(u, 4, DECIMAL) == (Digits(v, 2, DECIMAL) + [DECIMAL[c]]) + [DECIMAL[d]]
  {
    OneMoreDigit(u, w, d, 3);
    OneMoreDigit(w, v, c, 2);
  }

  const LEAP_DAY: DateTime := DateTime(2024, 2, 29, 12, 5, 9, 0)

  /** 29 February 2024, 12:05:09 UTC: its distance from the epoch. */
  lemma LeapDayIs()
    ensures Valid(LEAP_DAY) && Moment(LEAP_DAY) == 1_709_208_309 * SECOND
    ensures Moment(DateTime(1970, 1, 1, 0, 0, 0, 0)) == 0
  {
    assert DaysBeforeMonth(2024, 2) == 31;
  }

  /** The texts of its time of day, and its own. */
  lemma LeapDayClock()
    ensures IsoClock(LEAP_DAY) == "12:05:09+00:00"
  {
    TwoDigits(12, 1, 2);
    TwoDigits(5, 0, 5);
    TwoDigits(9, 0, 9);
    assert Fraction(0) == "+00:00";
  }

  lemma LeapDayReads()
    ensures Iso(LEAP_DAY) == "2024-02-29T12:05:09+00:00"
  {
    LeapDayClock();
    FourDigits(2024, 202, 20, 2, 4);
    TwoDigits(20, 2, 0);
    TwoDigits(2, 0, 2);
    TwoDigits(29, 2, 9);
  }
}
