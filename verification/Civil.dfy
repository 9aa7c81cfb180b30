/**
 Days to civil dates (`civil_from_days` in `crates/rollout-cli/src/infer.rs`) against the
 calendar itself: month lengths and leap years as in section 5.7 and Appendix C of RFC 3339.
 */
module Civil {

  datatype Date = Date(year: int, month: nat, day: nat)

  // ---------- The calendar ----------

  predicate Leap(y: int) {
    y % 4 == 0 && (y % 100 != 0 || y % 400 == 0)
  }

  function MonthLength(y: int, m: nat): nat {
    if m == 2 then if Leap(y) then 29 else 28
    else if m == 4 || m == 6 || m == 9 || m == 11 then 30
    else 31
  }

  predicate Valid(d: Date) {
    1 <= d.month <= 12 && 1 <= d.day <= MonthLength(d.year, d.month)
  }

  function Next(d: Date): Date {
    if d.day < MonthLength(d.year, d.month) then d.(day := d.day + 1)
    else if d.month < 12 then Date(d.year, d.month + 1, 1)
    else Date(d.year + 1, 1, 1)
  }

  /** Days in the months before `m`. */
  function DaysBeforeMonth(y: int, m: nat): nat {
    if m <= 1 then 0 else DaysBeforeMonth(y, m - 1) + MonthLength(y, m - 1)
  }

  /** Days from 1 January of year 1 to 1 January of year `y`. */
  function DaysBeforeYear(y: int): int {
    365 * (y - 1) + (y - 1) / 4 - (y - 1) / 100 + (y - 1) / 400
  }

  /** Days since 1 January 1970. */
  function DayNumber(d: Date): int {
    DaysBeforeYear(d.year) + DaysBeforeMonth(d.year, d.month) + d.day - 1 - DaysBeforeYear(1970)
  }

  function YearLength(y: int): nat {
    if Leap(y) then 366 else 365
  }

  lemma MonthStarts(y: int, m: nat)
    requires 1 <= m <= 13
    ensures var leap := if Leap(y) then 1 else 0;
      DaysBeforeMonth(y, m) ==
        [0, 31, 59 + leap, 90 + leap, 120 + leap, 151 + leap, 181 + leap, 212 + leap, 243 + leap, 273 + leap,
         304 + leap, 334 + leap, 365 + leap][m - 1]
  {
    var leap := if Leap(y) then 1 else 0;
    assert DaysBeforeMonth(y, 1) == 0;
    assert DaysBeforeMonth(y, 2) == 31;
    assert DaysBeforeMonth(y, 3) == 59 + leap;
    assert DaysBeforeMonth(y, 4) == 90 + leap;
    assert DaysBeforeMonth(y, 5) == 120 + leap;
    assert DaysBeforeMonth(y, 6) == 151 + leap;
    assert DaysBeforeMonth(y, 7) == 181 + leap;
    assert DaysBeforeMonth(y, 8) == 212 + leap;
    assert DaysBeforeMonth(y, 9) == 243 + leap;
    assert DaysBeforeMonth(y, 10) == 273 + leap;
    assert DaysBeforeMonth(y, 11) == 304 + leap;
    assert DaysBeforeMonth(y, 12) == 334 + leap;
    assert DaysBeforeMonth(y, 13) == 365 + leap;
  }

  lemma LeapStep(y: int)
    ensures y / 4 - (y - 1) / 4 == if y % 4 == 0 then 1 else 0
    ensures y / 100 - (y - 1) / 100 == if y % 100 == 0 then 1 else 0
    ensures y / 400 - (y - 1) / 400 == if y % 400 == 0 then 1 else 0
  {
  }

  lemma NestedLeaps(y: int)
    ensures y % 400 == 0 ==> y % 100 == 0
    ensures y % 100 == 0 ==> y % 4 == 0
  {
    var (q4, q100, q400) := (y / 4, y / 100, y / 400);
    assert 4 * q4 <= y < 4 * q4 + 4 && 100 * q100 <= y < 100 * q100 + 100 && 400 * q400 <= y < 400 * q400 + 400;
    if y == 400 * q400 {
      assert q100 == 4 * q400;
    }
    if y == 100 * q100 {
      assert q4 == 25 * q100;
    }
  }

  lemma YearStep(y: int)
    ensures DaysBeforeYear(y + 1) == DaysBeforeYear(y) + YearLength(y)
  {
    LeapStep(y);
    NestedLeaps(y);
  }

  /** The day number counts: it goes up by one from each date to the next. */
  lemma NextDayNumber(d: Date)
    requires Valid(d)
    ensures Valid(Next(d)) && DayNumber(Next(d)) == DayNumber(d) + 1
  {
    if d.day == MonthLength(d.year, d.month) && d.month == 12 {
      YearStep(d.year);
      MonthStarts(d.year, 12);
    }
  }

  lemma {:induction false} YearsApart(a: int, b: int)
    requires a <= b
    ensures DaysBeforeYear(a) + 365 * (b - a) <= DaysBeforeYear(b)
    ensures a < b ==> DaysBeforeYear(a) + YearLength(a) <= DaysBeforeYear(b)
    decreases b - a
  {
    if a < b {
      YearsApart(a, b - 1);
      YearStep(b - 1);
    }
  }

  lemma {:induction false} MonthsApart(y: int, a: nat, b: nat)
    requires 1 <= a < b
    ensures DaysBeforeMonth(y, a) + MonthLength(y, a) <= DaysBeforeMonth(y, b)
    decreases b
  {
    if a < b - 1 {
      MonthsApart(y, a, b - 1);
    }
  }

  predicate Before(a: Date, b: Date) {
    a.year < b.year || (a.year == b.year && (a.month < b.month || (a.month == b.month && a.day < b.day)))
  }

  lemma Monotone(a: Date, b: Date)
    requires Valid(a) && Valid(b) && Before(a, b)
    ensures DayNumber(a) < DayNumber(b)
  {
    if a.year < b.year {
      YearsApart(a.year, b.year);
      MonthStarts(a.year, 13);
      if a.month < 13 {
        MonthsApart(a.year, a.month, 13);
      }
    } else if a.month < b.month {
      MonthsApart(a.year, a.month, b.month);
    }
  }

  lemma Injective(a: Date, b: Date)
    requires Valid(a) && Valid(b) && DayNumber(a) == DayNumber(b)
    ensures a == b
  {
    if Before(a, b) {
      Monotone(a, b);
    } else if Before(b, a) {
      Monotone(b, a);
    }
  }

  // ---------- The algorithm ----------

  const EPOCH_SHIFT: int := 719_468
  const ERA_DAYS: int := 146_097

  predicate FitsI64(x: int) {
    -0x8000_0000_0000_0000 <= x < 0x8000_0000_0000_0000
  }

  predicate FitsI32(x: int) {
    -0x8000_0000 <= x < 0x8000_0000
  }

  /** `x as i32` */
  function AsI32(x: int): int {
    var m := x % 0x1_0000_0000;
    if m >= 0x8000_0000 then m - 0x1_0000_0000 else m
  }

  /** `x as u32` */
  function AsU32(x: int): nat {
    x % 0x1_0000_0000
  }

  function YearOfEra(doe: int): int {
    (doe - doe / 1460 + doe / 36_524 - doe / 146_096) / 365
  }

  /** Days from 1 March of an era's first year to 1 March of its year `yoe`. */
  function YearStart(yoe: int): int {
    365 * yoe + yoe / 4 - yoe / 100
  }

  /** Everything but the final casts. */
  function Uncast(days: int): (int, int, int) {
    var z := days + EPOCH_SHIFT;
    var era := z / ERA_DAYS;
    var doe := z % ERA_DAYS;
    var yoe := YearOfEra(doe);
    FromMarch(yoe + era * 400, doe - YearStart(yoe))
  }

  /** Day `doy` of the year that starts on 1 March of `yearCivil`. */
  function FromMarch(yearCivil: int, doy: int): (int, int, int) {
    var mp := (5 * doy + 2) / 153;
    var day := doy - (153 * mp + 2) / 5 + 1;
    var month := if mp < 10 then mp + 3 else mp - 9;
    (if month <= 2 then yearCivil + 1 else yearCivil, month, day)
  }

  function CivilFromDays(days: int): Date
    requires FitsI64(days) && FitsI64(days + EPOCH_SHIFT)
  {
    var (year, month, day) := Uncast(days);
    Date(AsI32(year), AsU32(month), AsU32(day))
  }

  // ---------- Correctness ----------

  /** A day of the era as century, four-year cycle, year and day of the March-based year. */
  lemma Decompose(doe: int) returns (c: int, q: int, r: int, t: int)
    requires 0 <= doe < ERA_DAYS
    ensures DayOfEra(c, q, r, t)
    ensures doe == 36_524 * c + 1461 * q + 365 * r + t
  {
    c := if doe / 36_524 <= 3 then doe / 36_524 else 3;
    var d1 := doe - 36_524 * c;
    q := d1 / 1461;
    var d2 := d1 - 1461 * q;
    r := if d2 / 365 <= 3 then d2 / 365 else 3;
    t := d2 - 365 * r;
  }

  predicate DayOfEra(c: int, q: int, r: int, t: int) {
    && 0 <= c <= 3 && 0 <= q <= 24 && 0 <= r <= 3 && 0 <= t <= 365
    && (t == 365 ==> r == 3 && (q < 24 || c == 3))
  }

  lemma By1460(c: int, q: int, r: int, t: int)
    requires DayOfEra(c, q, r, t)
    ensures (36_524 * c + 1461 * q + 365 * r + t) / 1460 ==
      25 * c + q + if 24 * c + q + 365 * r + t >= 1460 then 1 else 0
  {
  }

  lemma By36524(c: int, q: int, r: int, t: int)
    requires DayOfEra(c, q, r, t)
    ensures var doe := 36_524 * c + 1461 * q + 365 * r + t;
      doe / 36_524 - doe / 146_096 == c
  {
    var rest := 1461 * q + 365 * r + t;
    assert 0 <= rest <= 36_524;
    assert rest == 36_524 ==> c == 3;
    if rest < 36_524 {
      assert (36_524 * c + rest) / 36_524 == c;
      assert (36_524 * c + rest) / 146_096 == 0;
    }
  }

  lemma By365(y: int, u: int)
    requires 0 <= u < 365
    ensures (365 * y + u) / 365 == y
  {
  }

  lemma LeapDaysOfEra(c: int, q: int, r: int)
    requires 0 <= c <= 3 && 0 <= q <= 24 && 0 <= r <= 3
    ensures var y := 100 * c + 4 * q + r; y / 4 == 25 * c + q && y / 100 == c
  {
  }

  /** The divisions by 1460, 36524 and 146096 undo exactly the leap days. */
  lemma YearOfEraIs(c: int, q: int, r: int, t: int)
    requires DayOfEra(c, q, r, t)
    ensures var doe := 36_524 * c + 1461 * q + 365 * r + t;
      YearOfEra(doe) == 100 * c + 4 * q + r && doe - YearStart(YearOfEra(doe)) == t
  {
    By1460(c, q, r, t);
    By36524(c, q, r, t);
    var e := if 24 * c + q + 365 * r + t >= 1460 then 1 else 0;
    By365(100 * c + 4 * q + r, t - e);
    LeapDaysOfEra(c, q, r);
  }

  /** The months from March, with February last. */
  lemma MonthOfDay(t: int) returns (mp: int, day: int)
    requires 0 <= t <= 365
    ensures mp == (5 * t + 2) / 153 && day == t - (153 * mp + 2) / 5 + 1
    ensures 0 <= mp <= 11 && t == [0, 31, 61, 92, 122, 153, 184, 214, 245, 275, 306, 337][mp] + day - 1
    ensures 1 <= day <= [31, 30, 31, 30, 31, 31, 30, 31, 30, 31, 31, 29][mp]
    ensures mp == 11 && day == 29 ==> t == 365
  {
    mp := (5 * t + 2) / 153;
    day := t - (153 * mp + 2) / 5 + 1;
    assert 153 * mp <= 5 * t + 2 < 153 * (mp + 1);
    if mp == 0 {
    } else if mp == 1 {
    } else if mp == 2 {
    } else if mp == 3 {
    } else if mp == 4 {
    } else if mp == 5 {
    } else if mp == 6 {
    } else if mp == 7 {
    } else if mp == 8 {
    } else if mp == 9 {
    } else if mp == 10 {
    } else {
      assert mp == 11;
    }
  }

  lemma MarchYears(y: int)
    ensures DaysBeforeYear(y + 1) == 365 * y + y / 4 - y / 100 + y / 400
    ensures DaysBeforeYear(y + 1) == DaysBeforeYear(y) + 365 + if Leap(y) then 1 else 0
  {
    YearStep(y);
  }

  /** January and February close the March-based year before. */
  lemma MarchBasedWinter(y: int, mp: int, day: int)
    requires 10 <= mp <= 11 && day >= 1
    ensures DayNumber(Date(y + 1, mp - 9, day)) ==
      DaysBeforeYear(y + 1) + [0, 31, 61, 92, 122, 153, 184, 214, 245, 275, 306, 337][mp] + day - 1 - EPOCH_SHIFT
  {
    MonthStarts(y + 1, mp - 9);
  }

  lemma MarchBasedRest(y: int, mp: int, day: int)
    requires 0 <= mp <= 9 && day >= 1
    ensures DayNumber(Date(y, mp + 3, day)) ==
      DaysBeforeYear(y + 1) + [0, 31, 61, 92, 122, 153, 184, 214, 245, 275, 306, 337][mp] + day - 1 - EPOCH_SHIFT
  {
    MonthStarts(y, mp + 3);
    MarchYears(y);
  }

  /** The day of a date counted from 1 March of its March-based year `y`. */
  lemma MarchBased(y: int, mp: int, day: int)
    requires 0 <= mp <= 11 && day >= 1
    ensures var month := if mp < 10 then mp + 3 else mp - 9;
      var year := if month <= 2 then y + 1 else y;
      DayNumber(Date(year, month, day)) ==
        365 * y + y / 4 - y / 100 + y / 400
        + [0, 31, 61, 92, 122, 153, 184, 214, 245, 275, 306, 337][mp] + day - 1 - EPOCH_SHIFT
  {
    MarchYears(y);
    if mp >= 10 {
      MarchBasedWinter(y, mp, day);
    } else {
      MarchBasedRest(y, mp, day);
    }
  }

  lemma EraYear(era: int, yoe: int)
    requires 0 <= yoe < 400
    ensures var y := yoe + era * 400;
      && 365 * y + y / 4 - y / 100 + y / 400 == era * ERA_DAYS + YearStart(yoe)
      && (Leap(y + 1) <==> (yoe + 1) % 4 == 0 && ((yoe + 1) % 100 != 0 || yoe == 399))
  {
    var y := yoe + era * 400;
    assert y / 4 == yoe / 4 + era * 100;
    assert y / 100 == yoe / 100 + era * 4;
    assert y / 400 == era;
    assert (y + 1) % 4 == (yoe + 1) % 4;
    assert (y + 1) % 100 == (yoe + 1) % 100;
    assert (y + 1) % 400 == (yoe + 1) % 400;
  }

  /** A leap day closes the March-based year exactly when the next civil year is leap. */
  lemma LeapDay(c: int, q: int, r: int, t: int)
    requires DayOfEra(c, q, r, t) && t == 365
    ensures var yoe := 100 * c + 4 * q + r;
      0 <= yoe < 400 && (yoe + 1) % 4 == 0 && ((yoe + 1) % 100 != 0 || yoe == 399)
  {
    var yoe := 100 * c + 4 * q + r;
    assert (yoe + 1) == 4 * (25 * c + q + 1);
    assert q < 24 ==> (yoe + 1) - 100 * c == 4 * (q + 1);
  }

  lemma MonthIsValid(y: int, mp: int, day: int)
    requires 0 <= mp <= 11 && 1 <= day <= [31, 30, 31, 30, 31, 31, 30, 31, 30, 31, 31, 29][mp]
    requires mp == 11 && day == 29 ==> Leap(y + 1)
    ensures var month := if mp < 10 then mp + 3 else mp - 9;
      Valid(Date(if month <= 2 then y + 1 else y, month, day))
  {
  }

  lemma YearOfEraIsRight(doe: int)
    requires 0 <= doe < ERA_DAYS
    ensures var yoe := YearOfEra(doe);
      var doy := doe - YearStart(yoe);
      && 0 <= yoe < 400 && 0 <= doy <= 365
      && (doy == 365 ==> (yoe + 1) % 4 == 0 && ((yoe + 1) % 100 != 0 || yoe == 399))
  {
    var c, q, r, t := Decompose(doe);
    YearOfEraIs(c, q, r, t);
    if t == 365 {
      LeapDay(c, q, r, t);
    }
  }

  /** A valid date with the given day number. */
  predicate Right(t: (int, int, int), days: int) {
    1 <= t.1 <= 12 && 1 <= t.2 <= 31 && Valid(Date(t.0, t.1, t.2)) && DayNumber(Date(t.0, t.1, t.2)) == days
  }

  lemma FromMarchIsRight(y: int, doy: int)
    requires 0 <= doy <= 365 && (doy == 365 ==> Leap(y + 1))
    ensures Right(FromMarch(y, doy), 365 * y + y / 4 - y / 100 + y / 400 + doy - EPOCH_SHIFT)
  {
    var mp, day := MonthOfDay(doy);
    MarchBased(y, mp, day);
    MonthIsValid(y, mp, day);
  }

  /** Without the casts, always. */
  lemma UncastIsRight(days: int)
    ensures Right(Uncast(days), days)
  {
    var z := days + EPOCH_SHIFT;
    var era, doe := z / ERA_DAYS, z % ERA_DAYS;
    var yoe := YearOfEra(doe);
    var y, doy := yoe + era * 400, doe - YearStart(yoe);
    assert Uncast(days) == FromMarch(y, doy);
    YearOfEraIsRight(doe);
    EraYear(era, yoe);
    assert 365 * y + y / 4 - y / 100 + y / 400 + doy == z;
    FromMarchIsRight(y, doy);
  }

  function UncastDate(days: int): (d: Date)
    ensures Valid(d) && DayNumber(d) == days
  {
    UncastIsRight(days);
    var t := Uncast(days);
    Date(t.0, t.1, t.2)
  }

  // ---------- The casts ----------

  /** The days whose year fits 32 bits: 1 January of year -2^31 to 31 December of 2^31 - 1. */
  predicate YearFits(days: int) {
    -784_353_015_833 <= days < 784_351_576_777
  }

  lemma YearFitsExactly(days: int)
    ensures YearFits(days) <==> FitsI32(UncastDate(days).year)
  {
    var d := UncastDate(days);
    var low, high := Date(-0x8000_0000, 1, 1), Date(0x8000_0000, 1, 1);
    assert DayNumber(low) == -784_353_015_833;
    assert DayNumber(high) == 784_351_576_777;
    if d != low {
      if Before(d, low) { Monotone(d, low); } else { Monotone(low, d); }
    }
    if d != high {
      if Before(d, high) { Monotone(d, high); } else { Monotone(high, d); }
    }
  }

  lemma CastsKeepTheRest(days: int)
    requires FitsI64(days) && FitsI64(days + EPOCH_SHIFT)
    ensures var d, u := CivilFromDays(days), UncastDate(days);
      d == Date(AsI32(u.year), u.month, u.day)
  {
    UncastIsRight(days);
    var t := Uncast(days);
    SmallU32(t.1);
    SmallU32(t.2);
  }

  lemma SmallU32(x: int)
    requires 0 <= x <= 31
    ensures AsU32(x) == x
  {
  }

  lemma AsI32Exactly(x: int)
    ensures FitsI32(AsI32(x)) && (AsI32(x) == x <==> FitsI32(x))
  {
  }

  /**
   The round trip.  The date returned has the day number it was computed from, and is then a
   valid date, exactly when its year fits the 32 bits it is cast to.
   */
  lemma InvertsExactly(days: int)
    requires FitsI64(days) && FitsI64(days + EPOCH_SHIFT)
    ensures DayNumber(CivilFromDays(days)) == days <==> YearFits(days)
    ensures YearFits(days) ==> Valid(CivilFromDays(days))
  {
    var d, u := CivilFromDays(days), UncastDate(days);
    CastsKeepTheRest(days);
    YearFitsExactly(days);
    AsI32Exactly(u.year);
    if d.year < u.year {
      OtherYear(d, u);
    } else if u.year < d.year {
      OtherYear(u, d);
    }
  }

  /** Dates of different years have different day numbers, even one that overruns its month. */
  lemma OtherYear(a: Date, b: Date)
    requires 1 <= a.month <= 12 && 1 <= a.day <= 31 && 1 <= b.month <= 12 && 1 <= b.day <= 31
    requires a.year + 1 < b.year
    ensures DayNumber(a) < DayNumber(b)
  {
    YearsApart(a.year, b.year);
    MonthStarts(a.year, a.month);
    MonthStarts(b.year, b.month);
  }

  /** Every valid date comes back, but for its year, which is cast. */
  lemma DateComesBackCast(d: Date)
    requires Valid(d) && FitsI64(DayNumber(d)) && FitsI64(DayNumber(d) + EPOCH_SHIFT)
    ensures CivilFromDays(DayNumber(d)) == d.(year := AsI32(d.year))
  {
    Injective(UncastDate(DayNumber(d)), d);
    CastsKeepTheRest(DayNumber(d));
  }

  /** Every valid date in range comes back. */
  lemma DateRoundTrip(d: Date)
    requires Valid(d) && YearFits(DayNumber(d))
    ensures CivilFromDays(DayNumber(d)) == d
  {
    DateComesBackCast(d);
    Injective(UncastDate(DayNumber(d)), d);
    YearFitsExactly(DayNumber(d));
    AsI32Exactly(d.year);
  }

  /** The epoch, and one calendar day per day: together these fix every date in range. */
  lemma DayByDay(days: int)
    requires YearFits(days) && YearFits(days + 1)
    ensures CivilFromDays(0) == Date(1970, 1, 1)
    ensures CivilFromDays(days + 1) == Next(CivilFromDays(days))
  {
    assert Valid(Date(1970, 1, 1)) && DayNumber(Date(1970, 1, 1)) == 0;
    DateRoundTrip(Date(1970, 1, 1));
    InvertsExactly(days);
    NextDayNumber(CivilFromDays(days));
    DateRoundTrip(Next(CivilFromDays(days)));
  }

  lemma FirstDayAfterTheRange() returns (high: Date)
    ensures Valid(high) && high.year == 0x8000_0000 && high.month == 1 && high.day == 1
    ensures FitsI64(DayNumber(high)) && FitsI64(DayNumber(high) + EPOCH_SHIFT) && !YearFits(DayNumber(high))
  {
    high := Date(0x8000_0000, 1, 1);
    assert DayNumber(high) == 784_351_576_777;
  }

  lemma AsI32Wraps(y: int)
    requires 0x8000_0000 <= y < 0x1_8000_0000
    ensures AsI32(y) == y - 0x1_0000_0000
  {
  }

  lemma WrappedDate(d: Date)
    requires Valid(d) && 0x8000_0000 <= d.year < 0x1_8000_0000
    requires FitsI64(DayNumber(d)) && FitsI64(DayNumber(d) + EPOCH_SHIFT)
    ensures CivilFromDays(DayNumber(d)) == d.(year := d.year - 0x1_0000_0000)
  {
    DateComesBackCast(d);
    AsI32Wraps(d.year);
  }

  /** The first date out of range comes back with its year wrapped. */
  lemma YearCanWrap() returns (d: Date)
    ensures Valid(d) && d.year == 0x8000_0000 && FitsI64(DayNumber(d)) && FitsI64(DayNumber(d) + EPOCH_SHIFT)
    ensures CivilFromDays(DayNumber(d)) == d.(year := d.year - 0x1_0000_0000)
  {
    d := FirstDayAfterTheRange();
    WrappedDate(d);
  }
}
