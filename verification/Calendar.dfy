/** Civil dates as days since 1970-01-01 (proleptic Gregorian): the conversions, month
    subtraction, and the ISO text form. */
module Calendar {
  import opened Basics
  import opened Rounding
  import opened Text

  /** Integer division that drops the fraction, whatever the sign. */
  function TruncDiv(a: int, b: int): int
    requires b > 0
  {
    if a >= 0 then a / b else -((-a) / b)
  }

  function DaysFromCivil(y: int, m: int, d: int): int {
    var y' := if m <= 2 then y - 1 else y;
    var era := TruncDiv(if y' >= 0 then y' else y' - 399, 400);
    var yoe := y' - era * 400;
    var doy := (153 * (if m > 2 then m - 3 else m + 9) + 2) / 5 + (d - 1);
    var doe := yoe * 365 + yoe / 4 - yoe / 100 + doy;
    era * 146097 + doe - 719468
  }

  function MonthOffset(mp: int): int {
    (153 * mp + 2) / 5
  }

  /** The date a shifted year and a day of it name. */
  function ShiftedCivil(y': int, doy: int): (int, int, int) {
    var mp := (5 * doy + 2) / 153;
    var m := if mp < 10 then mp + 3 else mp - 9;
    (if m <= 2 then y' + 1 else y', m, doy - MonthOffset(mp) + 1)
  }

  function CivilFromDays(days: int): (int, int, int) {
    var z := days + 719468;
    var era := TruncDiv(if z >= 0 then z else z - 146096, 146097);
    var doe := z - era * 146097;
    var yoe := (doe - doe / 1460 + doe / 36524 - doe / 146096) / 365;
    var y := yoe + era * 400;
    var doy := doe - (365 * yoe + yoe / 4 - yoe / 100);
    ShiftedCivil(y, doy)
  }

  predicate LeapYear(y: int) {
    (y % 4 == 0 && y % 100 != 0) || y % 400 == 0
  }

  function LastDayOfMonth(y: int, m: int): int {
    if m == 1 || m == 3 || m == 5 || m == 7 || m == 8 || m == 10 || m == 12 then 31
    else if m == 4 || m == 6 || m == 9 || m == 11 then 30
    else if m == 2 then (if LeapYear(y) then 29 else 28)
    else 30
  }

  predicate ValidCivil(y: int, m: int, d: int) {
    1 <= m <= 12 && 1 <= d <= LastDayOfMonth(y, m)
  }

  function SubtractMonths(date: int, months: int): int {
    var (y, m, d) := CivilFromDays(date);
    var total := y * 12 + (m - 1) - months;
    var ny := total / 12;
    var nm := total % 12 + 1;
    var last := LastDayOfMonth(ny, nm);
    DaysFromCivil(ny, nm, if d < last then d else last)
  }

  // --- The shifted year: March first, so the leap day comes last. ---

  /** Dropping the fraction after shifting a negative numerator rounds down. */
  lemma {:induction false} ShiftedTruncFloors(a: int, b: int)
    requires b > 0
    ensures TruncDiv(if a >= 0 then a else a - (b - 1), b) == a / b
  {
    if a < 0 {
      var q, r := a / b, a % b;
      assert a == q * b + r;
      assert -(a - (b - 1)) == (-q) * b + (b - 1 - r);
      Quotient(-(a - (b - 1)), b, -q, b - 1 - r);
    }
  }

  lemma Quotient(n: int, b: int, q: int, r: int)
    requires b > 0 && n == q * b + r && 0 <= r < b
    ensures n / b == q && n % b == r
  {
    var q' := n / b;
    assert n == q' * b + n % b;
    if q < q' { MulGap(q, q', b); } else if q' < q { MulGap(q', q, b); }
  }

  /** Days from 0000-03-01 to the March that begins shifted year `y`. */
  function YearStart(y: int): int {
    365 * y + y / 4 - y / 100 + y / 400
  }

  lemma {:induction false} YearStartByEra(y: int)
    ensures
      var era, yoe := y / 400, y % 400;
      && y - era * 400 == yoe
      && YearStart(y) == era * 146097 + (yoe * 365 + yoe / 4 - yoe / 100)
  {
    var era, yoe := y / 400, y % 400;
    assert y == 400 * era + yoe;
    assert y / 4 == 100 * era + yoe / 4;
    assert y / 100 == 4 * era + yoe / 100;
  }

  function ShiftedYear(y: int, m: int): int {
    if m <= 2 then y - 1 else y
  }

  function ShiftedMonth(m: int): int {
    if m > 2 then m - 3 else m + 9
  }

  lemma DaysByYearStart(y: int, m: int, d: int)
    ensures DaysFromCivil(y, m, d) == YearStart(ShiftedYear(y, m)) + MonthOffset(ShiftedMonth(m)) + d - 1 - 719468
  {
    ShiftedTruncFloors(ShiftedYear(y, m), 400);
    YearStartByEra(ShiftedYear(y, m));
  }

  lemma LeapByYearStart(y: int)
    ensures YearStart(y + 1) - YearStart(y) == if LeapYear(y + 1) then 366 else 365
  {
    StepDiv(y, 4);
    StepDiv(y, 100);
    StepDiv(y, 400);
    assert (y + 1) % 400 == 0 ==> (y + 1) % 100 == 0;
    assert (y + 1) % 100 == 0 ==> (y + 1) % 4 == 0;
  }

  lemma StepDiv(y: int, b: int)
    requires b > 1
    ensures (y + 1) / b == y / b + if (y + 1) % b == 0 then 1 else 0
  {
    var q, r := y / b, y % b;
    assert y == q * b + r;
    if r == b - 1 {
      assert y + 1 == (q + 1) * b + 0;
      Quotient(y + 1, b, q + 1, 0);
    } else {
      Quotient(y + 1, b, q, r + 1);
    }
  }

  // --- From days back to the date. ---

  /** The four-hundred-year cycle: centuries, leap cycles and years peel off in turn. */
  lemma LeapCyclesOfDay(c: int, q: int, u: int)
    requires 0 <= u < 2920
    ensures (1460 * (25 * c + q) + u) / 1460 == 25 * c + q + u / 1460
    ensures u / 1460 == if u < 1460 then 0 else 1
  {
  }

  lemma CenturiesOfDay(c: int, t: int)
    requires 0 <= c <= 3 && 0 <= t <= 36524 && (t == 36524 ==> c == 3)
    ensures (36524 * c + t) / 36524 - (36524 * c + t) / 146096 == c
  {
  }

  lemma YearParts(c: int, q: int, r: int)
    requires 0 <= c && 0 <= q <= 24 && 0 <= r <= 3
    ensures var yoe := 100 * c + 4 * q + r; yoe / 4 == 25 * c + q && yoe / 100 == c
  {
  }

  lemma {:induction false} YearOfEra(c: int, q: int, r: int, doy: int)
    requires 0 <= c <= 3 && 0 <= q <= 24 && 0 <= r <= 3 && 0 <= doy <= 365
    requires doy == 365 ==> r == 3 && (q < 24 || c == 3)
    ensures
      var yoe := 100 * c + 4 * q + r;
      var doe := yoe * 365 + yoe / 4 - yoe / 100 + doy;
      && 0 <= doe < 146097
      && (doe - doe / 1460 + doe / 36524 - doe / 146096) / 365 == yoe
  {
    var yoe := 100 * c + 4 * q + r;
    var t := 1461 * q + 365 * r + doy;
    var u := 24 * c + q + 365 * r + doy;
    var doe := 36524 * c + t;
    YearParts(c, q, r);
    CenturiesOfDay(c, t);
    LeapCyclesOfDay(c, q, u);
    assert doe == 1460 * (25 * c + q) + u;
    YearFromDays(yoe, doy - u / 1460);
  }

  lemma YearFromDays(yoe: int, rest: int)
    requires 0 <= rest < 365
    ensures (365 * yoe + rest) / 365 == yoe
  {
  }

  /** Centuries, four-year cycles, years and days of a day of the cycle. */
  lemma PeelEra(doe: int) returns (c: int, q: int, r: int, doy: int)
    requires 0 <= doe < 146097
    ensures 0 <= c <= 3 && 0 <= q <= 24 && 0 <= r <= 3 && 0 <= doy <= 365
    ensures doy == 365 ==> r == 3 && (q < 24 || c == 3)
    ensures doe == 36524 * c + 1461 * q + 365 * r + doy
  {
    c := if doe / 36524 == 4 then 3 else doe / 36524;
    var t := doe - 36524 * c;
    assert 0 <= t <= 36524 && (t == 36524 ==> c == 3);
    q := t / 1461;
    var t' := t - 1461 * q;
    assert 0 <= q <= 24 && 0 <= t' <= 1460 && (q == 24 && t' == 1460 ==> t == 36524);
    r := if t' / 365 == 4 then 3 else t' / 365;
    doy := t' - 365 * r;
  }

  lemma LeapInCycle(c: int, q: int, r: int)
    requires 0 <= c <= 3 && 0 <= q <= 24 && r == 3 && (q < 24 || c == 3)
    ensures LeapYear(100 * c + 4 * q + r + 1)
  {
  }

  /** Every day of the cycle is some day of some year of it. */
  lemma EraDay(doe: int) returns (yoe: int, doy: int)
    requires 0 <= doe < 146097
    ensures 0 <= yoe < 400 && 0 <= doy <= 365
    ensures doy == 365 ==> LeapYear(yoe + 1)
    ensures doe == yoe * 365 + yoe / 4 - yoe / 100 + doy
    ensures (doe - doe / 1460 + doe / 36524 - doe / 146096) / 365 == yoe
  {
    var c, q, r;
    c, q, r, doy := PeelEra(doe);
    yoe := 100 * c + 4 * q + r;
    assert yoe / 4 == 25 * c + q && yoe / 100 == c;
    if doy == 365 { LeapInCycle(c, q, r); }
    YearOfEra(c, q, r, doy);
  }

  lemma {:induction false} DayOfYear(doy: int)
    requires 0 <= doy <= 365
    ensures
      var mp := (5 * doy + 2) / 153;
      && 0 <= mp <= 11
      && MonthOffset(mp) <= doy
      && (mp < 11 ==> doy < MonthOffset(mp + 1))
  {
  }

  lemma {:induction false} MonthLength(y: int, m: int)
    requires 1 <= m <= 12
    ensures
      var mp := ShiftedMonth(m);
      LastDayOfMonth(y, m)
        == if mp == 11 then (if LeapYear(y) then 29 else 28) else MonthOffset(mp + 1) - MonthOffset(mp)
  {
    var mp := ShiftedMonth(m);
    assert mp == 0 || mp == 1 || mp == 2 || mp == 3 || mp == 4 || mp == 5 || mp == 6 || mp == 7 || mp == 8 || mp == 9
      || mp == 10 || mp == 11;
  }

  lemma ShiftedDate(y': int, doy: int)
    requires 0 <= doy <= 365 && (doy == 365 ==> LeapYear(y' + 1))
    ensures
      var (y, m, d) := ShiftedCivil(y', doy);
      && ValidCivil(y, m, d)
      && ShiftedYear(y, m) == y'
      && MonthOffset(ShiftedMonth(m)) + d - 1 == doy
  {
    DayOfYear(doy);
    var (y, m, d) := ShiftedCivil(y', doy);
    MonthLength(y, m);
  }

  lemma CivilOfEra(days: int, era: int, yoe: int, doy: int)
    requires var z := days + 719468;
             var doe := z - era * 146097;
             && era == TruncDiv(if z >= 0 then z else z - 146096, 146097)
             && doe == yoe * 365 + yoe / 4 - yoe / 100 + doy
             && (doe - doe / 1460 + doe / 36524 - doe / 146096) / 365 == yoe
    ensures CivilFromDays(days) == ShiftedCivil(yoe + era * 400, doy)
  {
  }

  lemma {:induction false} CivilByYear(days: int, yoe: int, doy: int)
    requires var z := days + 719468;
             var doe := z - z / 146097 * 146097;
             && doe == yoe * 365 + yoe / 4 - yoe / 100 + doy
             && (doe - doe / 1460 + doe / 36524 - doe / 146096) / 365 == yoe
    ensures CivilFromDays(days) == ShiftedCivil(yoe + (days + 719468) / 146097 * 400, doy)
  {
    ShiftedTruncFloors(days + 719468, 146097);
    CivilOfEra(days, (days + 719468) / 146097, yoe, doy);
  }

  lemma {:induction false} EraOfDay(z: int) returns (era: int, yoe: int, doy: int)
    ensures era == z / 146097
    ensures 0 <= yoe < 400 && 0 <= doy <= 365 && (doy == 365 ==> LeapYear(yoe + era * 400 + 1))
    ensures z - era * 146097 == yoe * 365 + yoe / 4 - yoe / 100 + doy
    ensures var doe := z - era * 146097; (doe - doe / 1460 + doe / 36524 - doe / 146096) / 365 == yoe
    ensures z == YearStart(yoe + era * 400) + doy
  {
    era := z / 146097;
    yoe, doy := EraDay(z - era * 146097);
    LeapInEra(era, yoe + 1);
    Quotient(yoe + era * 400, 400, era, yoe);
    YearStartByEra(yoe + era * 400);
  }

  lemma {:induction false} ShiftedDays(y': int, doy: int)
    requires 0 <= doy <= 365 && (doy == 365 ==> LeapYear(y' + 1))
    ensures
      var (y, m, d) := ShiftedCivil(y', doy);
      ValidCivil(y, m, d) && DaysFromCivil(y, m, d) == YearStart(y') + doy - 719468
  {
    ShiftedDate(y', doy);
    var (y, m, d) := ShiftedCivil(y', doy);
    DaysByYearStart(y, m, d);
  }

  lemma NameDay(days: int) returns (y': int, doy: int)
    ensures 0 <= doy <= 365 && (doy == 365 ==> LeapYear(y' + 1))
    ensures CivilFromDays(days) == ShiftedCivil(y', doy)
    ensures days + 719468 == YearStart(y') + doy
  {
    var era, yoe;
    era, yoe, doy := EraOfDay(days + 719468);
    y' := yoe + era * 400;
    assert CivilFromDays(days) == ShiftedCivil(y', doy) by { CivilByYear(days, yoe, doy); }
  }

  /** Every day number names a valid date, and that date's day number is it. */
  lemma {:induction false} CivilOfDays(days: int)
    ensures
      var (y, m, d) := CivilFromDays(days);
      ValidCivil(y, m, d) && DaysFromCivil(y, m, d) == days
  {
    var y', doy := NameDay(days);
    ShiftedDays(y', doy);
  }

  lemma LeapInEra(era: int, y: int)
    ensures LeapYear(y + era * 400) <==> LeapYear(y)
  {
    ModInEra(era, y, 4, 100);
    ModInEra(era, y, 100, 4);
    ModInEra(era, y, 400, 1);
  }

  lemma ModInEra(era: int, y: int, b: int, c: int)
    requires b > 0 && b * c == 400
    ensures (y + era * 400) % b == y % b
  {
    assert era * 400 == (era * c) * b;
    assert y + era * 400 == (y / b + era * c) * b + y % b;
    Quotient(y + era * 400, b, y / b + era * c, y % b);
  }

  // --- Order, by months. ---

  function MonthStart(k: int): int {
    DaysFromCivil(k / 12, k % 12 + 1, 1)
  }

  function MonthIndex(y: int, m: int): int {
    y * 12 + (m - 1)
  }

  lemma MonthOfIndex(y: int, m: int)
    requires 1 <= m <= 12
    ensures MonthIndex(y, m) / 12 == y && MonthIndex(y, m) % 12 + 1 == m
  {
    Quotient(MonthIndex(y, m), 12, y, m - 1);
  }

  /** Days from 0000-03-01 to the first of a month. */
  function MonthBegins(y: int, m: int): int {
    YearStart(ShiftedYear(y, m)) + MonthOffset(ShiftedMonth(m))
  }

  lemma DayInMonth(y: int, m: int, d: int)
    requires 1 <= m <= 12
    ensures DaysFromCivil(y, m, d) == MonthStart(MonthIndex(y, m)) + d - 1
    ensures MonthStart(MonthIndex(y, m)) == MonthBegins(y, m) - 719468
  {
    MonthOfIndex(y, m);
    DaysByYearStart(y, m, d);
    DaysByYearStart(y, m, 1);
  }

  lemma MonthWithinYear(y: int, m: int)
    requires 1 <= m < 12 && m != 2
    ensures MonthBegins(y, m + 1) == MonthBegins(y, m) + LastDayOfMonth(y, m)
  {
    MonthLength(y, m);
  }

  lemma DecemberEnds(y: int)
    ensures MonthBegins(y + 1, 1) == MonthBegins(y, 12) + LastDayOfMonth(y, 12)
  {
    MonthLength(y, 12);
  }

  lemma FebruaryEnds(y: int)
    ensures MonthBegins(y, 3) == MonthBegins(y, 2) + LastDayOfMonth(y, 2)
  {
    LeapByYearStart(y - 1);
  }

  /** Year and month after a month. */
  function Following(y: int, m: int): (int, int) {
    if m == 12 then (y + 1, 1) else (y, m + 1)
  }

  lemma FollowingBegins(y: int, m: int)
    requires 1 <= m <= 12
    ensures MonthBegins(Following(y, m).0, Following(y, m).1) == MonthBegins(y, m) + LastDayOfMonth(y, m)
  {
    if m == 12 { DecemberEnds(y); } else if m == 2 { FebruaryEnds(y); } else { MonthWithinYear(y, m); }
  }

  lemma FollowingIndex(k: int)
    ensures ((k + 1) / 12, (k + 1) % 12 + 1) == Following(k / 12, k % 12 + 1)
  {
    var q, r := k / 12, k % 12;
    assert k == q * 12 + r;
    if r == 11 { Quotient(k + 1, 12, q + 1, 0); } else { Quotient(k + 1, 12, q, r + 1); }
  }

  lemma MonthStartBegins(k: int)
    ensures MonthStart(k) == MonthBegins(k / 12, k % 12 + 1) - 719468
  {
    DaysByYearStart(k / 12, k % 12 + 1, 1);
  }

  /** Month lengths agree with the day numbers: each month starts where the last one ends. */
  lemma {:induction false} MonthFollows(k: int)
    ensures MonthStart(k + 1) == MonthStart(k) + LastDayOfMonth(k / 12, k % 12 + 1)
  {
    var (y, m) := Following(k / 12, k % 12 + 1);
    assert MonthStart(k + 1) == MonthBegins(y, m) - 719468 by {
      MonthStartBegins(k + 1);
      FollowingIndex(k);
    }
    assert MonthStart(k) == MonthBegins(k / 12, k % 12 + 1) - 719468 by { MonthStartBegins(k); }
    FollowingBegins(k / 12, k % 12 + 1);
  }

  /** Periods laid end to end, each of at least one day. */
  ghost predicate EndToEnd(start: int -> int, length: int -> int) {
    forall k :: start(k + 1) == start(k) + length(k) && length(k) >= 1
  }

  lemma {:induction false} LaterStartsLater(start: int -> int, length: int -> int, j: int, k: int)
    requires EndToEnd(start, length) && j < k
    ensures start(j) + length(j) <= start(k)
    decreases k - j
  {
    assert start(k - 1 + 1) == start(k - 1) + length(k - 1);
    assert start(j + 1) == start(j) + length(j);
    if j + 1 < k { LaterStartsLater(start, length, j, k - 1); }
  }

  /** Days within such periods are ordered by period, then by place in it. */
  lemma PlacesAreOrdered(start: int -> int, length: int -> int, j: int, d: int, k: int, e: int)
    requires EndToEnd(start, length) && 1 <= d <= length(j) && 1 <= e <= length(k)
    ensures (j < k || (j == k && d < e)) <==> start(j) + d - 1 < start(k) + e - 1
  {
    if j < k { LaterStartsLater(start, length, j, k); } else if k < j { LaterStartsLater(start, length, k, j); }
  }

  function MonthStarts(): int -> int {
    k => MonthStart(k)
  }

  function MonthLengths(): int -> int {
    k => LastDayOfMonth(k / 12, k % 12 + 1)
  }

  lemma MonthsEndToEnd()
    ensures EndToEnd(MonthStarts(), MonthLengths())
  {
    forall k ensures MonthStarts()(k + 1) == MonthStarts()(k) + MonthLengths()(k) && MonthLengths()(k) >= 1 {
      assert MonthStart(k + 1) == MonthStart(k) + LastDayOfMonth(k / 12, k % 12 + 1) by { MonthFollows(k); }
      assert MonthStarts()(k) == MonthStart(k) && MonthStarts()(k + 1) == MonthStart(k + 1);
    }
  }

  predicate Earlier(a: (int, int, int), b: (int, int, int)) {
    a.0 < b.0 || (a.0 == b.0 && (a.1 < b.1 || (a.1 == b.1 && a.2 < b.2)))
  }

  lemma MonthsOrder(a: (int, int, int), b: (int, int, int))
    requires 1 <= a.1 <= 12 && 1 <= b.1 <= 12
    ensures Earlier(a, b) <==>
      MonthIndex(a.0, a.1) < MonthIndex(b.0, b.1) || (MonthIndex(a.0, a.1) == MonthIndex(b.0, b.1) && a.2 < b.2)
  {
  }

  function DayNumber(a: (int, int, int)): int {
    DaysFromCivil(a.0, a.1, a.2)
  }

  lemma {:induction false} InMonths(a: (int, int, int))
    requires ValidCivil(a.0, a.1, a.2)
    ensures DayNumber(a) == MonthStarts()(MonthIndex(a.0, a.1)) + a.2 - 1
    ensures 1 <= a.2 <= MonthLengths()(MonthIndex(a.0, a.1))
  {
    DayInMonth(a.0, a.1, a.2);
    MonthOfIndex(a.0, a.1);
  }

  /** Day numbers order dates exactly as the calendar does. */
  lemma {:induction false} DaysOrderDates(a: (int, int, int), b: (int, int, int))
    requires ValidCivil(a.0, a.1, a.2) && ValidCivil(b.0, b.1, b.2)
    ensures Earlier(a, b) <==> DayNumber(a) < DayNumber(b)
  {
    InMonths(a);
    InMonths(b);
    MonthsEndToEnd();
    PlacesAreOrdered(MonthStarts(), MonthLengths(), MonthIndex(a.0, a.1), a.2, MonthIndex(b.0, b.1), b.2);
    MonthsOrder(a, b);
  }

  lemma SameDaySameDate(a: (int, int, int), b: (int, int, int))
    requires ValidCivil(a.0, a.1, a.2) && ValidCivil(b.0, b.1, b.2) && DayNumber(a) == DayNumber(b)
    ensures a == b
  {
    DaysOrderDates(a, b);
    DaysOrderDates(b, a);
  }

  lemma {:induction false} ValidDateOf(days: int)
    ensures var a := CivilFromDays(days); ValidCivil(a.0, a.1, a.2) && DayNumber(a) == days
  {
    CivilOfDays(days);
  }

  /** Every valid date is the date of its day number. */
  lemma {:induction false} DaysOfCivil(y: int, m: int, d: int)
    requires ValidCivil(y, m, d)
    ensures CivilFromDays(DaysFromCivil(y, m, d)) == (y, m, d)
  {
    ValidDateOf(DayNumber((y, m, d)));
    SameDaySameDate(CivilFromDays(DayNumber((y, m, d))), (y, m, d));
  }

  /** And days are ordered as their dates. */
  lemma {:induction false} DatesOrderDays(a: int, b: int)
    ensures Earlier(CivilFromDays(a), CivilFromDays(b)) <==> a < b
  {
    ValidDateOf(a);
    ValidDateOf(b);
    DaysOrderDates(CivilFromDays(a), CivilFromDays(b));
  }

  // --- Month subtraction. ---

  /** The date `months` before `(y, m, d)`. */
  function Back(y: int, m: int, d: int, months: int): (int, int, int) {
    var total := MonthIndex(y, m) - months;
    var last := LastDayOfMonth(total / 12, total % 12 + 1);
    (total / 12, total % 12 + 1, if d < last then d else last)
  }

  lemma BackIsValid(y: int, m: int, d: int, months: int)
    requires d >= 1
    ensures var (ny, nm, nd) := Back(y, m, d, months);
      ValidCivil(ny, nm, nd) && MonthIndex(ny, nm) == MonthIndex(y, m) - months
  {
  }

  /** Subtracting months lands in exactly the month that many back, on the same day unless
      that month is too short, and then on its last day. */
  lemma {:induction false} SubtractLands(date: int, months: int)
    ensures
      var (y, m, d) := CivilFromDays(date);
      var (ny, nm, nd) := CivilFromDays(SubtractMonths(date, months));
      && MonthIndex(ny, nm) == MonthIndex(y, m) - months
      && nd == (if d < LastDayOfMonth(ny, nm) then d else LastDayOfMonth(ny, nm))
  {
    var (y, m, d) := CivilFromDays(date);
    CivilOfDays(date);
    BackIsValid(y, m, d, months);
    var (ny, nm, nd) := Back(y, m, d, months);
    assert SubtractMonths(date, months) == DaysFromCivil(ny, nm, nd);
    DaysOfCivil(ny, nm, nd);
  }

  /** A date moved back by months stays on the same side of another moved back as far. */
  lemma BackKeepsOrder(x: (int, int, int), y: (int, int, int), p: (int, int, int), q: (int, int, int), months: int)
    requires ValidCivil(x.0, x.1, x.2) && ValidCivil(y.0, y.1, y.2) && 1 <= p.1 <= 12 && 1 <= q.1 <= 12
    requires MonthIndex(p.0, p.1) == MonthIndex(x.0, x.1) - months
    requires MonthIndex(q.0, q.1) == MonthIndex(y.0, y.1) - months
    requires p.2 == (if x.2 < LastDayOfMonth(p.0, p.1) then x.2 else LastDayOfMonth(p.0, p.1))
    requires q.2 == (if y.2 < LastDayOfMonth(q.0, q.1) then y.2 else LastDayOfMonth(q.0, q.1))
    requires !Earlier(y, x)
    ensures !Earlier(q, p)
  {
    MonthsOrder(y, x);
    MonthsOrder(q, p);
    if MonthIndex(p.0, p.1) == MonthIndex(q.0, q.1) {
      MonthOfIndex(p.0, p.1);
      MonthOfIndex(q.0, q.1);
    }
  }

  /** A later date never subtracts to an earlier one. */
  lemma {:induction false} SubtractMonotone(a: int, b: int, months: int)
    requires a <= b
    ensures SubtractMonths(a, months) <= SubtractMonths(b, months)
  {
    var a', b' := SubtractMonths(a, months), SubtractMonths(b, months);
    ValidDateOf(a);
    ValidDateOf(b);
    ValidDateOf(a');
    ValidDateOf(b');
    DatesOrderDays(b, a);
    DatesOrderDays(b', a');
    SubtractLands(a, months);
    SubtractLands(b, months);
    BackKeepsOrder(CivilFromDays(a), CivilFromDays(b), CivilFromDays(a'), CivilFromDays(b'), months);
  }

  // --- ISO text. ---

  function IsoDate(days: int): string {
    var (y, m, d) := CivilFromDays(days);
    PadInt(y, 4) + "-" + PadInt(m, 2) + "-" + PadInt(d, 2)
  }

  function ParseIsoDate(s: string): Option<int> {
    var parts := SplitOn(Trim(s), '-');
    if |parts| != 3 then None
    else
      match (ParseI64(parts[0]), ParseI64(parts[1]), ParseI64(parts[2]))
      case (Some(y), Some(m), Some(d)) =>
        if !(1 <= m <= 12) || !(1 <= d <= 31) then None else Some(AsI32(DaysFromCivil(y, m, d)))
      case _ => None
  }

  function DateText(y: int, m: int, d: int): string {
    PadInt(y, 4) + "-" + PadInt(m, 2) + "-" + PadInt(d, 2)
  }

  lemma SplitThree(a: string, b: string, c: string)
    requires '-' !in a && '-' !in b && '-' !in c
    ensures SplitOn(a + "-" + b + "-" + c, '-') == [a, b, c]
  {
    assert a + "-" + b + "-" + c == a + ['-'] + (b + ['-'] + c);
    SplitFirst(a, b + ['-'] + c, '-');
    SplitFirst(b, c, '-');
    SplitWhole(c, '-');
  }

  lemma SplitDateText(y: nat, m: nat, d: nat)
    requires FitsI64(y) && FitsI64(m) && FitsI64(d)
    ensures SplitOn(Trim(DateText(y, m, d)), '-') == [PadInt(y, 4), PadInt(m, 2), PadInt(d, 2)]
  {
    var ys, ms, ds := PadInt(y, 4), PadInt(m, 2), PadInt(d, 2);
    ParsePadded(y, 4);
    ParsePadded(m, 2);
    ParsePadded(d, 2);
    SplitThree(ys, ms, ds);
    var s := DateText(y, m, d);
    assert s[0] == ys[0] && s[|s| - 1] == ds[|ds| - 1];
    TrimKeeps(s);
  }

  /** Date text is read as that many days into that month, whether or not the month has
      them. */
  lemma ParseDateText(y: nat, m: int, d: int)
    requires FitsI64(y) && 1 <= m <= 12 && 1 <= d <= 31
    ensures ParseIsoDate(DateText(y, m, d)) == Some(AsI32(DaysFromCivil(y, m, d)))
  {
    SplitDateText(y, m, d);
    ParsePadded(y, 4);
    ParsePadded(m, 2);
    ParsePadded(d, 2);
  }

  lemma YearStartGrows(y: int)
    requires y >= 0
    ensures YearStart(y) >= 364 * y
  {
    assert y / 100 <= y;
  }

  lemma YearBound(days: int)
    ensures CivilFromDays(days).0 > 0 ==> 364 * (CivilFromDays(days).0 - 1) <= days + 719468
  {
    var y', doy := NameDay(days);
    assert CivilFromDays(days).0 - 1 <= y';
    if y' >= 0 { YearStartGrows(y'); }
  }

  /** The text form of any date from year 0 on reads back as that date. */
  lemma {:induction false} IsoRoundTrip(days: int)
    requires FitsI32(days) && CivilFromDays(days).0 >= 0
    ensures ParseIsoDate(IsoDate(days)) == Some(days)
  {
    var (y, m, d) := CivilFromDays(days);
    CivilOfDays(days);
    YearBound(days);
    ParseDateText(y, m, d);
  }

  /** A day past the month's end is not refused but read as a day of the next month, so
      the date read names the day written exactly when the month has it. */
  lemma {:induction false} ParsedDayIsWrittenDay(y: nat, m: int, d: int)
    requires FitsI64(y) && 1 <= m <= 12 && 1 <= d <= 31 && FitsI32(DaysFromCivil(y, m, d))
    ensures ParseIsoDate(DateText(y, m, d)).Some?
    ensures CivilFromDays(ParseIsoDate(DateText(y, m, d)).value) == (y, m, d) <==> d <= LastDayOfMonth(y, m)
  {
    ParseDateText(y, m, d);
    ValidDateOf(DaysFromCivil(y, m, d));
    if d <= LastDayOfMonth(y, m) { DaysOfCivil(y, m, d); }
  }
}
