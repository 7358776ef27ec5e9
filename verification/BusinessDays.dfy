/** Easter, Brazilian holidays and the business days behind DI maturities. */
module BusinessDays {
  import opened Calendar

  // ---------- the computus ----------

  /** h: days from 21 March to the uncorrected paschal full moon. */
  function FullMoonOffset(year: int): (h: int)
    ensures 0 <= h < 30
  {
    var a, b := year % 19, year / 100;
    var d, f := b / 4, (b + 8) / 25;
    var g := (b - f + 1) / 3;
    (19 * a + b - d - g + 15) % 30
  }

  /** l: days on from the day after the full moon to a Sunday. */
  function SundayOffset(year: int, h: int): (l: int)
    ensures 0 <= l < 7
  {
    var b, c := year / 100, year % 100;
    (32 + 2 * (b % 4) + 2 * (c / 4) - h - c % 4) % 7
  }

  /** m: one week back for the latest full moons. */
  function Correction(a: int, h: int, l: int): int {
    (a + 11 * h + 22 * l) / 451
  }

  function EasterAt(year: int, h: int, l: int): Date {
    var n := h + l - 7 * Correction(year % 19, h, l) + 114;
    Date(year, n / 31, n % 31 + 1)
  }

  function Easter(year: int): Date {
    var h := FullMoonOffset(year);
    EasterAt(year, h, SundayOffset(year, h))
  }

  /** Where a spring date can lie: 22 March to 25 April of its year. */
  predicate InEasterWindow(year: int, e: Date) {
    Valid(e) && e.year == year && !Before(e, Date(year, 3, 22)) && !Before(Date(year, 4, 25), e)
  }

  lemma {:induction false} CorrectionIsOneWeek(a: int, h: int, l: int)
    requires 0 <= a < 19 && 0 <= h < 30 && 0 <= l < 7
    ensures Correction(a, h, l) == if l == 6 && (h == 29 || (h == 28 && a > 10)) then 1 else 0
  {
  }

  lemma {:induction false} EasterAtIsInWindow(year: int, h: int, l: int)
    requires 0 <= h < 30 && 0 <= l < 7
    ensures InEasterWindow(year, EasterAt(year, h, l))
    ensures Ordinal(EasterAt(year, h, l)) == Ordinal(Date(year, 3, 1)) + 21 + h + l - 7 * Correction(year % 19, h, l)
  {
    CorrectionIsOneWeek(year % 19, h, l);
  }

  lemma {:induction false} CenturySplit(year: int)
    ensures
      var b, c := year / 100, year % 100;
      && year == 100 * b + c
      && year / 4 == 25 * b + c / 4
      && year / 400 == b / 4
  {
  }

  /** The weekday of 1 March, from the parts of the year the computus uses. */
  lemma {:induction false} FirstOfMarch(year: int)
    ensures
      var b, c := year / 100, year % 100;
      Ordinal(Date(year, 3, 1)) ==
        7 * (52 * (year - 1) + 71 * (b / 4) + 8) + 124 * (b % 4) + 5 * (c / 4) + c % 4 + 3
  {
    LeapDays(year);
    CenturySplit(year);
    var b, c := year / 100, year % 100;
    assert b == 4 * (b / 4) + b % 4 && c == 4 * (c / 4) + c % 4;
  }

  lemma {:induction false} SundayArithmetic(march: int, q: int, e: int, i: int, k: int, h: int, l: int, m: int)
    requires march == 7 * q + 124 * e + 5 * i + k + 3
    requires l == (32 + 2 * e + 2 * i - h - k) % 7
    ensures (march + 21 + h + l - 7 * m) % 7 == 0
  {
    var x := (32 + 2 * e + 2 * i - h - k) / 7;
    assert march + 21 + h + l - 7 * m == 7 * (q + 18 * e + i + 8 - x - m);
  }

  lemma {:induction false} SundayHasOrdinal(d: Date, n: int)
    requires Valid(d) && Ordinal(d) == n && n % 7 == 0
    ensures Weekday(d) == 6
  {
    hide Ordinal;
    ModShift(n, 6);
  }

  lemma {:induction false} SundayAt(year: int, h: int)
    requires 0 <= h < 30
    ensures
      var e := EasterAt(year, h, SundayOffset(year, h));
      InEasterWindow(year, e) && Weekday(e) == 6
  {
    hide EasterAt, Correction, Ordinal;
    var l := SundayOffset(year, h);
    var b, c, m := year / 100, year % 100, Correction(year % 19, h, l);
    EasterAtIsInWindow(year, h, l);
    FirstOfMarch(year);
    var march := Ordinal(Date(year, 3, 1));
    SundayArithmetic(march, 52 * (year - 1) + 71 * (b / 4) + 8, b % 4, c / 4, c % 4, h, l, m);
    SundayHasOrdinal(EasterAt(year, h, l), march + 21 + h + l - 7 * m);
  }

  /** For every year Easter is a Sunday from 22 March to 25 April. */
  lemma {:induction false} EasterIsASpringSunday(year: int)
    ensures InEasterWindow(year, Easter(year)) && Weekday(Easter(year)) == 6
  {
    SundayAt(year, FullMoonOffset(year));
  }

  // ---------- the paschal full moon, independently ----------

  /** The epact of a Gregorian year, before its exceptions: from the golden number, the leap days dropped at
      centuries and the correction of the lunar cycle. */
  function RawEpact(year: int): (e: int)
    ensures 0 <= e < 30
  {
    var golden, century := year % 19 + 1, year / 100 + 1;
    var dropped, lunar := 3 * century / 4 - 12, (8 * century + 5) / 25 - 5;
    (11 * golden + 20 + lunar - dropped) % 30
  }

  /** The two usual exceptions keep full moons of one lunar cycle apart. */
  function Epact(year: int): int {
    var e := RawEpact(year);
    if e == 24 || (e == 25 && year % 19 + 1 > 11) then e + 1 else e
  }

  /** The paschal full moon is the first ecclesiastical full moon on or after 21 March. */
  function PaschalFullMoon(year: int): int {
    var day := 44 - Epact(year);
    Ordinal(Date(year, 3, 21)) - 21 + if day < 21 then day + 30 else day
  }

  /** The computus corrects the lunar cycle in another way: the quotients agree for every century. */
  lemma {:induction false} LunarCorrection(b: int)
    ensures (b - (b + 8) / 25 + 1) / 3 == (8 * b + 13) / 25
  {
    var q, s := b / 25, b % 25;
    assert b == 25 * q + s;
    assert (b + 8) / 25 == q + (s + 8) / 25;
    assert (8 * b + 13) / 25 == 8 * q + (8 * s + 13) / 25;
    assert b - (b + 8) / 25 + 1 == 3 * (8 * q) + (s + 1 - (s + 8) / 25);
  }

  lemma {:induction false} DroppedLeapDays(b: int)
    ensures 3 * (b + 1) / 4 == b - b / 4
  {
    assert b == 4 * (b / 4) + b % 4;
  }

  /** The offset of the computus and the epact move in opposite directions. */
  lemma {:induction false} OffsetOpposesEpact(year: int)
    ensures (RawEpact(year) + FullMoonOffset(year)) % 30 == 23
  {
    var a, b := year % 19, year / 100;
    LunarCorrection(b);
    DroppedLeapDays(b);
    OppositeResidues(11 * (a + 1) + 20 + ((8 * b + 13) / 25 - 5) - (b - b / 4 - 12),
                     19 * a + b - b / 4 - (8 * b + 13) / 25 + 15, a + 2);
  }

  /** The offset of the computus from 21 March is that full moon, but for its two exceptions. */
  lemma {:induction false} OffsetIsFullMoon(year: int)
    ensures
      var h := FullMoonOffset(year);
      PaschalFullMoon(year)
        == Ordinal(Date(year, 3, 21)) + if h == 29 || (h == 28 && year % 19 > 10) then h - 1 else h
  {
    hide Ordinal, RawEpact, FullMoonOffset;
    OffsetOpposesEpact(year);
  }

  /** Two numbers that add up to 7 short of a multiple of 30 have residues that add up to 23 or 53. */
  lemma {:induction false} OppositeResidues(m: int, n: int, k: int)
    requires m + n == 30 * k - 7
    ensures (m % 30 + n % 30) % 30 == 23
  {
    assert m % 30 + n % 30 == 30 * (k - 1 - m / 30 - n / 30) + 23;
  }

  /** The computus meets its definition: Easter is the first Sunday strictly after the paschal full moon. */
  lemma {:induction false} EasterIsFirstSundayAfterFullMoon(year: int)
    ensures Valid(Easter(year)) && Weekday(Easter(year)) == 6
    ensures PaschalFullMoon(year) < Ordinal(Easter(year)) <= PaschalFullMoon(year) + 7
  {
    hide PaschalFullMoon, FullMoonOffset;
    EasterIsASpringSunday(year);
    OffsetIsFullMoon(year);
    var h := FullMoonOffset(year);
    EasterAtIsInWindow(year, h, SundayOffset(year, h));
    CorrectionIsOneWeek(year % 19, h, SundayOffset(year, h));
  }

  // ---------- holidays ----------

  const FIXED: seq<(int, int)> := [(1, 1), (4, 21), (5, 1), (9, 7), (10, 12), (11, 2), (11, 15), (11, 20), (12, 25)]
  const MOVABLE: seq<int> := [-47, -2, 60]

  function HolidaysAround(year: int, easter: Date): set<Date>
    requires Valid(easter)
  {
    (set i | 0 <= i < |FIXED| :: Date(year, FIXED[i].0, FIXED[i].1))
    + (set i | 0 <= i < |MOVABLE| :: AddDays(easter, MOVABLE[i]))
  }

  function Holidays(year: int): set<Date> {
    EasterIsASpringSunday(year);
    HolidaysAround(year, Easter(year))
  }

  predicate IsBusinessDay(d: Date)
    requires Valid(d)
  {
    Weekday(d) < 5 && d !in Holidays(d.year)
  }

  lemma {:induction false} AddDaysFromWindow(year: int, e: Date, k: int)
    requires InEasterWindow(year, e) && -60 <= k <= 60
    ensures Ordinal(AddDays(e, k)) == Ordinal(e) + k && AddDays(e, k).year == year
  {
    AddDaysShifts(e, k);
    OrdinalIsOrder(AddDays(e, k), Date(year, 1, 1));
    OrdinalIsOrder(Date(year, 12, 31), AddDays(e, k));
  }

  lemma {:induction false} WeekdayShift(d: Date, e: Date, k: int)
    requires Valid(d) && Valid(e) && Ordinal(d) == Ordinal(e) + k
    ensures Weekday(d) == (Weekday(e) + k) % 7
  {
    ModShift(Ordinal(e) + 6, k);
  }

  lemma {:induction false} ModShift(n: int, k: int)
    ensures (n + k) % 7 == (n % 7 + k) % 7
  {
    assert n == 7 * (n / 7) + n % 7;
  }

  /** Every year the three movable holidays fall on a Tuesday, a Friday and a Thursday of that year. */
  lemma {:induction false} MovableHolidays(year: int)
    ensures Valid(Easter(year))
    ensures
      var carnival, goodFriday, corpusChristi := AddDays(Easter(year), -47), AddDays(Easter(year), -2),
        AddDays(Easter(year), 60);
      && Weekday(carnival) == 1 && Weekday(goodFriday) == 4 && Weekday(corpusChristi) == 3
      && carnival.year == goodFriday.year == corpusChristi.year == year
  {
    EasterIsASpringSunday(year);
    MovableAround(year, Easter(year));
  }

  lemma {:induction false} MovableAround(year: int, e: Date)
    requires InEasterWindow(year, e) && Weekday(e) == 6
    ensures Weekday(AddDays(e, -47)) == 1 && Weekday(AddDays(e, -2)) == 4 && Weekday(AddDays(e, 60)) == 3
    ensures AddDays(e, -47).year == AddDays(e, -2).year == AddDays(e, 60).year == year
  {
    hide Weekday, AddDays, InEasterWindow;
    DaysFromSunday(year, e, -47);
    DaysFromSunday(year, e, -2);
    DaysFromSunday(year, e, 60);
  }

  lemma {:induction false} DaysFromSunday(year: int, e: Date, k: int)
    requires InEasterWindow(year, e) && Weekday(e) == 6 && -60 <= k <= 60
    ensures Weekday(AddDays(e, k)) == (6 + k) % 7 && AddDays(e, k).year == year
  {
    hide Weekday;
    AddDaysFromWindow(year, e, k);
    WeekdayShift(AddDays(e, k), e, k);
  }

  // ---------- the first business day of a month ----------

  /** What a holiday in the first four days of a month can be. */
  predicate EarlyHoliday(month: int, day: int, fromEaster: int) {
    (month, day) in [(1, 1), (5, 1), (11, 2)] || fromEaster in MOVABLE
  }

  lemma {:induction false} HolidaysAreEarly(year: int, e: Date, month: int, day: int)
    requires InEasterWindow(year, e) && 1 <= month <= 12 && 1 <= day <= 4
    requires Date(year, month, day) in HolidaysAround(year, e)
    ensures EarlyHoliday(month, day, Ordinal(Date(year, month, day)) - Ordinal(e))
  {
    var d := Date(year, month, day);
    if i :| 0 <= i < |FIXED| && d == Date(year, FIXED[i].0, FIXED[i].1) {
    } else {
      var i :| 0 <= i < |MOVABLE| && d == AddDays(e, MOVABLE[i]);
      AddDaysShifts(e, MOVABLE[i]);
    }
  }

  /** The distance of a day from Easter, as days from 1 March. */
  lemma {:induction false} EarlyDistances(year: int, e: Date, month: int, p: int, q: int)
    requires InEasterWindow(year, e) && 1 <= month <= 12 && 1 <= p < q <= 4
    requires EarlyHoliday(month, p, Ordinal(Date(year, month, p)) - Ordinal(e))
    ensures !EarlyHoliday(month, q, Ordinal(Date(year, month, q)) - Ordinal(e))
  {
    var march, x := Ordinal(Date(year, 3, 1)), Ordinal(Date(year, month, p));
    OrdinalIsOrder(e, Date(year, 3, 22));
    OrdinalIsOrder(Date(year, 4, 25), e);
    assert march + 21 <= Ordinal(e) <= march + 55;
    assert Ordinal(Date(year, month, q)) == x + q - p;
    assert month <= 2 ==> x <= march - 25;
    assert month == 1 ==> x <= march - 55;
    assert month == 3 ==> march <= x <= march + 3;
    assert month == 4 ==> march + 31 <= x <= march + 34;
    assert month == 5 ==> march + 61 <= x <= march + 64;
    assert month >= 6 ==> march + 92 <= x;
    assert month >= 7 ==> march + 122 <= x;
  }

  /** No month has two holidays in its first four days. */
  lemma {:induction false} OneEarlyHoliday(year: int, month: int, p: int, q: int)
    requires 1 <= month <= 12 && 1 <= p < q <= 4 && Date(year, month, p) in Holidays(year)
    ensures Date(year, month, q) !in Holidays(year)
  {
    EasterIsASpringSunday(year);
    var e := Easter(year);
    HolidaysAreEarly(year, e, month, p);
    EarlyDistances(year, e, month, p, q);
    if Date(year, month, q) in HolidaysAround(year, e) { HolidaysAreEarly(year, e, month, q); }
  }

  lemma {:induction false} OneOfTwo(year: int, month: int, p: int, q: int)
    requires 1 <= month <= 12 && 1 <= p < q <= 4
    requires Weekday(Date(year, month, p)) < 5 && Weekday(Date(year, month, q)) < 5
    ensures exists day :: 1 <= day <= 4 && IsBusinessDay(Date(year, month, day))
  {
    if Date(year, month, p) in Holidays(year) {
      OneEarlyHoliday(year, month, p, q);
      assert IsBusinessDay(Date(year, month, q));
    } else {
      assert IsBusinessDay(Date(year, month, p));
    }
  }

  lemma {:induction false} DayOfMonth(year: int, month: int, day: int)
    requires 1 <= month <= 12 && 1 <= day <= 4
    ensures Weekday(Date(year, month, day)) == (Weekday(Date(year, month, 1)) + day - 1) % 7
  {
    hide Weekday;
    WeekdayShift(Date(year, month, day), Date(year, month, 1), day - 1);
  }

  /** One of the first four days of any month is a business day. */
  lemma {:induction false} BusinessDayByTheFourth(year: int, month: int)
    requires 1 <= month <= 12
    ensures exists day :: 1 <= day <= 4 && IsBusinessDay(Date(year, month, day))
  {
    hide Weekday, IsBusinessDay;
    DayOfMonth(year, month, 2);
    DayOfMonth(year, month, 3);
    DayOfMonth(year, month, 4);
    var first := Weekday(Date(year, month, 1));
    assert 0 <= first < 7 by { WeekdayIsSmall(Date(year, month, 1)); }
    if first <= 3 { OneOfTwo(year, month, 1, 2); }
    else if first == 4 { OneOfTwo(year, month, 1, 4); }
    else { OneOfTwo(year, month, 3, 4); }
  }

  lemma {:induction false} WeekdayIsSmall(d: Date)
    requires Valid(d)
    ensures 0 <= Weekday(d) < 7
  {
  }

  /** The loop stops by day four, on the month's first business day. */
  method FirstBusinessDay(year: int, month: int) returns (d: Date)
    requires 1 <= month <= 12
    ensures d.year == year && d.month == month && 1 <= d.day <= 4
    ensures IsBusinessDay(d)
    ensures forall day :: 1 <= day < d.day ==> !IsBusinessDay(Date(year, month, day))
  {
    hide Holidays;
    BusinessDayByTheFourth(year, month);
    ghost var stop :| 1 <= stop <= 4 && IsBusinessDay(Date(year, month, stop));
    d := Date(year, month, 1);
    while !IsBusinessDay(d)
      invariant d.year == year && d.month == month && 1 <= d.day <= stop
      invariant forall day :: 1 <= day < d.day ==> !IsBusinessDay(Date(year, month, day))
      decreases stop - d.day
    {
      assert d == Date(year, month, d.day);
      d := Next(d);
    }
  }

  // ---------- the last n business days ----------

  /** The business days from d backwards, latest first: n of them, or all since the year 2000. */
  function Collect(d: Date, n: int): seq<Date>
    requires Valid(d)
    decreases Ordinal(d) - Ordinal(Date(2000, 1, 1)) + 1
  {
    if n <= 0 || d.year < 2000 then []
    else
      PrevIsOneEarlier(d);
      OrdinalIsOrder(d, Date(2000, 1, 1));
      if IsBusinessDay(d) then [d] + Collect(Prev(d), n - 1) else Collect(Prev(d), n)
  }

  lemma {:induction false} CollectIsSound(d: Date, n: int)
    requires Valid(d)
    ensures |Collect(d, n)| <= if n < 0 then 0 else n
    ensures forall i :: 0 <= i < |Collect(d, n)| ==>
      Valid(Collect(d, n)[i]) && IsBusinessDay(Collect(d, n)[i]) && Collect(d, n)[i].year >= 2000
      && Ordinal(Collect(d, n)[i]) <= Ordinal(d)
    ensures forall i, j :: 0 <= i < j < |Collect(d, n)| ==> Before(Collect(d, n)[j], Collect(d, n)[i])
    decreases Ordinal(d) - Ordinal(Date(2000, 1, 1)) + 1
  {
    if n > 0 && d.year >= 2000 {
      PrevIsOneEarlier(d);
      OrdinalIsOrder(d, Date(2000, 1, 1));
      var rest := Collect(Prev(d), if IsBusinessDay(d) then n - 1 else n);
      CollectIsSound(Prev(d), if IsBusinessDay(d) then n - 1 else n);
      forall i | 0 <= i < |rest| ensures Before(rest[i], d) { OrdinalIsOrder(rest[i], d); }
    }
  }

  /** Nothing is skipped: a business day since 2000 that is not after d is listed, unless the listing is
      already full of later ones. */
  lemma {:induction false} CollectIsComplete(d: Date, n: int, x: Date)
    requires n >= 0 && Valid(d) && Valid(x) && IsBusinessDay(x) && x.year >= 2000 && Ordinal(x) <= Ordinal(d)
    requires |Collect(d, n)| == n ==> n > 0 && !Before(x, Collect(d, n)[n - 1])
    ensures x in Collect(d, n)
    decreases Ordinal(d) - Ordinal(Date(2000, 1, 1)) + 1
  {
    hide Holidays;
    OrdinalIsOrder(d, x);
    OrdinalIsOrder(d, Date(2000, 1, 1));
    CollectIsSound(d, n);
    PrevIsOneEarlier(d);
    var m := if IsBusinessDay(d) then n - 1 else n;
    if x != d && m > 0 { CollectIsComplete(Prev(d), m, x); }
  }

  function Reversed(s: seq<Date>): (r: seq<Date>)
    ensures |r| == |s| && forall i :: 0 <= i < |s| ==> r[i] == s[|s| - 1 - i]
  {
    seq(|s|, i requires 0 <= i < |s| => s[|s| - 1 - i])
  }

  method ListBusinessDays(end: Date, n: int) returns (days: seq<Date>)
    requires Valid(end)
    ensures days == Reversed(Collect(end, n))
  {
    hide Holidays;
    var result: seq<Date> := [];
    var d := end;
    while |result| < n && d.year >= 2000
      invariant Valid(d)
      invariant result + Collect(d, n - |result|) == Collect(end, n)
      decreases Ordinal(d) - Ordinal(Date(2000, 1, 1)) + 1
    {
      PrevIsOneEarlier(d);
      OrdinalIsOrder(d, Date(2000, 1, 1));
      if IsBusinessDay(d) {
        assert result + Collect(d, n - |result|) == (result + [d]) + Collect(Prev(d), n - |result| - 1);
        result := result + [d];
      }
      d := Prev(d);
    }
    assert Collect(d, n - |result|) == [];
    days := Reversed(result);
  }

  /** What list_business_days promises: strictly increasing business days since 2000 up to end, none
      skipped, n of them unless the year 2000 is reached first. */
  lemma {:induction false} ListingIsExact(end: Date, n: int, x: Date)
    requires Valid(end) && Valid(x) && n >= 0
    ensures
      var days := Reversed(Collect(end, n));
      && |days| <= n
      && (forall i, j :: 0 <= i < j < |days| ==> Before(days[i], days[j]))
      && (x in days <==>
            && IsBusinessDay(x) && x.year >= 2000 && !Before(end, x)
            && (|days| < n || (n > 0 && !Before(x, days[0]))))
  {
    var c := Collect(end, n);
    CollectIsSound(end, n);
    OrdinalIsOrder(end, x);
    ReversedKeepsMembers(c, x);
    if IsBusinessDay(x) && x.year >= 2000 && !Before(end, x) && (|c| < n || (n > 0 && !Before(x, c[n - 1]))) {
      CollectIsComplete(end, n, x);
    }
    if i :| 0 <= i < |c| && c[i] == x {
      assert i < |c| - 1 ==> Before(c[|c| - 1], c[i]);
    }
  }

  lemma {:induction false} ReversedKeepsMembers(s: seq<Date>, x: Date)
    ensures x in Reversed(s) <==> x in s
  {
    if i :| 0 <= i < |s| && s[i] == x { assert Reversed(s)[|s| - 1 - i] == x; }
  }

  // ---------- the calendar of holidays ----------

  lemma {:induction false} DayFromEaster(d: Date, k: int)
    requires Valid(d) && -60 <= k <= 60
    ensures d == AddDays(Easter(d.year), k) <==> Ordinal(d) - Ordinal(Easter(d.year)) == k
  {
    hide AddDays, Ordinal, InEasterWindow;
    EasterIsASpringSunday(d.year);
    AddDaysFromWindow(d.year, Easter(d.year), k);
    OrdinalIsOrder(d, AddDays(Easter(d.year), k));
    OrdinalIsOrder(AddDays(Easter(d.year), k), d);
    DatesAreOrdered(d, AddDays(Easter(d.year), k));
  }

  lemma {:induction false} DatesAreOrdered(a: Date, b: Date)
    ensures Before(a, b) || a == b || Before(b, a)
  {
  }

  /** A business day is a weekday that is none of nine fixed holidays and neither 47 days before Easter, nor two
      before, nor sixty after it. */
  lemma {:induction false} BusinessDayExactly(d: Date)
    requires Valid(d)
    ensures IsBusinessDay(d) <==>
      && 0 <= Weekday(d) <= 4
      && (d.month, d.day) !in {(1, 1), (4, 21), (5, 1), (9, 7), (10, 12), (11, 2), (11, 15), (11, 20), (12, 25)}
      && Ordinal(d) - Ordinal(Easter(d.year)) !in {-47, -2, 60}
  {
    hide Weekday, Ordinal, AddDays, Easter;
    WeekdayIsSmall(d);
    DayFromEaster(d, -47);
    DayFromEaster(d, -2);
    DayFromEaster(d, 60);
    HolidayMembers(d);
  }

  lemma {:induction false} HolidayMembers(d: Date)
    requires Valid(d)
    ensures Valid(Easter(d.year))
    ensures d in Holidays(d.year) <==>
      || (d.month, d.day) in {(1, 1), (4, 21), (5, 1), (9, 7), (10, 12), (11, 2), (11, 15), (11, 20), (12, 25)}
      || d == AddDays(Easter(d.year), -47) || d == AddDays(Easter(d.year), -2) || d == AddDays(Easter(d.year), 60)
  {
    hide AddDays, Easter;
    EasterIsASpringSunday(d.year);
    var e := Easter(d.year);
    FixedHolidays(d);
    assert MOVABLE[0] == -47 && MOVABLE[1] == -2 && MOVABLE[2] == 60;
    assert d in (set i | 0 <= i < |MOVABLE| :: AddDays(e, MOVABLE[i])) <==>
      d == AddDays(e, -47) || d == AddDays(e, -2) || d == AddDays(e, 60);
  }

  lemma {:induction false} FixedHolidays(d: Date)
    ensures d in (set i | 0 <= i < |FIXED| :: Date(d.year, FIXED[i].0, FIXED[i].1)) <==>
      (d.month, d.day) in {(1, 1), (4, 21), (5, 1), (9, 7), (10, 12), (11, 2), (11, 15), (11, 20), (12, 25)}
  {
    assert FIXED[0] == (1, 1) && FIXED[1] == (4, 21) && FIXED[2] == (5, 1) && FIXED[3] == (9, 7)
        && FIXED[4] == (10, 12);
    assert FIXED[5] == (11, 2) && FIXED[6] == (11, 15) && FIXED[7] == (11, 20) && FIXED[8] == (12, 25);
  }
}
