/** Proleptic Gregorian dates as datetime.date has them: fields, day numbers, and stepping by days. */
module Calendar {
  datatype Date = Date(year: int, month: int, day: int)

  predicate IsLeap(y: int) {
    y % 4 == 0 && (y % 100 != 0 || y % 400 == 0)
  }

  function DaysInMonth(y: int, m: int): int
    requires 1 <= m <= 12
  {
    if m == 2 then (if IsLeap(y) then 29 else 28) else if m in {4, 6, 9, 11} then 30 else 31
  }

  predicate Valid(d: Date) {
    1 <= d.month <= 12 && 1 <= d.day <= DaysInMonth(d.year, d.month)
  }

  /** The years datetime.date accepts. */
  predicate InRange(d: Date) {
    Valid(d) && 1 <= d.year <= 9999
  }

  function DaysBeforeYear(y: int): int {
    365 * (y - 1) + (y - 1) / 4 - (y - 1) / 100 + (y - 1) / 400
  }

  function DaysBeforeMonth(y: int, m: int): int
    requires 1 <= m <= 12
  {
    [0, 31, 59, 90, 120, 151, 181, 212, 243, 273, 304, 334][m - 1] + if m > 2 && IsLeap(y) then 1 else 0
  }

  /** date.toordinal: 1 January of year 1 is day 1. */
  function Ordinal(d: Date): int
    requires Valid(d)
  {
    DaysBeforeYear(d.year) + DaysBeforeMonth(d.year, d.month) + d.day
  }

  /** date.weekday: Monday is 0. */
  function Weekday(d: Date): int
    requires Valid(d)
  {
    (Ordinal(d) + 6) % 7
  }

  predicate Before(a: Date, b: Date) {
    || a.year < b.year
    || (a.year == b.year && (a.month < b.month || (a.month == b.month && a.day < b.day)))
  }

  function Next(d: Date): Date
    requires Valid(d)
  {
    if d.day < DaysInMonth(d.year, d.month) then Date(d.year, d.month, d.day + 1)
    else if d.month < 12 then Date(d.year, d.month + 1, 1)
    else Date(d.year + 1, 1, 1)
  }

  function Prev(d: Date): Date
    requires Valid(d)
  {
    if d.day > 1 then Date(d.year, d.month, d.day - 1)
    else if d.month > 1 then Date(d.year, d.month - 1, DaysInMonth(d.year, d.month - 1))
    else Date(d.year - 1, 12, 31)
  }

  function Abs(k: int): nat {
    if k < 0 then -k else k
  }

  /** d + timedelta(days=k), before the range check. */
  function AddDays(d: Date, k: int): (r: Date)
    requires Valid(d)
    ensures Valid(r)
    decreases Abs(k)
  {
    if k == 0 then d else if k > 0 then AddDays(Next(d), k - 1) else AddDays(Prev(d), k + 1)
  }

  // ---------- day numbers ----------

  lemma {:induction false} FourthYears(y: int)
    ensures (y - 1) / 4 + (if y % 4 == 0 then 1 else 0) == y / 4
  {
  }

  lemma {:induction false} Centuries(y: int)
    ensures (y - 1) / 100 + (if y % 100 == 0 then 1 else 0) == y / 100
  {
  }

  lemma {:induction false} FourCenturies(y: int)
    ensures (y - 1) / 400 + (if y % 400 == 0 then 1 else 0) == y / 400
  {
  }

  lemma {:induction false} Fours(q: int)
    ensures (4 * q) % 4 == 0
  {
  }

  lemma {:induction false} Hundreds(q: int)
    ensures (100 * q) % 100 == 0
  {
  }

  lemma {:induction false} DivisibleYears(y: int)
    ensures y % 400 == 0 ==> y % 100 == 0
    ensures y % 100 == 0 ==> y % 4 == 0
  {
    Hundreds(4 * (y / 400));
    Fours(25 * (y / 100));
  }

  /** The leap days up to and including those of year y. */
  lemma {:induction false} LeapDays(y: int)
    ensures DaysBeforeYear(y) + (if IsLeap(y) then 1 else 0) == 365 * (y - 1) + y / 4 - y / 100 + y / 400
  {
    FourthYears(y);
    Centuries(y);
    FourCenturies(y);
    DivisibleYears(y);
  }

  lemma {:induction false} YearLength(y: int)
    ensures DaysBeforeYear(y + 1) == DaysBeforeYear(y) + if IsLeap(y) then 366 else 365
  {
    LeapDays(y);
  }

  lemma {:induction false} LaterYearLater(y: int, z: int)
    requires y < z
    ensures DaysBeforeYear(y) + (if IsLeap(y) then 366 else 365) <= DaysBeforeYear(z)
    decreases z - y
  {
    YearLength(z - 1);
    if y < z - 1 { LaterYearLater(y, z - 1); }
  }

  lemma {:induction false} NextIsOneLater(d: Date)
    requires Valid(d)
    ensures Valid(Next(d)) && Ordinal(Next(d)) == Ordinal(d) + 1
  {
    YearLength(d.year);
  }

  lemma {:induction false} PrevIsOneEarlier(d: Date)
    requires Valid(d)
    ensures Valid(Prev(d)) && Ordinal(Prev(d)) == Ordinal(d) - 1
  {
    YearLength(d.year - 1);
  }

  lemma {:induction false} AddDaysShifts(d: Date, k: int)
    requires Valid(d)
    ensures Ordinal(AddDays(d, k)) == Ordinal(d) + k
    decreases Abs(k)
  {
    if k > 0 {
      NextIsOneLater(d);
      AddDaysShifts(Next(d), k - 1);
    } else if k < 0 {
      PrevIsOneEarlier(d);
      AddDaysShifts(Prev(d), k + 1);
    }
  }

  lemma {:induction false} BeforeMeansSmaller(a: Date, b: Date)
    requires Valid(a) && Valid(b) && Before(a, b)
    ensures Ordinal(a) < Ordinal(b)
  {
    if a.year < b.year { LaterYearLater(a.year, b.year); }
  }

  /** Day numbers order dates as their fields do, and name them uniquely. */
  lemma {:induction false} OrdinalIsOrder(a: Date, b: Date)
    requires Valid(a) && Valid(b)
    ensures Ordinal(a) < Ordinal(b) <==> Before(a, b)
    ensures Ordinal(a) == Ordinal(b) <==> a == b
  {
    if Before(a, b) { BeforeMeansSmaller(a, b); }
    if Before(b, a) { BeforeMeansSmaller(b, a); }
  }
}
