/** Two independent period-end calendars and the freshness verdicts built on them. */
module Freshness {
  import opened Wrappers
  import opened Calendar

  datatype Frequency = Daily | Market | Monthly | MovingQuarter | Quarterly | Annual
  datatype Method = DateRange | FullPeriod
  datatype IdentityKind = PointIdentity | FullPeriodIdentity

  /** date + timedelta(days=k), or the OverflowError outside the years 1 to 9999. */
  function Shift(d: Date, k: int): (r: Option<Date>)
    requires Valid(d)
    ensures r.Some? ==> InRange(r.value)
  {
    var moved := AddDays(d, k);
    if 1 <= moved.year <= 9999 then Some(moved) else None
  }

  /** date(y, m, 1), or the ValueError outside the years 1 to 9999. */
  function FirstOf(y: int, m: int): (r: Option<Date>)
    requires 1 <= m <= 12
    ensures r.Some? ==> InRange(r.value)
  {
    if 1 <= y <= 9999 then Some(Date(y, m, 1)) else None
  }

  function DayBefore(d: Option<Date>): (r: Option<Date>)
    requires d.Some? ==> Valid(d.value)
    ensures r.Some? ==> InRange(r.value)
  {
    if d.None? then None else Shift(d.value, -1)
  }

  /** domain_contracts._period_end; None when it raises. */
  function PeriodEnd(reference: Date, frequency: Frequency): (end: Option<Date>)
    requires InRange(reference)
    ensures end.Some? ==> InRange(end.value)
  {
    match frequency
    case Daily | Market | MovingQuarter => Some(reference)
    case Monthly =>
      var nextMonth := Shift(reference.(day := 28), 4);
      if nextMonth.None? then None else DayBefore(Some(nextMonth.value.(day := 1)))
    case Quarterly =>
      var endMonth := ((reference.month - 1) / 3 + 1) * 3;
      DayBefore(FirstOf(reference.year + (if endMonth == 12 then 1 else 0), endMonth % 12 + 1))
    case Annual => Some(Date(reference.year, 12, 31))
  }

  /** reference_freshness._month_end, by the month's length. */
  function MonthEnd(d: Date): Date
    requires Valid(d)
  {
    Date(d.year, d.month, DaysInMonth(d.year, d.month))
  }

  /** The basis date of a point series fetched by date range. */
  function PointBasis(reference: Date, frequency: Frequency): (b: Date)
    requires InRange(reference)
    ensures InRange(b)
  {
    match frequency
    case Daily | Market => reference
    case Monthly | MovingQuarter => MonthEnd(reference)
    case Quarterly =>
      var endMonth := ((reference.month - 1) / 3 + 1) * 3;
      Date(reference.year, endMonth, DaysInMonth(reference.year, endMonth))
    case Annual => Date(reference.year, 12, 31)
  }

  datatype Verdict = Verdict(basis: Date, deadline: Date, ageDays: int, stale: bool)

  /** resolve_reference_freshness for well-typed arguments. */
  function Resolve(reference: Date, asOf: Date, frequency: Frequency, how: Method, freshnessDays: int,
                   seriesCode: int, kind: IdentityKind): Option<Verdict>
    requires InRange(reference) && InRange(asOf)
  {
    if seriesCode < 1 || freshnessDays < 1 || Before(asOf, reference) then None
    else if how.FullPeriod? && !(seriesCode == 226 && kind.FullPeriodIdentity? && frequency.Monthly?) then None
    else if how.DateRange? && !kind.PointIdentity? then None
    else
      var basis := if how.FullPeriod? then reference else PointBasis(reference, frequency);
      var deadline := Shift(basis, freshnessDays);
      if deadline.None? then None
      else Some(Verdict(basis, deadline.value, Ordinal(asOf) - Ordinal(basis), Before(deadline.value, asOf)))
  }

  /** The stale rule of evaluate_series_map for its latest reference; None when a date computation raises. */
  function SeriesStale(latest: Date, asOf: Date, frequency: Frequency, freshnessDays: int): Option<bool>
    requires InRange(latest) && InRange(asOf)
  {
    var end := PeriodEnd(latest, frequency);
    if end.None? then None
    else
      var deadline := Shift(end.value, freshnessDays);
      if deadline.None? then None else Some(Before(deadline.value, asOf))
  }

  // ---------- the calendars agree ----------

  lemma {:induction false} LastDayBeforeFirst(y: int, m: int)
    requires 1 <= m <= 12
    ensures
      var first := if m == 12 then Date(y + 1, 1, 1) else Date(y, m + 1, 1);
      AddDays(first, -1) == Date(y, m, DaysInMonth(y, m))
  {
    var first := if m == 12 then Date(y + 1, 1, 1) else Date(y, m + 1, 1);
    assert AddDays(first, -1) == AddDays(Prev(first), 0);
  }

  /** Four days after the 28th lies in the next month, whatever the length of the month. */
  lemma {:induction false} FourDaysAfterThe28th(d: Date)
    requires Valid(d)
    ensures
      var moved := AddDays(d.(day := 28), 4);
      if d.month == 12 then moved.year == d.year + 1 && moved.month == 1
      else moved.year == d.year && moved.month == d.month + 1
  {
    var x := d.(day := 28);
    var x1, x2, x3 := Next(x), Next(Next(x)), Next(Next(Next(x)));
    NextIsOneLater(x);
    NextIsOneLater(x1);
    NextIsOneLater(x2);
    assert AddDays(x, 4) == AddDays(x1, 3);
    assert AddDays(x1, 3) == AddDays(x2, 2);
    assert AddDays(x2, 2) == AddDays(x3, 1);
    assert AddDays(x3, 1) == Next(x3);
  }

  /** Where the computation by the next period leaves datetime's range. */
  predicate EndsPastRange(reference: Date, frequency: Frequency) {
    reference.year == 9999
    && ((frequency.Monthly? && reference.month == 12) || (frequency.Quarterly? && reference.month >= 10))
  }

  /** For every date the two period ends agree, exactly except in the last month and quarter of year 9999
      (where one of them raises) and for a moving quarter whose reference is not a month end. */
  lemma {:induction false} PeriodEndsAgree(reference: Date, frequency: Frequency)
    requires InRange(reference)
    ensures PeriodEnd(reference, frequency) == Some(PointBasis(reference, frequency)) <==>
      !EndsPastRange(reference, frequency) && (frequency.MovingQuarter? ==> reference == MonthEnd(reference))
  {
    match frequency
    case Monthly =>
      FourDaysAfterThe28th(reference);
      LastDayBeforeFirst(reference.year, reference.month);
    case Quarterly =>
      var endMonth := ((reference.month - 1) / 3 + 1) * 3;
      assert endMonth in {3, 6, 9, 12};
      LastDayBeforeFirst(reference.year, endMonth);
    case _ =>
  }

  /** A reference in December 9999 makes one computation raise, and a moving quarter in mid-month has two ends. */
  lemma {:induction false} PeriodEndsCanDiffer()
    ensures
      var last := Date(9999, 12, 1);
      InRange(last) && PeriodEnd(last, Monthly).None? && PointBasis(last, Monthly) == Date(9999, 12, 31)
    ensures
      var mid := Date(2024, 5, 15);
      InRange(mid) && PeriodEnd(mid, MovingQuarter) == Some(mid) && PointBasis(mid, MovingQuarter) == Date(2024, 5, 31)
  {
    FourDaysAfterThe28th(Date(9999, 12, 1));
  }

  /** The reporting verdict and the dataset verdict agree wherever the period ends do. */
  lemma {:induction false} VerdictsAgree(reference: Date, asOf: Date, frequency: Frequency, days: int, code: int)
    requires InRange(reference) && InRange(asOf) && !EndsPastRange(reference, frequency)
    requires frequency.MovingQuarter? ==> reference == MonthEnd(reference)
    requires Resolve(reference, asOf, frequency, DateRange, days, code, PointIdentity).Some?
    ensures SeriesStale(reference, asOf, frequency, days)
         == Some(Resolve(reference, asOf, frequency, DateRange, days, code, PointIdentity).value.stale)
  {
    PeriodEndsAgree(reference, frequency);
  }

  // ---------- the stale rule ----------

  /** Stale means older than allowed, counted in days from the basis date. */
  lemma {:induction false} StaleIsAgeBeyondFreshness(reference: Date, asOf: Date, frequency: Frequency, how: Method,
                                                     days: int, code: int, kind: IdentityKind)
    requires InRange(reference) && InRange(asOf)
    requires Resolve(reference, asOf, frequency, how, days, code, kind).Some?
    ensures
      var v := Resolve(reference, asOf, frequency, how, days, code, kind).value;
      v.stale <==> v.ageDays > days
  {
    var v := Resolve(reference, asOf, frequency, how, days, code, kind).value;
    AddDaysShifts(v.basis, days);
    OrdinalIsOrder(v.deadline, asOf);
  }

  lemma {:induction false} BasisIsMonotone(a: Date, b: Date, frequency: Frequency)
    requires InRange(a) && InRange(b) && !Before(b, a)
    ensures !Before(PointBasis(b, frequency), PointBasis(a, frequency))
  {
  }

  /** Time only makes a reference staler, and a newer reference is never staler than an older one. */
  lemma {:induction false} StalenessIsMonotone(older: Date, newer: Date, asOf: Date, later: Date,
                                               frequency: Frequency, how: Method,
                            days: int, code: int, kind: IdentityKind)
    requires InRange(older) && InRange(newer) && InRange(asOf) && InRange(later)
    requires !Before(newer, older) && !Before(later, asOf)
    requires Resolve(newer, asOf, frequency, how, days, code, kind).Some?
    ensures Resolve(older, later, frequency, how, days, code, kind).Some?
    ensures Resolve(newer, asOf, frequency, how, days, code, kind).value.stale
         ==> Resolve(older, later, frequency, how, days, code, kind).value.stale
  {
    hide Ordinal, AddDays, PointBasis;
    BasisIsMonotone(older, newer, frequency);
    var v := Resolve(newer, asOf, frequency, how, days, code, kind).value;
    var basis := if how.FullPeriod? then older else PointBasis(older, frequency);
    AddDaysShifts(v.basis, days);
    AddDaysShifts(basis, days);
    var moved := AddDays(basis, days);
    OrdinalIsOrder(v.basis, basis);
    OrdinalIsOrder(v.deadline, moved);
    OrdinalIsOrder(moved, basis);
    OrdinalIsOrder(v.deadline, asOf);
    OrdinalIsOrder(moved, later);
    OrdinalIsOrder(later, asOf);
  }

  // ---------- what the basis is ----------

  predicate SamePeriod(a: Date, b: Date, frequency: Frequency) {
    match frequency
    case Daily | Market => a == b
    case Monthly | MovingQuarter => a.year == b.year && a.month == b.month
    case Quarterly => a.year == b.year && (a.month - 1) / 3 == (b.month - 1) / 3
    case Annual => a.year == b.year
  }

  /** The basis of a point series is the last day of its reference's own period. */
  lemma {:induction false} BasisEndsThePeriod(reference: Date, frequency: Frequency, d: Date)
    requires InRange(reference) && Valid(d)
    ensures
      var basis := PointBasis(reference, frequency);
      SamePeriod(reference, basis, frequency) && (SamePeriod(reference, d, frequency) ==> !Before(basis, d))
  {
  }

  /** Which references have a verdict: point series by date range, and one monthly full-period series by its
      period, from the day of the reference on, as long as the deadline exists; the deadline lies the allowed
      days after the basis. */
  lemma {:induction false} ResolveIsExact(reference: Date, asOf: Date, frequency: Frequency, how: Method, days: int,
                                          code: int, kind: IdentityKind)
    requires InRange(reference) && InRange(asOf)
    ensures
      var v := Resolve(reference, asOf, frequency, how, days, code, kind);
      var point := how == DateRange && kind == PointIdentity;
      var period := how == FullPeriod && kind == FullPeriodIdentity && code == 226 && frequency == Monthly;
      var basis := if how == FullPeriod then reference else PointBasis(reference, frequency);
      && (v.Some? <==>
            && code > 0 && days > 0 && !Before(asOf, reference) && (point || period)
            && Ordinal(basis) + days <= Ordinal(Date(9999, 12, 31)))
      && (v.Some? ==>
            && v.value.basis == basis && v.value.ageDays == Ordinal(asOf) - Ordinal(basis)
            && Ordinal(v.value.deadline) == Ordinal(basis) + days)
  {
    hide Ordinal, AddDays;
    var basis := if how == FullPeriod then reference else PointBasis(reference, frequency);
    AddDaysShifts(basis, days);
    OrdinalIsOrder(Date(9999, 12, 31), AddDays(basis, days));
    OrdinalIsOrder(AddDays(basis, days), Date(1, 1, 1));
    OrdinalIsOrder(basis, Date(1, 1, 1));
  }
}
