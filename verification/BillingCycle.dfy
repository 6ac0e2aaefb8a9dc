/**
 * The anchored billing cycle. A group may bill by calendar month or from a
 * configured day of the month; the day clamps to the last day of short months.
 */
module BillingCycle {
  import opened Prelude
  import opened Calendar

  datatype Period = Period(fromDate: Date, toDate: Date)

  predicate Contains(p: Period, d: Date) {
    DayNumber(p.fromDate) <= DayNumber(d) <= DayNumber(p.toDate)
  }

  function EffectiveAnchor(month: int, cycleStartDay: int): Date {
    Date(month, Min(cycleStartDay, DaysInMonth(month)))
  }

  /** The group's billing period on a given day. */
  function ResolveCurrentPeriod(today: Date, cycleStartDay: Option<int>): Period
    requires Valid(today)
  {
    if cycleStartDay.None? || cycleStartDay.value <= 1 then
      Period(Date(today.month, 1), Date(today.month, DaysInMonth(today.month)))
    else
      var anchorThisMonth := EffectiveAnchor(today.month, cycleStartDay.value);
      var inCurrent := today.day >= anchorThisMonth.day;
      var start := if inCurrent then anchorThisMonth else EffectiveAnchor(today.month - 1, cycleStartDay.value);
      var nextAnchor := if inCurrent then EffectiveAnchor(today.month + 1, cycleStartDay.value) else anchorThisMonth;
      Period(start, PrevDay(nextAnchor))
  }

  // ----- an independent description: the periods are the gaps between anchors -----

  /** First day of the period that starts in `month`. */
  function Anchor(month: int, cycleStartDay: Option<int>): (d: Date)
    ensures Valid(d) && d.month == month
  {
    EffectiveAnchor(month, if cycleStartDay.None? then 1 else Max(1, cycleStartDay.value))
  }

  /** Month in which the period containing `today` starts. */
  function StartMonth(today: Date, cycleStartDay: Option<int>): int {
    if today.day >= Anchor(today.month, cycleStartDay).day then today.month else today.month - 1
  }

  lemma ResolveIsAnchorGap(today: Date, c: Option<int>)
    requires Valid(today)
    ensures ResolveCurrentPeriod(today, c)
         == Period(Anchor(StartMonth(today, c), c), PrevDay(Anchor(StartMonth(today, c) + 1, c)))
  {
  }

  /** A period starts on the configured day, or on a shorter month's last day; without one, on the first. */
  lemma PeriodStartsOnConfiguredDay(today: Date, c: Option<int>)
    requires Valid(today)
    ensures var s := ResolveCurrentPeriod(today, c).fromDate;
            if c.None? || c.value < 1 then s.day == 1
            else s.day == c.value || (s.day < c.value && s.day == DaysInMonth(s.month))
  {
    ResolveIsAnchorGap(today, c);
  }

  /**
   * A calendar-month period runs from the first to the last day of its month; that of a
   * February ends on the 29th exactly in leap years.
   */
  lemma CalendarMonthEnds(today: Date, year: int, k: nat, c: Option<int>)
    requires Valid(today) && k < 12 && today.month == 12 * year + k && (c.None? || c.value <= 1)
    ensures var p := ResolveCurrentPeriod(today, c);
            && p.fromDate == Date(today.month, 1) && p.toDate.month == today.month
            && p.toDate.day == if k == 1 then
                 (if year % 4 == 0 && (year % 100 != 0 || year % 400 == 0) then 29 else 28)
               else if k in {3, 5, 8, 10} then 30 else 31
  {
    MonthLength(year, k);
  }

  /** An anchor of 29 to 31 starts a February period on its last day, and so ends the one before on the day before. */
  lemma FebruaryClamps(year: int, c: Option<int>)
    requires c.Some? && 29 <= c.value <= 31
    ensures var last := if year % 4 == 0 && (year % 100 != 0 || year % 400 == 0) then 29 else 28;
            && Valid(Date(12 * year + 1, last))
            && ResolveCurrentPeriod(Date(12 * year + 1, last), c).fromDate == Date(12 * year + 1, last)
            && ResolveCurrentPeriod(Date(12 * year + 1, last - 1), c).toDate == Date(12 * year + 1, last - 1)
  {
    MonthLength(year, 0);
    MonthLength(year, 1);
    MonthLength(year, 2);
  }

  /** Consecutive anchors are 28 to 31 days apart, whatever is clamped. */
  lemma AnchorGap(month: int, c: Option<int>)
    ensures 28 <= DayNumber(Anchor(month + 1, c)) - DayNumber(Anchor(month, c)) <= 31
  {
    MonthStartStep(month);
    assert (month + 1) % 12 == (month % 12 + 1) % 12;
  }

  lemma {:induction false} AnchorsIncrease(a: int, b: int, c: Option<int>)
    requires a < b
    ensures DayNumber(Anchor(a, c)) < DayNumber(Anchor(b, c))
    decreases b - a
  {
    AnchorGap(b - 1, c);
    if a < b - 1 {
      AnchorsIncrease(a, b - 1, c);
    }
  }

  lemma BetweenAnchors(today: Date, c: Option<int>, month: int)
    requires Valid(today)
    ensures DayNumber(Anchor(month, c)) <= DayNumber(today) < DayNumber(Anchor(month + 1, c))
       <==> StartMonth(today, c) == month
  {
    var s := StartMonth(today, c);
    DayNumberOrder(Anchor(s, c), today);
    DayNumberOrder(today, Anchor(s + 1, c));
    if month < s {
      if month + 1 < s { AnchorsIncrease(month + 1, s, c); }
    } else if s < month {
      if s + 1 < month { AnchorsIncrease(s + 1, month, c); }
    }
  }

  /**
   * The periods partition the calendar: a day lies in its own period; every day of that
   * period, and no other, resolves to it; the next day after it starts the next period;
   * and it is 28 to 31 days long.
   */
  lemma PeriodsPartitionCalendar(today: Date, c: Option<int>)
    requires Valid(today)
    ensures var p := ResolveCurrentPeriod(today, c);
            && Valid(p.fromDate) && Valid(p.toDate)
            && Contains(p, today)
            && 28 <= DayNumber(p.toDate) - DayNumber(p.fromDate) + 1 <= 31
            && ResolveCurrentPeriod(NextDay(p.toDate), c).fromDate == NextDay(p.toDate)
            && ResolveCurrentPeriod(PrevDay(p.fromDate), c).toDate == PrevDay(p.fromDate)
    ensures forall x :: Valid(x) ==>
              (Contains(ResolveCurrentPeriod(today, c), x)
               <==> ResolveCurrentPeriod(x, c) == ResolveCurrentPeriod(today, c))
  {
    var s := StartMonth(today, c);
    var p := ResolveCurrentPeriod(today, c);
    ResolveIsAnchorGap(today, c);
    DayStep(Anchor(s + 1, c));
    AnchorGap(s, c);
    BetweenAnchors(today, c, s);
    AnchorResolves(s + 1, c);
    PredecessorResolves(s, c);
    forall x | Valid(x)
      ensures Contains(p, x) <==> ResolveCurrentPeriod(x, c) == p
    {
      ResolveIsAnchorGap(x, c);
      BetweenAnchors(x, c, s);
    }
  }

  lemma AnchorResolves(month: int, c: Option<int>)
    ensures ResolveCurrentPeriod(Anchor(month, c), c).fromDate == Anchor(month, c)
    ensures StartMonth(Anchor(month, c), c) == month
  {
    ResolveIsAnchorGap(Anchor(month, c), c);
  }

  lemma PredecessorResolves(month: int, c: Option<int>)
    ensures StartMonth(PrevDay(Anchor(month, c)), c) == month - 1
    ensures ResolveCurrentPeriod(PrevDay(Anchor(month, c)), c)
         == Period(Anchor(month - 1, c), PrevDay(Anchor(month, c)))
  {
    var d := PrevDay(Anchor(month, c));
    DayStep(Anchor(month, c));
    AnchorGap(month - 1, c);
    BetweenAnchors(d, c, month - 1);
    ResolveIsAnchorGap(d, c);
  }

  /** A period starts on the latest anchor not after the day, and on no other day. */
  lemma PeriodStartIsLatestAnchor(today: Date, c: Option<int>, month: int)
    requires Valid(today)
    ensures var s := ResolveCurrentPeriod(today, c).fromDate;
            && DayNumber(s) <= DayNumber(today)
            && s == Anchor(s.month, c)
            && (DayNumber(Anchor(month, c)) <= DayNumber(today) ==> DayNumber(Anchor(month, c)) <= DayNumber(s))
  {
    PeriodsPartitionCalendar(today, c);
    ResolveIsAnchorGap(today, c);
    var m := StartMonth(today, c);
    BetweenAnchors(today, c, m);
    if month > m && month != m + 1 { AnchorsIncrease(m + 1, month, c); }
    if month < m { AnchorsIncrease(month, m, c); }
  }
}
