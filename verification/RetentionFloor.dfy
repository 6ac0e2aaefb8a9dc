/**
 * The earliest date whose rows a group may still hold: a whole number of billing
 * periods back from the frozen purge boundary, memoised on the text of its inputs.
 */
module RetentionFloor {
  import opened Prelude
  import opened Calendar
  import opened BillingCycle
  import opened Text

  /** The group columns read; instants are milliseconds since 1970. */
  datatype Group = Group(
    retentionPurgeThrough: Option<int>,
    billingCycleStartDay: Option<int>,
    createdAt: Option<int>,
    firstSchedulePublishedAt: Option<int>)

  function PeriodStart(d: Date, c: Option<int>): Date
    requires Valid(d)
  {
    ResolveCurrentPeriod(d, c).fromDate
  }

  predicate NotAfter(a: Date, b: Date) {
    DayNumber(a) <= DayNumber(b)
  }

  // ----- what the walk is for -----

  /** `first` to `last` is exactly `n` whole consecutive billing periods. */
  predicate WholePeriods(first: Date, last: Date, n: nat, c: Option<int>)
    requires Valid(first) && Valid(last) && n >= 1
    decreases n
  {
    var p := ResolveCurrentPeriod(first, c);
    && p.fromDate == first
    && if n == 1 then p.toDate == last
       else Valid(p.toDate) && WholePeriods(NextDay(p.toDate), last, n - 1, c)
  }

  /** The first day of the retained window: `cycles` anchors back, the boundary's own included. */
  function WindowStart(boundary: Date, cycles: int, c: Option<int>): Date {
    Anchor(StartMonth(boundary, c) - (Max(1, cycles) - 1), c)
  }

  lemma {:induction false} AnchorsSpanWholePeriods(month: int, n: nat, c: Option<int>)
    requires n >= 1
    ensures WholePeriods(Anchor(month, c), PrevDay(Anchor(month + n, c)), n, c)
    decreases n
  {
    AnchorResolves(month, c);
    ResolveIsAnchorGap(Anchor(month, c), c);
    DayStep(Anchor(month + 1, c));
    if n > 1 {
      AnchorsSpanWholePeriods(month + 1, n - 1, c);
      assert month + 1 + (n - 1) == month + n;
    }
  }

  lemma {:induction false} WholePeriodsStartOnAnchor(first: Date, last: Date, n: nat, c: Option<int>)
    requires Valid(first) && Valid(last) && n >= 1 && WholePeriods(first, last, n, c)
    ensures first == Anchor(first.month, c) && last == PrevDay(Anchor(first.month + n, c))
    decreases n
  {
    ResolveIsAnchorGap(first, c);
    assert first == Anchor(first.month, c) && StartMonth(first, c) == first.month;
    if n > 1 {
      var next := Anchor(first.month + 1, c);
      DayStep(next);
      WholePeriodsStartOnAnchor(next, last, n - 1, c);
      assert next.month + (n - 1) == first.month + n;
    }
  }

  /** The window is `cycles` whole periods ending with the boundary's, and no other first day is. */
  lemma WindowIsWholePeriods(boundary: Date, cycles: int, c: Option<int>, first: Date)
    requires Valid(boundary) && Valid(first)
    ensures Valid(ResolveCurrentPeriod(boundary, c).toDate)
    ensures WholePeriods(first, ResolveCurrentPeriod(boundary, c).toDate, Max(1, cycles), c)
       <==> first == WindowStart(boundary, cycles, c)
  {
    var n := Max(1, cycles);
    var s := StartMonth(boundary, c);
    var last := ResolveCurrentPeriod(boundary, c).toDate;
    ResolveIsAnchorGap(boundary, c);
    AnchorsSpanWholePeriods(s - (n - 1), n, c);
    assert s - (n - 1) + n == s + 1;
    if WholePeriods(first, last, n, c) {
      WholePeriodsStartOnAnchor(first, last, n, c);
      DayStep(Anchor(s + 1, c));
      DayStep(Anchor(first.month + n, c));
      assert Anchor(s + 1, c) == NextDay(last) == Anchor(first.month + n, c);
      assert s + 1 == first.month + n;
    }
  }

  /** The cycle walk, one period per pass. */
  method WalkBack(boundary: Date, cycles: int, c: Option<int>) returns (start: Date)
    requires Valid(boundary)
    ensures start == WindowStart(boundary, cycles, c)
  {
    ResolveIsAnchorGap(boundary, c);
    start := PeriodStart(boundary, c);
    var i := 1;
    while i < cycles
      invariant 1 <= i <= Max(1, cycles)
      invariant start == Anchor(StartMonth(boundary, c) - (i - 1), c)
    {
      PredecessorResolves(start.month, c);
      var prevEnd := PrevDay(start);
      start := PeriodStart(prevEnd, c);
      i := i + 1;
    }
  }

  /** The unmemoised answer. */
  function Floor(g: Group, cycles: int): Option<Date> {
    if g.retentionPurgeThrough.None? then None else
      var c := g.billingCycleStartDay;
      var start := WindowStart(DateOfMillis(g.retentionPurgeThrough.value), cycles, c);
      if g.createdAt.None? then Some(start) else
        var created := DateOfMillis(g.createdAt.value);
        if g.firstSchedulePublishedAt.Some?
           && NotAfter(start, PeriodStart(DateOfMillis(g.firstSchedulePublishedAt.value), c)) then
          Some(created)
        else
          Some(if NotAfter(created, start) then start else created)
  }

  /**
   * The floor is never before the group's creation, never before the window unless the group
   * is still in its first published window, and equals one of the two.
   */
  lemma FloorBounds(g: Group, cycles: int)
    requires g.retentionPurgeThrough.Some?
    ensures var start := WindowStart(DateOfMillis(g.retentionPurgeThrough.value), cycles, g.billingCycleStartDay);
            var r := Floor(g, cycles);
            && r.Some?
            && (g.createdAt.None? ==> r.value == start)
            && (g.createdAt.Some? ==>
                  var created := DateOfMillis(g.createdAt.value);
                  && NotAfter(created, r.value)
                  && (r.value == created || r.value == start)
                  && (!NotAfter(start, r.value) <==>
                        && !NotAfter(start, created)
                        && g.firstSchedulePublishedAt.Some?
                        && NotAfter(start, PeriodStart(DateOfMillis(g.firstSchedulePublishedAt.value),
                            g.billingCycleStartDay))))
  {
  }

  // ----- the text of the memo key -----

  function Digits(n: nat): string {
    if n < 10 then ["0123456789"[n]] else Digits(n / 10) + ["0123456789"[n % 10]]
  }

  function Decimal(n: int): string {
    if n < 0 then "-" + Digits(-n) else Digits(n)
  }

  function OptDecimal(o: Option<int>): string {
    if o.Some? then Decimal(o.value) else ""
  }

  function Key(g: Group, cycles: int): string
    requires g.retentionPurgeThrough.Some?
  {
    Decimal(g.retentionPurgeThrough.value) + "|" + (OptDecimal(g.billingCycleStartDay) + "|" +
      (OptDecimal(g.createdAt) + "|" + (OptDecimal(g.firstSchedulePublishedAt) + "|" + Decimal(cycles))))
  }

  lemma {:induction false} DigitsAreDigits(n: nat)
    ensures Digits(n) != "" && forall k :: 0 <= k < |Digits(n)| ==> '0' <= Digits(n)[k] <= '9'
  {
    if n >= 10 {
      DigitsAreDigits(n / 10);
    }
  }

  lemma LastDigit(n: nat)
    ensures Digits(n) != "" && Digits(n)[|Digits(n)| - 1] == "0123456789"[n % 10]
    ensures n >= 10 ==> Digits(n)[..|Digits(n)| - 1] == Digits(n / 10)
    ensures |Digits(n)| == 1 <==> n < 10
  {
    if n >= 10 { DigitsAreDigits(n / 10); }
  }

  lemma DigitCharInjective(a: int, b: int)
    requires 0 <= a < 10 && 0 <= b < 10 && "0123456789"[a] == "0123456789"[b]
    ensures a == b
  {
  }

  lemma {:induction false} DigitsInjective(m: nat, n: nat)
    requires Digits(m) == Digits(n)
    ensures m == n
  {
    LastDigit(m);
    LastDigit(n);
    DigitCharInjective(m % 10, n % 10);
    if m >= 10 {
      DigitsInjective(m / 10, n / 10);
    }
  }

  lemma OptDecimalInjective(a: Option<int>, b: Option<int>)
    ensures '|' !in OptDecimal(a)
    ensures OptDecimal(a) == OptDecimal(b) ==> a == b
  {
    if a.Some? { DigitsAreDigits(if a.value < 0 then -a.value else a.value); }
    if b.Some? { DigitsAreDigits(if b.value < 0 then -b.value else b.value); }
    if a.Some? && b.Some? && Decimal(a.value) == Decimal(b.value) {
      var m := if a.value < 0 then -a.value else a.value;
      var n := if b.value < 0 then -b.value else b.value;
      assert Decimal(a.value)[0] == '-' <==> a.value < 0;
      assert Decimal(b.value)[0] == '-' <==> b.value < 0;
      if a.value < 0 {
        assert Digits(m) == Decimal(a.value)[1..] && Digits(n) == Decimal(b.value)[1..];
      }
      DigitsInjective(m, n);
    }
  }

  /** No two inputs share a memo entry. */
  lemma KeyInjective(g: Group, m: int, h: Group, n: int)
    requires g.retentionPurgeThrough.Some? && h.retentionPurgeThrough.Some?
    requires Key(g, m) == Key(h, n)
    ensures g == h && m == n
  {
    OptDecimalInjective(g.retentionPurgeThrough, h.retentionPurgeThrough);
    OptDecimalInjective(h.retentionPurgeThrough, g.retentionPurgeThrough);
    OptDecimalInjective(g.billingCycleStartDay, h.billingCycleStartDay);
    OptDecimalInjective(h.billingCycleStartDay, g.billingCycleStartDay);
    OptDecimalInjective(g.createdAt, h.createdAt);
    OptDecimalInjective(h.createdAt, g.createdAt);
    OptDecimalInjective(g.firstSchedulePublishedAt, h.firstSchedulePublishedAt);
    OptDecimalInjective(h.firstSchedulePublishedAt, g.firstSchedulePublishedAt);
    OptDecimalInjective(Some(m), Some(n));
    var g4, h4 := Decimal(m), Decimal(n);
    var g3, h3 := OptDecimal(g.firstSchedulePublishedAt) + "|" + g4, OptDecimal(h.firstSchedulePublishedAt) + "|" + h4;
    var g2, h2 := OptDecimal(g.createdAt) + "|" + g3, OptDecimal(h.createdAt) + "|" + h3;
    var g1, h1 := OptDecimal(g.billingCycleStartDay) + "|" + g2, OptDecimal(h.billingCycleStartDay) + "|" + h2;
    CutAtBar(OptDecimal(g.retentionPurgeThrough), g1, OptDecimal(h.retentionPurgeThrough), h1);
    CutAtBar(OptDecimal(g.billingCycleStartDay), g2, OptDecimal(h.billingCycleStartDay), h2);
    CutAtBar(OptDecimal(g.createdAt), g3, OptDecimal(h.createdAt), h3);
    CutAtBar(OptDecimal(g.firstSchedulePublishedAt), g4, OptDecimal(h.firstSchedulePublishedAt), h4);
  }

  const MEMO_MAX := 5000

  /** The process-wide memo. Its invariant makes every later call equal the unmemoised function. */
  class Memo {
    var memo: map<string, Option<Date>>

    ghost predicate Valid()
      reads this
    {
      && |memo| <= MEMO_MAX
      && forall g: Group, cycles: int :: g.retentionPurgeThrough.Some? && Key(g, cycles) in memo ==>
           memo[Key(g, cycles)] == Floor(g, cycles)
    }

    constructor ()
      ensures Valid() && memo == map[]
    {
      memo := map[];
    }

    method Clear()
      modifies this
      ensures Valid() && memo == map[]
    {
      memo := map[];
    }

    method RetainedDataFrom(g: Group, cycles: int) returns (r: Option<Date>)
      requires Valid()
      modifies this
      ensures Valid()
      ensures r == Floor(g, cycles)
    {
      if g.retentionPurgeThrough.None? {
        return None;
      }
      var key := Key(g, cycles);
      if key in memo {
        return memo[key];
      }
      r := ComputeRetainedDataFrom(g, cycles);
      if |memo| >= MEMO_MAX {
        memo := map[];
      }
      assert |memo[key := r]| <= |memo| + 1;
      memo := memo[key := r];
      forall h: Group, n: int | h.retentionPurgeThrough.Some? && Key(h, n) == key
        ensures h == g && n == cycles
      {
        KeyInjective(h, n, g, cycles);
      }
    }
  }

  method ComputeRetainedDataFrom(g: Group, cycles: int) returns (r: Option<Date>)
    ensures r == Floor(g, cycles)
  {
    if g.retentionPurgeThrough.None? {
      return None;
    }
    var cycleDay := g.billingCycleStartDay;
    var start := WalkBack(DateOfMillis(g.retentionPurgeThrough.value), cycles, cycleDay);
    if g.firstSchedulePublishedAt.Some? && g.createdAt.Some? {
      var pubCycleStart := PeriodStart(DateOfMillis(g.firstSchedulePublishedAt.value), cycleDay);
      if NotAfter(start, pubCycleStart) {
        return Some(DateOfMillis(g.createdAt.value));
      }
    }
    if g.createdAt.Some? && !NotAfter(DateOfMillis(g.createdAt.value), start) {
      return Some(DateOfMillis(g.createdAt.value));
    }
    return Some(start);
  }
}
