/**
 * The period lock: every billing write whose date lies in a finalised period is refused,
 * so the figures captured when a period was finalised stay the figures of its rows.
 */
module PeriodLock {
  import opened Prelude
  import opened Ledger
  import opened CarryForward
  import RefundCap

  /** A member's correction request. */
  datatype Request = Request(id: string, userId: UserId, approved: bool)

  /** One group's billing tables. Periods and ledger entries are identified by position. */
  datatype State = State(t: Tables, periods: seq<Period>, requests: seq<Request>, policy: Policy)

  predicate Covers(p: Period, day: int) {
    p.start <= day <= p.end
  }

  predicate DateFinalized(periods: seq<Period>, day: int) {
    exists i :: 0 <= i < |periods| && periods[i].finalized && Covers(periods[i], day)
  }

  predicate Overlaps(p: Period, q: Period) {
    p.start <= q.end && q.start <= p.end
  }

  predicate OverlapsFinalized(periods: seq<Period>, start: int, end: int) {
    exists i :: 0 <= i < |periods| && periods[i].finalized && periods[i].start <= end && start <= periods[i].end
  }

  // ----- attendance rows are unique by (user, meal, date) -----

  predicate SameKey(a: Attendance, b: Attendance) {
    a.userId == b.userId && a.mealId == b.mealId && a.date == b.date
  }

  function IndexOf(rows: seq<Attendance>, x: Attendance): (k: nat)
    ensures k <= |rows|
    ensures k < |rows| ==> SameKey(rows[k], x)
    ensures forall i :: 0 <= i < k ==> !SameKey(rows[i], x)
  {
    if rows == [] then 0 else if SameKey(rows[0], x) then 0 else 1 + IndexOf(rows[1..], x)
  }

  function Upsert(rows: seq<Attendance>, x: Attendance): seq<Attendance> {
    var k := IndexOf(rows, x);
    if k < |rows| then rows[k := x] else rows + [x]
  }

  function UpsertAll(rows: seq<Attendance>, xs: seq<Attendance>): seq<Attendance> {
    if xs == [] then rows else Upsert(UpsertAll(rows, xs[..|xs| - 1]), xs[|xs| - 1])
  }

  // ----- the operations -----

  datatype Op =
    | Mark(row: Attendance)                       // a member's mark, or a consented change
    | BulkMark(rows: seq<Attendance>)
    | CreateAdjustment(entry: Entry)
    | Decide(index: nat, member: UserId, approve: bool, today: int)
    | EditGuests(guests: seq<Guest>)
    | EditRequests(requests: seq<Request>)        // filed, approved or declined elsewhere
    | SetPolicy(policy: Policy)
    | Finalize(start: int, end: int, today: int, members: seq<SnapRow>)
    | Reopen(index: nat)
    | Refinalize(index: nat, members: seq<SnapRow>)
    | Sweep(rows: seq<Attendance>)                // system rows; the worker asks no lock

  datatype Outcome =
    Done | PeriodFinalized | ConsentRequired | OverRefund | NotFound | NotYours | AlreadyDecided
    | EndBeforeStart | InTheFuture | PeriodOverlap | WrongStatus

  predicate AnyLocked(periods: seq<Period>, rows: seq<Attendance>) {
    exists i :: 0 <= i < |rows| && DateFinalized(periods, rows[i].date)
  }

  /** The request exists, belongs to the member and is approved; no other group or use is asked about. */
  predicate Approves(requests: seq<Request>, id: string, member: UserId) {
    exists i :: 0 <= i < |requests| && requests[i] == Request(id, member, true)
  }

  /** The member's all-time position, as the refund cap reads it. */
  function NetOf(s: State, u: UserId): int {
    RefundCap.MemberNet(RefundCap.Account(u, s.t.attendance, s.t.guests, s.policy), s.t.ledger)
  }

  function Do(s: State, op: Op): (State, Outcome) {
    match op
    case Mark(row) =>
      if DateFinalized(s.periods, row.date) then (s, PeriodFinalized)
      else (s.(t := s.t.(attendance := Upsert(s.t.attendance, row))), Done)
    case BulkMark(rows) =>
      if AnyLocked(s.periods, rows) then (s, PeriodFinalized)
      else (s.(t := s.t.(attendance := UpsertAll(s.t.attendance, rows))), Done)
    case CreateAdjustment(e) =>
      if e.kind == Debit && Truthy(e.request) && !Approves(s.requests, e.request.value, e.userId) then
          (s, ConsentRequired)
      else if DateFinalized(s.periods, e.entryDate) then (s, PeriodFinalized)
      else if e.kind == Refund && !RefundCap.Accepts(NetOf(s, e.userId), e.amount) then (s, OverRefund)
      else
        var status := if e.kind == Debit && !Truthy(e.request) then AwaitingMember else Posted;
        (s.(t := s.t.(ledger := s.t.ledger + [e.(status := status)])), Done)
    case Decide(i, member, approve, today) =>
      if i >= |s.t.ledger| then (s, NotFound)
      else
        var e := s.t.ledger[i];
        if e.userId != member then (s, NotYours)
        else if e.status != AwaitingMember then (s, AlreadyDecided)
        else if !approve then (s.(t := s.t.(ledger := s.t.ledger[i := e.(status := Rejected)])), Done)
        else if !DateFinalized(s.periods, e.entryDate) then
          (s.(t := s.t.(ledger := s.t.ledger[i := e.(status := Posted)])), Done)
        else if DateFinalized(s.periods, today) then (s, PeriodFinalized)
        else (s.(t := s.t.(ledger := s.t.ledger[i := e.(status := Posted, entryDate := today)])), Done)
    case EditGuests(guests) => (s.(t := s.t.(guests := guests)), Done)
    case EditRequests(requests) => (s.(requests := requests), Done)
    case SetPolicy(policy) => (s.(policy := policy), Done)
    case Finalize(start, end, today, rows) =>
      if end < start then (s, EndBeforeStart)
      else if end > today then (s, InTheFuture)
      else if OverlapsFinalized(s.periods, start, end) then (s, PeriodOverlap)
      else (s.(periods := s.periods + [Period(start, end, true, Some(rows))]), Done)
    case Reopen(i) =>
      if i >= |s.periods| then (s, NotFound)
      else if !s.periods[i].finalized then (s, WrongStatus)
      else (s.(periods := s.periods[i := s.periods[i].(finalized := false)]), Done)
    case Refinalize(i, rows) =>
      if i >= |s.periods| then (s, NotFound)
      else if s.periods[i].finalized then (s, WrongStatus)
      else (s.(periods := s.periods[i := s.periods[i].(finalized := true, snapshot := Some(rows))]), Done)
    case Sweep(rows) => (s.(t := s.t.(attendance := UpsertAll(s.t.attendance, rows))), Done)
  }

  /** Snapshots are true when taken; sweeps write only on days that are not finalised. */
  ghost predicate Permitted(s: State, op: Op) {
    match op
    case Finalize(start, end, _, rows) => SnapshotOf(rows, s.periods, s.t, s.policy, start, end)
    case Refinalize(i, rows) =>
      i < |s.periods| ==> SnapshotOf(rows, s.periods, s.t, s.policy, s.periods[i].start, s.periods[i].end)
    case Sweep(rows) => !AnyLocked(s.periods, rows)
    case _ => true
  }

  // ----- what finalising promises -----

  /** Recomputing the period's billed amounts and adjustments gives the snapshot's figures. */
  ghost predicate FiguresHold(t: Tables, p: Period) {
    && Readable(p.snapshot)
    && DistinctUsers(p.snapshot.value)
    && (forall i :: 0 <= i < |p.snapshot.value| ==>
          var row := p.snapshot.value[i];
          && row.billedAmount == BilledIn(t, row.userId.value, p.start, p.end)
          && row.adjustments == AdjustmentsIn(t, row.userId.value, p.start, p.end))
    && (forall u :: !Listed(p.snapshot.value, u) ==>
          BilledIn(t, u, p.start, p.end) == 0 && AdjustmentsIn(t, u, p.start, p.end) == 0)
  }

  ghost predicate FinalisedFiguresHold(s: State) {
    forall i :: 0 <= i < |s.periods| && s.periods[i].finalized ==> FiguresHold(s.t, s.periods[i])
  }

  lemma SnapshotHolds(rows: seq<SnapRow>, periods: seq<Period>, t: Tables, policy: Policy, start: int, end: int)
    requires SnapshotOf(rows, periods, t, policy, start, end)
    ensures FiguresHold(t, Period(start, end, true, Some(rows)))
  {
    SnapshotReadable(rows, periods, t, policy, start, end);
    forall i | 0 <= i < |rows|
      ensures rows[i].billedAmount == BilledIn(t, rows[i].userId.value, start, end)
      ensures rows[i].adjustments == AdjustmentsIn(t, rows[i].userId.value, start, end)
    {
      assert TrueLine(rows[i], periods, t, policy, start, end);
    }
    forall u | !Listed(rows, u) ensures BilledIn(t, u, start, end) == 0 && AdjustmentsIn(t, u, start, end) == 0 {
      assert ListedIfAny(rows, periods, t, policy, start, end, u);
    }
  }

  lemma SameSumsSameFigures(t: Tables, t': Tables, p: Period)
    requires forall u :: BilledIn(t, u, p.start, p.end) == BilledIn(t', u, p.start, p.end)
    requires forall u :: PaiseIn(t, u, p.start, p.end) == PaiseIn(t', u, p.start, p.end)
    ensures FiguresHold(t, p) <==> FiguresHold(t', p)
  {
    if FiguresHold(t, p) || FiguresHold(t', p) {
      forall u ensures AdjustmentsIn(t, u, p.start, p.end) == AdjustmentsIn(t', u, p.start, p.end) {}
    }
  }

  function Part(c: Charge, u: UserId, r: Range): int {
    if c.userId == u && r.Has(c.date) then c.amount else 0
  }

  lemma {:induction false} TotalUpdate<T>(rows: seq<T>, i: nat, x: T, charge: T -> Charge, u: UserId, r: Range)
    requires i < |rows|
    ensures Total(rows[i := x], charge, u, r)
         == Total(rows, charge, u, r) - Part(charge(rows[i]), u, r) + Part(charge(x), u, r)
  {
    var n := |rows| - 1;
    if i == n {
      assert rows[i := x][..n] == rows[..n];
    } else {
      assert rows[i := x][..n] == rows[..n][i := x];
      TotalUpdate(rows[..n], i, x, charge, u, r);
    }
  }

  lemma UpsertOutside(rows: seq<Attendance>, x: Attendance, u: UserId, a: int, b: int)
    requires !(a <= x.date <= b)
    ensures Total(Upsert(rows, x), MealCharge, u, Between(a, b)) == Total(rows, MealCharge, u, Between(a, b))
  {
    var k := IndexOf(rows, x);
    if k < |rows| {
      TotalUpdate(rows, k, x, MealCharge, u, Between(a, b));
    } else {
      TotalAppend(rows, x, MealCharge, u, Between(a, b));
    }
  }

  lemma {:induction false} UpsertAllOutside(rows: seq<Attendance>, xs: seq<Attendance>, u: UserId, a: int, b: int)
    requires forall i :: 0 <= i < |xs| ==> !(a <= xs[i].date <= b)
    ensures Total(UpsertAll(rows, xs), MealCharge, u, Between(a, b)) == Total(rows, MealCharge, u, Between(a, b))
  {
    if xs != [] {
      UpsertAllOutside(rows, xs[..|xs| - 1], u, a, b);
      UpsertOutside(UpsertAll(rows, xs[..|xs| - 1]), xs[|xs| - 1], u, a, b);
    }
  }

  /** A guarded write leaves the sums of every finalised period alone. */
  lemma WriteKeepsSums(s: State, op: Op, p: Period, u: UserId)
    requires !op.Finalize? && !op.Reopen? && !op.Refinalize?
    requires Permitted(s, op)
    requires p in s.periods && p.finalized
    ensures var t' := Do(s, op).0.t;
            && BilledIn(s.t, u, p.start, p.end) == BilledIn(t', u, p.start, p.end)
            && PaiseIn(s.t, u, p.start, p.end) == PaiseIn(t', u, p.start, p.end)
  {
    var r := Between(p.start, p.end);
    forall d | Covers(p, d) ensures DateFinalized(s.periods, d) {
      var i :| 0 <= i < |s.periods| && s.periods[i] == p;
    }
    match op
    case Mark(row) =>
      if !DateFinalized(s.periods, row.date) { UpsertOutside(s.t.attendance, row, u, p.start, p.end); }
    case BulkMark(rows) =>
      if !AnyLocked(s.periods, rows) { UpsertAllOutside(s.t.attendance, rows, u, p.start, p.end); }
    case Sweep(rows) =>
      UpsertAllOutside(s.t.attendance, rows, u, p.start, p.end);
    case CreateAdjustment(e) =>
      TotalAppend(s.t.ledger, e.(status := Posted), LedgerCharge, u, r);
      TotalAppend(s.t.ledger, e.(status := AwaitingMember), LedgerCharge, u, r);
    case Decide(i, _, _, today) =>
      if i < |s.t.ledger| {
        var e := s.t.ledger[i];
        TotalUpdate(s.t.ledger, i, e.(status := Rejected), LedgerCharge, u, r);
        TotalUpdate(s.t.ledger, i, e.(status := Posted), LedgerCharge, u, r);
        TotalUpdate(s.t.ledger, i, e.(status := Posted, entryDate := today), LedgerCharge, u, r);
      }
    case _ =>
  }

  lemma StepKeepsFigures(s: State, op: Op)
    requires FinalisedFiguresHold(s) && Permitted(s, op)
    ensures FinalisedFiguresHold(Do(s, op).0)
  {
    var s' := Do(s, op).0;
    match op
    case Finalize(start, end, _, rows) => SnapshotHolds(rows, s.periods, s.t, s.policy, start, end);
    case Reopen(_) =>
    case Refinalize(i, rows) =>
      if i < |s.periods| { SnapshotHolds(rows, s.periods, s.t, s.policy, s.periods[i].start, s.periods[i].end); }
    case _ =>
      forall i | 0 <= i < |s.periods| && s.periods[i].finalized ensures FiguresHold(s'.t, s.periods[i]) {
        var p := s.periods[i];
        forall u { WriteKeepsSums(s, op, p, u); }
        SameSumsSameFigures(s.t, s'.t, p);
      }
  }

  // ----- whole runs -----

  function After(s: State, run: seq<Op>): State {
    if run == [] then s else Do(After(s, run[..|run| - 1]), run[|run| - 1]).0
  }

  ghost predicate PermittedRun(s: State, run: seq<Op>) {
    run != [] ==> PermittedRun(s, run[..|run| - 1]) && Permitted(After(s, run[..|run| - 1]), run[|run| - 1])
  }

  /** Over every run of guarded writers and finalise, reopen and refinalise, finalised figures stay true. */
  lemma {:induction false} FinalisedFiguresAreFrozen(s: State, run: seq<Op>)
    requires s.periods == [] && PermittedRun(s, run)
    ensures FinalisedFiguresHold(After(s, run))
  {
    if run != [] {
      FinalisedFiguresAreFrozen(s, run[..|run| - 1]);
      StepKeepsFigures(After(s, run[..|run| - 1]), run[|run| - 1]);
    }
  }

  /** Approving a debit whose date was locked meanwhile posts it, whole, on an open day. */
  lemma ApprovedDebitLandsOnOpenDay(s: State, i: nat, member: UserId, today: int, u: UserId, day: int)
    requires Do(s, Decide(i, member, true, today)).1 == Done
    ensures var s' := Do(s, Decide(i, member, true, today)).0;
            && i < |s.t.ledger| && s.t.ledger[i].userId == member
            && s'.t.ledger[i].status == Posted
            && !DateFinalized(s'.periods, s'.t.ledger[i].entryDate)
            && (s'.t.ledger[i].entryDate != s.t.ledger[i].entryDate ==>
                  DateFinalized(s.periods, s.t.ledger[i].entryDate) && s'.t.ledger[i].entryDate == today)
            && PaiseIn(s'.t, u, day, day) == PaiseIn(s.t, u, day, day)
                 + (if u == member && day == s'.t.ledger[i].entryDate
                    then (if s.t.ledger[i].kind == Credit then -s.t.ledger[i].amount else s.t.ledger[i].amount) else 0)
  {
    var e := s.t.ledger[i];
    TotalUpdate(s.t.ledger, i, e.(status := Posted), LedgerCharge, u, Between(day, day));
    TotalUpdate(s.t.ledger, i, e.(status := Posted, entryDate := today), LedgerCharge, u, Between(day, day));
  }

  /** A decision is final: a second one, either way, is turned away and changes nothing. */
  lemma DecisionIsFinal(s: State, i: nat, member: UserId, approve: bool, today: int, again: bool, later: int)
    requires Do(s, Decide(i, member, approve, today)).1 == Done
    ensures var s' := Do(s, Decide(i, member, approve, today)).0;
            Do(s', Decide(i, member, again, later)) == (s', AlreadyDecided)
  {
  }

  /** A rejected debit changes no member's ledger sum over any dates. */
  lemma RejectedDebitNeverBills(s: State, i: nat, member: UserId, today: int, u: UserId, r: Range)
    requires Do(s, Decide(i, member, false, today)).1 == Done
    ensures Total(Do(s, Decide(i, member, false, today)).0.t.ledger, LedgerCharge, u, r)
            == Total(s.t.ledger, LedgerCharge, u, r)
  {
    TotalUpdate(s.t.ledger, i, s.t.ledger[i].(status := Rejected), LedgerCharge, u, r);
  }

  // ----- debits need the member's consent -----

  /** The step is the member's approval of entry `i`, or posts it under an approved request of the member. */
  predicate ConsentsTo(before: State, op: Op, i: nat, member: UserId) {
    match op
    case Decide(index, who, approve, _) => index == i && who == member && approve
    case CreateAdjustment(e) =>
      |before.t.ledger| == i && e.userId == member && Truthy(e.request)
          && Approves(before.requests, e.request.value, member)
    case _ => false
  }

  lemma StepNeedsConsent(s: State, op: Op, i: nat)
    requires i < |Do(s, op).0.t.ledger|
    ensures var e := Do(s, op).0.t.ledger[i];
            e.kind == Debit && e.status == Posted ==>
              || ConsentsTo(s, op, i, e.userId)
              || (i < |s.t.ledger| && s.t.ledger[i] == e)
    ensures i < |s.t.ledger| ==> Do(s, op).0.t.ledger[i].userId == s.t.ledger[i].userId
    ensures i < |s.t.ledger| ==> Do(s, op).0.t.ledger[i].request == s.t.ledger[i].request
  {
  }

  /**
   * Every posted debit that a run created was approved in that run by the member it bills, or names a
   * request which, when it was posted, was an approved request of that member.
   */
  lemma {:induction false} DebitsNeedConsent(s: State, run: seq<Op>, i: nat)
    requires |s.t.ledger| <= i < |After(s, run).t.ledger|
    requires After(s, run).t.ledger[i].kind == Debit && After(s, run).t.ledger[i].status == Posted
    ensures exists k :: 0 <= k < |run| && ConsentsTo(After(s, run[..k]), run[k], i, After(s, run).t.ledger[i].userId)
              && (run[k].CreateAdjustment? ==> run[k].entry.request == After(s, run).t.ledger[i].request)
  {
    var n := |run| - 1;
    var before := After(s, run[..n]);
    StepNeedsConsent(before, run[n], i);
    if !ConsentsTo(before, run[n], i, After(s, run).t.ledger[i].userId) {
      DebitsNeedConsent(s, run[..n], i);
      var k :| 0 <= k < n && ConsentsTo(After(s, run[..n][..k]), run[..n][k], i, before.t.ledger[i].userId)
               && (run[..n][k].CreateAdjustment? ==> run[..n][k].entry.request == before.t.ledger[i].request);
      assert run[..n][..k] == run[..k];
    }
  }

  function DebitOf(u: UserId, day: int, request: string, amount: int): Entry {
    Entry(u, day, Debit, amount, Posted, Some(request))
  }

  /** One debit for each amount, all under the same request; and the requests that post them. */
  function Debits(u: UserId, day: int, request: string, amounts: seq<int>): seq<Entry> {
    if amounts == [] then [] else
      Debits(u, day, request, amounts[..|amounts| - 1]) + [DebitOf(u, day, request, amounts[|amounts| - 1])]
  }

  function DebitRun(u: UserId, day: int, request: string, amounts: seq<int>): seq<Op> {
    if amounts == [] then [] else
      DebitRun(u, day, request, amounts[..|amounts| - 1])
          + [CreateAdjustment(DebitOf(u, day, request, amounts[|amounts| - 1]))]
  }

  lemma DebitPosts(s: State, e: Entry)
    requires e.kind == Debit && e.status == Posted && Truthy(e.request)
    requires Approves(s.requests, e.request.value, e.userId) && !DateFinalized(s.periods, e.entryDate)
    ensures Do(s, CreateAdjustment(e)) == (s.(t := s.t.(ledger := s.t.ledger + [e])), Done)
  {
  }

  /**
   * A request is never used up: one approved request of a member lets an admin post any number of
   * debits of any amounts on an open day, and the member's ledger grows by all of them.
   */
  lemma {:induction false} OneRequestPostsAnyDebits(s: State, u: UserId, day: int, request: string, amounts: seq<int>)
    requires request != "" && Approves(s.requests, request, u) && !DateFinalized(s.periods, day)
    ensures After(s, DebitRun(u, day, request, amounts))
         == s.(t := s.t.(ledger := s.t.ledger + Debits(u, day, request, amounts)))
    ensures Total(s.t.ledger + Debits(u, day, request, amounts), LedgerCharge, u, Between(day, day))
         == PaiseIn(s.t, u, day, day) + SumPaise(amounts)
  {
    if amounts == [] {
      assert s.t.ledger + [] == s.t.ledger;
    } else {
      var n := |amounts| - 1;
      var e := DebitOf(u, day, request, amounts[n]);
      OneRequestPostsAnyDebits(s, u, day, request, amounts[..n]);
      var before := After(s, DebitRun(u, day, request, amounts[..n]));
      NextStep(s, DebitRun(u, day, request, amounts[..n]), CreateAdjustment(e));
      DebitPosts(before, e);
      assert before.t.ledger + [e] == s.t.ledger + Debits(u, day, request, amounts);
      TotalAppend(before.t.ledger, e, LedgerCharge, u, Between(day, day));
    }
  }

  // ----- the sweep does not ask the lock -----

  /** Rows one sweep writes: new rows of distinct members for one meal and day, all alike. */
  predicate SweepBatch(rows: seq<Attendance>, existing: seq<Attendance>, meal: string, day: int, price: Option<int>) {
    && (forall i :: 0 <= i < |rows| ==>
          rows[i].mealId == meal && rows[i].date == day && rows[i].price == price
          && (rows[i].status == Present || rows[i].status == Skipped))
    && (forall i, j :: 0 <= i < j < |rows| ==> rows[i].userId != rows[j].userId)
    && (forall i, j :: 0 <= i < |rows| && 0 <= j < |existing| ==> !SameKey(existing[j], rows[i]))
  }

  lemma {:induction false} SweepAppends(rows: seq<Attendance>, existing: seq<Attendance>, meal: string, day: int,
                                        price: Option<int>)
    requires SweepBatch(rows, existing, meal, day, price)
    ensures UpsertAll(existing, rows) == existing + rows
  {
    if rows != [] {
      SweepAppends(rows[..|rows| - 1], existing, meal, day, price);
      assert existing + rows == existing + rows[..|rows| - 1] + [rows[|rows| - 1]];
    }
  }

  predicate WritesFor(rows: seq<Attendance>, u: UserId) {
    exists i :: 0 <= i < |rows| && rows[i].userId == u
  }

  lemma WritesForAppend(rows: seq<Attendance>, x: Attendance, u: UserId)
    ensures WritesFor(rows + [x], u) <==> WritesFor(rows, u) || x.userId == u
  {
    var all := rows + [x];
    assert all[|rows|] == x;
    if WritesFor(rows, u) {
      var i :| 0 <= i < |rows| && rows[i].userId == u;
      assert all[i].userId == u;
    }
  }

  lemma {:induction false} SweepAdds(rows: seq<Attendance>, existing: seq<Attendance>, meal: string, day: int,
                                     price: Option<int>,
                                     u: UserId, a: int, b: int)
    requires SweepBatch(rows, existing, meal, day, price) && a <= day <= b
    ensures Total(existing + rows, MealCharge, u, Between(a, b))
         == Total(existing, MealCharge, u, Between(a, b)) + (if WritesFor(rows, u) then price.GetOr(0) else 0)
  {
    if rows == [] {
      assert existing + rows == existing;
    } else {
      var n := |rows| - 1;
      var rest, last := rows[..n], rows[n];
      assert rest + [last] == rows;
      SweepAdds(rest, existing, meal, day, price, u, a, b);
      WritesForAppend(rest, last, u);
      assert last.userId == u ==> !WritesFor(rest, u);
      assert existing + rows == (existing + rest) + [last];
      TotalAppend(existing + rest, last, MealCharge, u, Between(a, b));
    }
  }

  /**
   * A sweep on a day inside a finalised period keeps that period's figures exactly when it
   * writes nothing or its rows cost nothing. Finalising through today leaves room for this.
   */
  lemma SweepOnFinalisedDay(s: State, p: Period, rows: seq<Attendance>, meal: string, day: int, price: Option<int>)
    requires p in s.periods && p.finalized && Covers(p, day) && FiguresHold(s.t, p)
    requires SweepBatch(rows, s.t.attendance, meal, day, price)
    ensures FiguresHold(Do(s, Sweep(rows)).0.t, p) <==> rows == [] || price.GetOr(0) == 0
  {
    var t' := Do(s, Sweep(rows)).0.t;
    SweepAppends(rows, s.t.attendance, meal, day, price);
    forall u { SweepAdds(rows, s.t.attendance, meal, day, price, u, p.start, p.end); }
    if rows == [] || price.GetOr(0) == 0 {
      SameSumsSameFigures(s.t, t', p);
    } else {
      var u := rows[0].userId;
      assert BilledIn(t', u, p.start, p.end) == BilledIn(s.t, u, p.start, p.end) + price.GetOr(0);
      if Listed(p.snapshot.value, u) {
        var i :| 0 <= i < |p.snapshot.value| && p.snapshot.value[i].userId == Some(u);
      }
    }
  }

  // ----- are finalised periods disjoint? -----

  predicate FinalisedDisjoint(periods: seq<Period>) {
    forall i, j :: 0 <= i < j < |periods| && periods[i].finalized && periods[j].finalized ==>
      !Overlaps(periods[i], periods[j])
  }

  /** Every operation but refinalise keeps finalised periods disjoint. */
  lemma OtherStepsKeepDisjoint(s: State, op: Op)
    requires FinalisedDisjoint(s.periods) && !op.Refinalize?
    ensures FinalisedDisjoint(Do(s, op).0.periods)
  {
  }

  /** Refinalise does not look for overlaps: it keeps disjointness exactly when there is none. */
  lemma RefinaliseKeepsDisjointIff(s: State, i: nat, rows: seq<SnapRow>)
    requires FinalisedDisjoint(s.periods) && i < |s.periods| && !s.periods[i].finalized
    ensures FinalisedDisjoint(Do(s, Refinalize(i, rows)).0.periods)
       <==> !OverlapsFinalized(s.periods, s.periods[i].start, s.periods[i].end)
  {
    var ps := Do(s, Refinalize(i, rows)).0.periods;
    if OverlapsFinalized(s.periods, s.periods[i].start, s.periods[i].end) {
      var j :| 0 <= j < |s.periods| && s.periods[j].finalized
               && s.periods[j].start <= s.periods[i].end && s.periods[i].start <= s.periods[j].end;
      assert ps[j].finalized && ps[i].finalized && Overlaps(ps[i], ps[j]) && Overlaps(ps[j], ps[i]);
    }
  }

  const NOTHING := State(Tables([], [], []), [], [], Policy(false, false))

  lemma {:induction false} NoFigures(periods: seq<Period>, start: int, end: int)
    requires forall i :: 0 <= i < |periods| ==> periods[i].snapshot == Some([])
    ensures SnapshotOf([], periods, NOTHING.t, NOTHING.policy, start, end)
  {
    forall u ensures ListedIfAny([], periods, NOTHING.t, NOTHING.policy, start, end, u) {
      var last := LastFinalBefore(periods, start);
      if last.Some? { LastFinalIsOne(periods, start); }
    }
  }

  lemma {:induction false} LastFinalIsOne(periods: seq<Period>, fromDate: int)
    requires LastFinalBefore(periods, fromDate).Some?
    ensures LastFinalBefore(periods, fromDate).value in periods
  {
    var rest := periods[..|periods| - 1];
    if LastFinalBefore(periods, fromDate) == LastFinalBefore(rest, fromDate) { LastFinalIsOne(rest, fromDate); }
  }

  lemma NextStep(s: State, run: seq<Op>, op: Op)
    ensures After(s, run + [op]) == Do(After(s, run), op).0
    ensures PermittedRun(s, run) && Permitted(After(s, run), op) ==> PermittedRun(s, run + [op])
  {
    assert (run + [op])[..|run|] == run;
  }

  /** Finalise, reopen, finalise an overlapping range, refinalise: two overlapping locks. */
  lemma OverlapIsReachable()
    ensures var run := [Finalize(1, 31, 99, []), Reopen(0), Finalize(15, 45, 99, []), Refinalize(0, [])];
            PermittedRun(NOTHING, run) && !FinalisedDisjoint(After(NOTHING, run).periods)
  {
    var a, b, c, d := Finalize(1, 31, 99, []), Reopen(0), Finalize(15, 45, 99, []), Refinalize(0, []);
    NoFigures([], 1, 31);
    NextStep(NOTHING, [], a);
    NextStep(NOTHING, [a], b);
    var s2 := After(NOTHING, [a] + [b]);
    assert s2.periods == [Period(1, 31, false, Some([]))];
    NoFigures(s2.periods, 15, 45);
    NextStep(NOTHING, [a] + [b], c);
    var s3 := After(NOTHING, [a] + [b] + [c]);
    assert s3.periods == [Period(1, 31, false, Some([])), Period(15, 45, true, Some([]))];
    NoFigures(s3.periods, 1, 31);
    NextStep(NOTHING, [a] + [b] + [c], d);
    assert [] + [a] == [a] && [a] + [b] + [c] + [d] == [a, b, c, d];
    var s4 := After(NOTHING, [a, b, c, d]);
    assert s4.periods[0].finalized && s4.periods[1].finalized && Overlaps(s4.periods[0], s4.periods[1]);
  }

  lemma SweepOnEmptyPeriod(s: State, p: Period, row: Attendance)
    requires s.t == NOTHING.t && s.periods == [p] && p == Period(1, 31, true, Some([]))
    requires row.date == 31 && row.status == Present && row.price == Some(50)
    ensures FiguresHold(s.t, p) && !FiguresHold(Do(s, Sweep([row])).0.t, p)
  {
    assert p in s.periods;
    SweepOnFinalisedDay(s, p, [row], row.mealId, 31, Some(50));
  }

  /** Finalise through today, then today's sweep runs: the period's figures are no longer its rows'. */
  lemma SweepBreaksFigures(u: UserId, meal: string)
    ensures var row := Attendance(u, meal, 31, Present, Some(50), None);
            && PermittedRun(NOTHING, [Finalize(1, 31, 31, [])])
            && FinalisedFiguresHold(After(NOTHING, [Finalize(1, 31, 31, [])]))
            && !FinalisedFiguresHold(Do(After(NOTHING, [Finalize(1, 31, 31, [])]), Sweep([row])).0)
  {
    var a, row, p := Finalize(1, 31, 31, []), Attendance(u, meal, 31, Present, Some(50), None),
        Period(1, 31, true, Some([]));
    NoFigures([], 1, 31);
    NextStep(NOTHING, [], a);
    assert [] + [a] == [a];
    var s := After(NOTHING, [a]);
    assert s.t == NOTHING.t && s.periods == [p];
    SweepOnEmptyPeriod(s, p, row);
    var s' := Do(s, Sweep([row])).0;
    assert s'.periods == [p];
    assert s'.periods[0].finalized && !FiguresHold(s'.t, s'.periods[0]);
  }

  // ----- the service object -----

  class BillingBook {
    var attendance: seq<Attendance>
    var guests: seq<Guest>
    var ledger: seq<Entry>
    var periods: seq<Period>
    var requests: seq<Request>
    var policy: Policy

    function Abs(): State
      reads this
    {
      State(Tables(attendance, guests, ledger), periods, requests, policy)
    }

    method IsDateFinalized(day: int) returns (locked: bool, periodEnd: int)
      ensures locked <==> DateFinalized(periods, day)
      ensures locked ==>
                exists i :: (0 <= i < |periods| && periods[i].finalized && Covers(periods[i], day)
                             && periods[i].end == periodEnd)
    {
      locked, periodEnd := false, 0;
      for i := 0 to |periods|
        invariant forall k :: 0 <= k < i ==> !(periods[k].finalized && Covers(periods[k], day))
      {
        if periods[i].finalized && Covers(periods[i], day) {
          return true, periods[i].end;
        }
      }
    }

    method MarkAttendance(row: Attendance) returns (out: Outcome)
      modifies this
      ensures (Abs(), out) == Do(old(Abs()), Mark(row))
    {
      var locked, _ := IsDateFinalized(row.date);
      if locked {
        return PeriodFinalized;
      }
      attendance := Upsert(attendance, row);
      return Done;
    }

    method BulkMarkAttendance(rows: seq<Attendance>) returns (out: Outcome)
      modifies this
      ensures (Abs(), out) == Do(old(Abs()), BulkMark(rows))
    {
      var checked: set<int> := {};
      for i := 0 to |rows|
        invariant Abs() == old(Abs())
        invariant forall d :: d in checked ==> !DateFinalized(periods, d)
        invariant forall k :: 0 <= k < i ==> rows[k].date in checked
      {
        if rows[i].date !in checked {
          var locked, _ := IsDateFinalized(rows[i].date);
          if locked {
            return PeriodFinalized;
          }
          checked := checked + {rows[i].date};
        }
      }
      for i := 0 to |rows|
        invariant Abs() == old(Abs()).(t := old(Abs()).t.(attendance := UpsertAll(old(attendance), rows[..i])))
      {
        assert rows[..i + 1][..i] == rows[..i];
        attendance := Upsert(attendance, rows[i]);
      }
      assert rows[..|rows|] == rows;
      return Done;
    }

    /** The approved request of this member with this id, if there is one. */
    method FindApproved(id: string, member: UserId) returns (found: bool)
      ensures found <==> Approves(requests, id, member)
    {
      for i := 0 to |requests|
        invariant forall k :: 0 <= k < i ==> requests[k] != Request(id, member, true)
      {
        if requests[i] == Request(id, member, true) {
          return true;
        }
      }
      return false;
    }

    /** The last three are the answers to the aggregates of the refund cap. */
    method CreateAdjustment(e: Entry, mealSum: Option<int>, guestSum: Option<int>, ledgerSums: seq<RefundCap.TypeSum>)
      returns (out: Outcome)
      requires e.kind == Refund ==>
                 && mealSum.GetOr(0) == Total(attendance, MealCharge, e.userId, AllTime)
                 && guestSum.GetOr(0) == Total(guests, GuestCharge(policy), e.userId, AllTime)
                 && forall k :: RefundCap.TypeTotal(ledgerSums, k) == Total(ledger, KindCharge(k), e.userId, AllTime)
      modifies this
      ensures (Abs(), out) == Do(old(Abs()), Op.CreateAdjustment(e))
    {
      var status := Posted;
      if e.kind == Debit {
        if !Truthy(e.request) {
          status := AwaitingMember;
        } else {
          var approved := FindApproved(e.request.value, e.userId);
          if !approved {
            return ConsentRequired;
          }
        }
      }
      var locked, _ := IsDateFinalized(e.entryDate);
      if locked {
        return PeriodFinalized;
      }
      if e.kind == Refund {
        var account := RefundCap.Account(e.userId, attendance, guests, policy);
        var net := RefundCap.ComputeMemberNetBalance(account, ledger, mealSum, guestSum, ledgerSums);
        var available := Max(0, -net);
        if Rupees(e.amount) > available {
          return OverRefund;
        }
      }
      ledger := ledger + [e.(status := status)];
      return Done;
    }

    method DecideAdjustment(index: nat, member: UserId, approve: bool, today: int) returns (out: Outcome)
      modifies this
      ensures (Abs(), out) == Do(old(Abs()), Decide(index, member, approve, today))
    {
      if index >= |ledger| {
        return NotFound;
      }
      var e := ledger[index];
      if e.userId != member {
        return NotYours;
      }
      if e.status != AwaitingMember {
        return AlreadyDecided;
      }
      var entryDate := e.entryDate;
      if approve {
        var locked, _ := IsDateFinalized(e.entryDate);
        if locked {
          entryDate := today;
          var todayLocked, _ := IsDateFinalized(today);
          if todayLocked {
            return PeriodFinalized;
          }
        }
      }
      ledger := ledger[index := e.(status := if approve then Posted else Rejected, entryDate := entryDate)];
      return Done;
    }

    /** The snapshot is built from the grouped queries for the period's dates and for what it carries. */
    method FinalizePeriod(start: int, end: int, today: int, q: Queries) returns (out: Outcome, members: seq<SnapRow>)
      requires Answers(q, periods, Abs().t, policy, start, end)
      modifies this
      ensures (Abs(), out) == Do(old(Abs()), Finalize(start, end, today, members))
      ensures out == Done ==> Permitted(old(Abs()), Finalize(start, end, today, members))
    {
      members := [];
      if end < start {
        return EndBeforeStart, members;
      }
      if end > today {
        return InTheFuture, members;
      }
      if OverlapsFinalized(periods, start, end) {
        return PeriodOverlap, members;
      }
      members := BuildTotalsSnapshot(periods, Abs().t, policy, start, end, q);
      periods := periods + [Period(start, end, true, Some(members))];
      return Done, members;
    }

    method ReopenPeriod(index: nat) returns (out: Outcome)
      modifies this
      ensures (Abs(), out) == Do(old(Abs()), Reopen(index))
    {
      if index >= |periods| {
        return NotFound;
      }
      if !periods[index].finalized {
        return WrongStatus;
      }
      periods := periods[index := periods[index].(finalized := false)];
      return Done;
    }

    method RefinalizePeriod(index: nat, q: Queries) returns (out: Outcome, members: seq<SnapRow>)
      requires index < |periods| ==> Answers(q, periods, Abs().t, policy, periods[index].start, periods[index].end)
      modifies this
      ensures (Abs(), out) == Do(old(Abs()), Refinalize(index, members))
      ensures out == Done ==> Permitted(old(Abs()), Refinalize(index, members))
    {
      members := [];
      if index >= |periods| {
        return NotFound, members;
      }
      var p := periods[index];
      if p.finalized {
        return WrongStatus, members;
      }
      members := BuildTotalsSnapshot(periods, Abs().t, policy, p.start, p.end, q);
      periods := periods[index := p.(finalized := true, snapshot := Some(members))];
      return Done, members;
    }
  }
}
