/**
 * What each writer of the billing book answers and changes, with its conditions written out, and what
 * the book's refunds add up to over a run.
 */
module BookAnswers {
  import opened Prelude
  import opened Ledger
  import opened CarryForward
  import opened PeriodLock
  import RefundCap

  /** A refused request changes nothing. */
  lemma RefusalChangesNothing(s: State, op: PeriodLock.Op)
    requires Do(s, op).1 != Done
    ensures Do(s, op).0 == s
  {
  }

  /** The edits made elsewhere are taken as they come: the new guests, requests or policy, and nothing else. */
  lemma EditsReplace(s: State, guests: seq<Guest>, requests: seq<Request>, policy: Policy)
    ensures Do(s, EditGuests(guests)) == (State(Tables(s.t.attendance, guests, s.t.ledger), s.periods, s.requests,
                                                s.policy), Done)
    ensures Do(s, EditRequests(requests)) == (State(s.t, s.periods, requests, s.policy), Done)
    ensures Do(s, SetPolicy(policy)) == (State(s.t, s.periods, s.requests, policy), Done)
  {
  }

  lemma LockedMeans(periods: seq<Period>, day: int)
    ensures DateFinalized(periods, day) <==> exists p :: p in periods && p.finalized && p.start <= day <= p.end
  {
    if DateFinalized(periods, day) {
      var i :| 0 <= i < |periods| && periods[i].finalized && Covers(periods[i], day);
      assert periods[i] in periods;
    }
  }

  /** The table's unique index: one row for a member, meal and date. */
  predicate UniqueKeys(rows: seq<Attendance>) {
    forall i, j :: 0 <= i < j < |rows| ==>
      rows[i].userId != rows[j].userId || rows[i].mealId != rows[j].mealId || rows[i].date != rows[j].date
  }

  /** After an upsert the row stands, every row under another key is as it was, and keys stay unique. */
  lemma UpsertReplaces(rows: seq<Attendance>, x: Attendance)
    requires UniqueKeys(rows)
    ensures UniqueKeys(Upsert(rows, x))
    ensures forall y :: y in Upsert(rows, x) <==>
              y == x || (y in rows && !(y.userId == x.userId && y.mealId == x.mealId && y.date == x.date))
  {
    var k, rows' := IndexOf(rows, x), Upsert(rows, x);
    forall y | y in rows && !SameKey(y, x) ensures y in rows' {
      var i :| 0 <= i < |rows| && rows[i] == y;
      assert rows'[i] == y;
    }
    assert rows'[k] == x;
    forall y | y in rows' && y != x ensures y in rows && !SameKey(y, x) {
      var i :| 0 <= i < |rows'| && rows'[i] == y;
      assert i != k && rows[i] == y;
    }
  }

  /** A mark is refused exactly on a locked day; otherwise the member's row for the meal is the marked one. */
  lemma MarkLands(s: State, row: Attendance)
    requires UniqueKeys(s.t.attendance)
    ensures var (s', out) := Do(s, Mark(row));
            && out == (if exists p :: p in s.periods && p.finalized && p.start <= row.date <= p.end
                       then PeriodFinalized else Done)
            && (out == Done ==>
                  && s' == s.(t := s.t.(attendance := s'.t.attendance)) && UniqueKeys(s'.t.attendance)
                  && forall y ::
                    (y in s'.t.attendance
                     <==> y == row
                          || (y in s.t.attendance
                              && !(y.userId == row.userId && y.mealId == row.mealId && y.date == row.date))))
  {
    LockedMeans(s.periods, row.date);
    UpsertReplaces(s.t.attendance, row);
  }

  /** The last row of a batch for its key. */
  predicate LastForKey(xs: seq<Attendance>, y: Attendance) {
    exists i :: 0 <= i < |xs| && xs[i] == y && forall j :: i < j < |xs| ==> !SameKey(xs[j], y)
  }

  predicate NamesKey(xs: seq<Attendance>, y: Attendance) {
    exists i :: 0 <= i < |xs| && SameKey(xs[i], y)
  }

  lemma BatchNext(xs: seq<Attendance>, x: Attendance, y: Attendance)
    ensures LastForKey(xs + [x], y) <==> y == x || (LastForKey(xs, y) && !SameKey(x, y))
    ensures NamesKey(xs + [x], y) <==> SameKey(x, y) || NamesKey(xs, y)
  {
    var all := xs + [x];
    assert all[|xs|] == x;
    if NamesKey(xs, y) {
      var i :| 0 <= i < |xs| && SameKey(xs[i], y);
      assert SameKey(all[i], y);
    }
    if LastForKey(xs, y) && !SameKey(x, y) {
      var i :| 0 <= i < |xs| && xs[i] == y && forall j :: i < j < |xs| ==> !SameKey(xs[j], y);
      assert all[i] == y && forall j :: i < j < |all| ==> !SameKey(all[j], y);
    }
    if LastForKey(all, y) && y != x {
      var i :| 0 <= i < |all| && all[i] == y && forall j :: i < j < |all| ==> !SameKey(all[j], y);
      assert i < |xs| && !SameKey(all[|xs|], y);
      forall j | i < j < |xs| ensures !SameKey(xs[j], y) { assert all[j] == xs[j]; }
      assert xs[i] == y;
    }
  }

  /** A batch leaves the last row it has for each key, and every row whose key it does not name. */
  lemma {:induction false} UpsertAllReplaces(rows: seq<Attendance>, xs: seq<Attendance>)
    requires UniqueKeys(rows)
    ensures UniqueKeys(UpsertAll(rows, xs))
    ensures forall y :: y in UpsertAll(rows, xs) <==> LastForKey(xs, y) || (y in rows && !NamesKey(xs, y))
  {
    if xs != [] {
      var n := |xs| - 1;
      UpsertAllReplaces(rows, xs[..n]);
      UpsertReplaces(UpsertAll(rows, xs[..n]), xs[n]);
      assert xs == xs[..n] + [xs[n]];
      forall y ensures y in UpsertAll(rows, xs) <==> LastForKey(xs, y) || (y in rows && !NamesKey(xs, y)) {
        BatchNext(xs[..n], xs[n], y);
      }
    }
  }

  /** A batch is refused whole exactly when one of its dates is locked. The sweep's rows are never refused. */
  lemma BatchLands(s: State, rows: seq<Attendance>)
    requires UniqueKeys(s.t.attendance)
    ensures Do(s, BulkMark(rows)).1
         == if exists x, p :: x in rows && p in s.periods && p.finalized && p.start <= x.date <= p.end
            then PeriodFinalized else Done
    ensures Do(s, Sweep(rows)).1 == Done
    ensures Do(s, BulkMark(rows)).1 == Done ==> Do(s, BulkMark(rows)).0 == Do(s, Sweep(rows)).0
    ensures var s' := Do(s, Sweep(rows)).0;
            && s' == s.(t := s.t.(attendance := s'.t.attendance)) && UniqueKeys(s'.t.attendance)
            && forall y :: y in s'.t.attendance
                 <==> LastForKey(rows, y) || (y in s.t.attendance && !NamesKey(rows, y))
  {
    UpsertAllReplaces(s.t.attendance, rows);
    if AnyLocked(s.periods, rows) {
      var i :| 0 <= i < |rows| && DateFinalized(s.periods, rows[i].date);
      LockedMeans(s.periods, rows[i].date);
      assert rows[i] in rows;
    }
    forall x, p | x in rows && p in s.periods && p.finalized && p.start <= x.date <= p.end
      ensures AnyLocked(s.periods, rows)
    {
      LockedMeans(s.periods, x.date);
      var i :| 0 <= i < |rows| && rows[i] == x;
    }
  }

  /**
   * Every answer to a new adjustment. A debit that names a request needs that request approved and the
   * member's own; then the day must be open; then a refund must be within the member's credit. What is
   * stored is the entry: a debit without a request waits for the member, anything else is posted.
   */
  lemma AdjustmentAnswers(s: State, e: Entry)
    ensures var (s', out) := Do(s, PeriodLock.Op.CreateAdjustment(e));
            var net := Total(s.t.attendance, MealCharge, e.userId, AllTime)
                + Total(s.t.guests, GuestCharge(s.policy), e.userId, AllTime)
                + Rupees(Total(s.t.ledger, LedgerCharge, e.userId, AllTime));
            var named := e.request.Some? && e.request.value != "";
            && out == (if e.kind == Debit && named && Request(e.request.value, e.userId, true) !in s.requests
                       then ConsentRequired
                       else if exists p :: p in s.periods && p.finalized && p.start <= e.entryDate <= p.end
                       then PeriodFinalized
                       else if e.kind == Refund && Rupees(e.amount) > (if net < 0 then -net else 0) then OverRefund
                       else Done)
            && (out == Done ==> s' == s.(t := s.t.(ledger := s.t.ledger
                  + [Entry(e.userId, e.entryDate, e.kind, e.amount,
                           if e.kind == Debit && !named then AwaitingMember else Posted, e.request)])))
  {
    LockedMeans(s.periods, e.entryDate);
    if e.request.Some? && Request(e.request.value, e.userId, true) in s.requests {
      var i :| 0 <= i < |s.requests| && s.requests[i] == Request(e.request.value, e.userId, true);
    }
  }

  // ----- refunds on the book -----

  /** A refund that is accepted, and does not round down, never leaves the member owing. */
  lemma AcceptedRefundNeverOwes(s: State, e: Entry)
    requires e.kind == Refund && e.amount > 0 && RefundCap.RoundsUp(e.amount)
    requires Do(s, PeriodLock.Op.CreateAdjustment(e)).1 == Done
    ensures var t := Do(s, PeriodLock.Op.CreateAdjustment(e)).0.t;
            Total(t.attendance, MealCharge, e.userId, AllTime)
            + Total(t.guests, GuestCharge(s.policy), e.userId, AllTime)
            + Rupees(Total(t.ledger, LedgerCharge, e.userId, AllTime)) <= 0
  {
    AdjustmentAnswers(s, e);
    TotalAppend(s.t.ledger, e.(status := Posted), LedgerCharge, e.userId, AllTime);
    var charges := NetOf(s, e.userId) - Rupees(Total(s.t.ledger, LedgerCharge, e.userId, AllTime));
    RefundCap.RefundIsCapped(charges, Total(s.t.ledger, LedgerCharge, e.userId, AllTime), e.amount);
  }

  /** The step leaves this member's rows alone: other members' marks, entries and decisions, and the periods. */
  predicate LeavesMember(op: PeriodLock.Op, u: UserId) {
    match op
    case Mark(row) => row.userId != u
    case BulkMark(rows) => forall i :: 0 <= i < |rows| ==> rows[i].userId != u
    case Sweep(rows) => forall i :: 0 <= i < |rows| ==> rows[i].userId != u
    case CreateAdjustment(e) => e.userId != u
    case Decide(_, member, _, _) => member != u
    case EditGuests(_) => false
    case SetPolicy(_) => false
    case _ => true
  }

  predicate WholeRefundOf(op: PeriodLock.Op, u: UserId) {
    op.CreateAdjustment? && op.entry.userId == u && op.entry.kind == Refund && op.entry.amount > 0
    && op.entry.amount % 100 == 0
  }

  /** What the run's accepted refunds paid the member, in paise. */
  function Paid(s: State, run: seq<PeriodLock.Op>, u: UserId): int {
    if run == [] then 0 else
      var before, op := PeriodLock.After(s, run[..|run| - 1]), run[|run| - 1];
      Paid(s, run[..|run| - 1], u) + (if WholeRefundOf(op, u) && Do(before, op).1 == Done then op.entry.amount else 0)
  }

  lemma UpsertOfOthers(rows: seq<Attendance>, x: Attendance, u: UserId)
    requires x.userId != u
    ensures Total(Upsert(rows, x), MealCharge, u, AllTime) == Total(rows, MealCharge, u, AllTime)
  {
    var k := IndexOf(rows, x);
    if k < |rows| {
      TotalUpdate(rows, k, x, MealCharge, u, AllTime);
    } else {
      TotalAppend(rows, x, MealCharge, u, AllTime);
    }
  }

  lemma {:induction false} UpsertAllOfOthers(rows: seq<Attendance>, xs: seq<Attendance>, u: UserId)
    requires forall i :: 0 <= i < |xs| ==> xs[i].userId != u
    ensures Total(UpsertAll(rows, xs), MealCharge, u, AllTime) == Total(rows, MealCharge, u, AllTime)
  {
    if xs != [] {
      UpsertAllOfOthers(rows, xs[..|xs| - 1], u);
      UpsertOfOthers(UpsertAll(rows, xs[..|xs| - 1]), xs[|xs| - 1], u);
    }
  }

  lemma OthersKeepNet(s: State, op: PeriodLock.Op, u: UserId)
    requires LeavesMember(op, u)
    ensures NetOf(Do(s, op).0, u) == NetOf(s, u)
  {
    match op
    case Mark(row) => UpsertOfOthers(s.t.attendance, row, u);
    case BulkMark(rows) => UpsertAllOfOthers(s.t.attendance, rows, u);
    case Sweep(rows) => UpsertAllOfOthers(s.t.attendance, rows, u);
    case CreateAdjustment(e) =>
      TotalAppend(s.t.ledger, e.(status := Posted), LedgerCharge, u, AllTime);
      TotalAppend(s.t.ledger, e.(status := AwaitingMember), LedgerCharge, u, AllTime);
    case Decide(i, _, _, today) =>
      if i < |s.t.ledger| {
        var e := s.t.ledger[i];
        TotalUpdate(s.t.ledger, i, e.(status := Rejected), LedgerCharge, u, AllTime);
        TotalUpdate(s.t.ledger, i, e.(status := Posted), LedgerCharge, u, AllTime);
        TotalUpdate(s.t.ledger, i, e.(status := Posted, entryDate := today), LedgerCharge, u, AllTime);
      }
    case _ =>
  }

  lemma RefundMovesNet(s: State, e: Entry)
    requires e.kind == Refund && e.amount > 0 && e.amount % 100 == 0
    ensures var (s', out) := Do(s, PeriodLock.Op.CreateAdjustment(e));
            && NetOf(s', e.userId) == NetOf(s, e.userId) + (if out == Done then e.amount / 100 else 0)
            && (out == Done ==> NetOf(s', e.userId) <= 0)
  {
    if Do(s, PeriodLock.Op.CreateAdjustment(e)).1 == Done {
      AdjustmentAnswers(s, e);
      AcceptedRefundNeverOwes(s, e);
      TotalAppend(s.t.ledger, e.(status := Posted), LedgerCharge, e.userId, AllTime);
      RefundCap.RupeesShift(Total(s.t.ledger, LedgerCharge, e.userId, AllTime), e.amount / 100);
    }
  }

  /**
   * Over every run in which the member's other rows stay fixed, whatever happens to other members and to
   * the periods, the accepted whole-rupee refunds never total more than the credit there was.
   */
  lemma {:induction false} RefundsStayWithinCredit(s: State, run: seq<PeriodLock.Op>, u: UserId)
    requires forall k :: 0 <= k < |run| ==> LeavesMember(run[k], u) || WholeRefundOf(run[k], u)
    ensures NetOf(PeriodLock.After(s, run), u) == NetOf(s, u) + Paid(s, run, u) / 100
    ensures Paid(s, run, u) % 100 == 0 && 0 <= Paid(s, run, u) <= 100 * Max(0, -NetOf(s, u))
  {
    if run != [] {
      var n := |run| - 1;
      RefundsStayWithinCredit(s, run[..n], u);
      var before, op := PeriodLock.After(s, run[..n]), run[n];
      assert LeavesMember(op, u) || WholeRefundOf(op, u);
      if WholeRefundOf(op, u) {
        RefundMovesNet(before, op.entry);
      } else {
        OthersKeepNet(before, op, u);
      }
    }
  }

  // ----- decisions and periods -----

  /** Every answer to a decision; a decided entry keeps all but its status and, if its day was locked, its date. */
  lemma DecisionAnswers(s: State, i: nat, member: UserId, approve: bool, today: int)
    ensures var (s', out) := Do(s, Decide(i, member, approve, today));
            var locked := (day: int) => exists p :: p in s.periods && p.finalized && p.start <= day <= p.end;
            && out == (if i >= |s.t.ledger| then NotFound
                       else if s.t.ledger[i].userId != member then NotYours
                       else if s.t.ledger[i].status != AwaitingMember then AlreadyDecided
                       else if approve && locked(s.t.ledger[i].entryDate) && locked(today) then PeriodFinalized
                       else Done)
            && (out == Done ==>
                  var e := s.t.ledger[i];
                  s' == s.(t := s.t.(ledger := s.t.ledger[i := e.(
                    status := if approve then Posted else Rejected,
                    entryDate := if approve && locked(e.entryDate) then today else e.entryDate)])))
  {
    LockedMeans(s.periods, today);
    if i < |s.t.ledger| { LockedMeans(s.periods, s.t.ledger[i].entryDate); }
  }

  /** Every answer to the three period operations, and the one period each of them changes. */
  lemma PeriodAnswers(s: State, i: nat, start: int, end: int, today: int, rows: seq<SnapRow>)
    ensures Do(s, Finalize(start, end, today, rows))
         == if end < start then (s, EndBeforeStart)
            else if today < end then (s, InTheFuture)
            else if exists p :: p in s.periods && p.finalized && p.start <= end && start <= p.end
            then (s, PeriodOverlap)
            else (s.(periods := s.periods + [Period(start, end, true, Some(rows))]), Done)
    ensures Do(s, Reopen(i)).1
         == if i >= |s.periods| then NotFound else if s.periods[i].finalized then Done else WrongStatus
    ensures Do(s, Refinalize(i, rows)).1
         == if i >= |s.periods| then NotFound else if s.periods[i].finalized then WrongStatus else Done
    ensures i < |s.periods| ==>
              && Do(s, Reopen(i)).0.periods == s.periods[i := s.periods[i].(finalized := false)]
              && (Do(s, Refinalize(i, rows)).1 == Done ==>
                    Do(s, Refinalize(i, rows)).0.periods
                    == s.periods[i := Period(s.periods[i].start, s.periods[i].end, true, Some(rows))])
    ensures Do(s, Reopen(i)).0 == s.(periods := Do(s, Reopen(i)).0.periods)
    ensures Do(s, Refinalize(i, rows)).0 == s.(periods := Do(s, Refinalize(i, rows)).0.periods)
  {
    if OverlapsFinalized(s.periods, start, end) {
      var k :| 0 <= k < |s.periods| && s.periods[k].finalized && s.periods[k].start <= end && start <= s.periods[k].end;
      assert s.periods[k] in s.periods;
    }
  }
}
