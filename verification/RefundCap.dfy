/**
 * Refunds are capped at the member's credit. The check and the insert run inside one
 * transaction under a per-member advisory lock; here any number of such transactions
 * interleave, while the member's other rows stay fixed.
 */
module RefundCap {
  import opened Prelude
  import opened Ledger

  /** The member whose refunds race, and the rows that do not change meanwhile. */
  datatype Account = Account(userId: UserId, attendance: seq<Attendance>, guests: seq<Guest>, policy: Policy)

  function Charges(a: Account): int {
    Total(a.attendance, MealCharge, a.userId, AllTime) + Total(a.guests, GuestCharge(a.policy), a.userId, AllTime)
  }

  /** All-time net position in whole rupees, payable-positive. */
  function MemberNet(a: Account, ledger: seq<Entry>): int {
    Charges(a) + Rupees(Total(ledger, LedgerCharge, a.userId, AllTime))
  }

  /** A meal moves the net by its price exactly when it bills. */
  lemma MealMovesNet(a: Account, ledger: seq<Entry>, x: Attendance)
    ensures MemberNet(a.(attendance := a.attendance + [x]), ledger) - MemberNet(a, ledger)
         == if x.userId == a.userId && x.price.Some?
               && (x.status in {Present, Skipped} || (x.status == Absent && x.billAbsent == Some(true)))
            then x.price.value else 0
  {
    TotalAppend(a.attendance, x, MealCharge, a.userId, AllTime);
  }

  lemma GuestMovesNet(a: Account, ledger: seq<Entry>, x: Guest)
    ensures MemberNet(a.(guests := a.guests + [x]), ledger) - MemberNet(a, ledger)
         == if x.hostUserId == a.userId && x.priceSnapshot.Some?
               && a.policy.guestAttendanceEnabled && !x.pendingApproval
               && (x.status == Booked || (x.status == NoShow && a.policy.billNoShowGuests))
            then x.priceSnapshot.value else 0
  {
    TotalAppend(a.guests, x, GuestCharge(a.policy), a.userId, AllTime);
  }

  /** A whole-rupee entry moves the net by its rupees, down for a credit, once it is posted. */
  lemma EntryMovesNet(a: Account, ledger: seq<Entry>, x: Entry, rupees: int)
    requires x.amount == 100 * rupees
    ensures MemberNet(a, ledger + [x]) - MemberNet(a, ledger)
         == if x.userId == a.userId && x.status == Posted then (if x.kind == Credit then -rupees else rupees) else 0
  {
    TotalAppend(ledger, x, LedgerCharge, a.userId, AllTime);
    var paise := Total(ledger, LedgerCharge, a.userId, AllTime);
    RupeesShift(paise, rupees);
    RupeesShift(paise, -rupees);
  }

  lemma RupeesShift(paise: int, rupees: int)
    ensures Rupees(paise + 100 * rupees) == Rupees(paise) + rupees
  {
  }

  function Available(net: int): int {
    Max(0, -net)
  }

  /** A row of `groupBy type` for one member. */
  datatype TypeSum = TypeSum(kind: EntryType, sum: Option<int>)

  function TypeTotal(rows: seq<TypeSum>, k: EntryType): int {
    if rows == [] then 0 else
      TypeTotal(rows[..|rows| - 1], k) + (if rows[|rows| - 1].kind == k then rows[|rows| - 1].sum.GetOr(0) else 0)
  }

  predicate OnePerKind(rows: seq<TypeSum>) {
    forall i, j :: 0 <= i < j < |rows| ==> rows[i].kind != rows[j].kind
  }

  lemma {:induction false} NoTypeTotal(rows: seq<TypeSum>, k: EntryType)
    requires forall r :: r in rows ==> r.kind != k
    ensures TypeTotal(rows, k) == 0
  {
    if rows != [] { NoTypeTotal(rows[..|rows| - 1], k); }
  }

  /** A grouped answer gives a type the sum of its row, and zero for a missing sum or no row. */
  lemma {:induction false} GroupedByType(rows: seq<TypeSum>, i: nat)
    requires OnePerKind(rows) && i < |rows|
    ensures TypeTotal(rows, rows[i].kind) == match rows[i].sum case Some(n) => n case None => 0
  {
    var rest := rows[..|rows| - 1];
    if i == |rows| - 1 { NoTypeTotal(rest, rows[i].kind); } else { GroupedByType(rest, i); }
  }

  /** The net position out of three aggregates; the ledger is signed, summed, and rounded once. */
  method ComputeMemberNetBalance(a: Account, ghost entries: seq<Entry>,
                                 mealSum: Option<int>, guestSum: Option<int>, ledger: seq<TypeSum>) returns (net: int)
    requires mealSum.GetOr(0) == Total(a.attendance, MealCharge, a.userId, AllTime)
    requires guestSum.GetOr(0) == Total(a.guests, GuestCharge(a.policy), a.userId, AllTime)
    requires forall k :: TypeTotal(ledger, k) == Total(entries, KindCharge(k), a.userId, AllTime)
    ensures net == MemberNet(a, entries)
  {
    var adjPaise := 0;
    for i := 0 to |ledger|
      invariant adjPaise == TypeTotal(ledger[..i], Debit) + TypeTotal(ledger[..i], Refund)
                - TypeTotal(ledger[..i], Credit)
    {
      assert ledger[..i + 1][..i] == ledger[..i];
      adjPaise := adjPaise + ledger[i].sum.GetOr(0) * (if ledger[i].kind == Credit then -1 else 1);
    }
    assert ledger[..|ledger|] == ledger;
    LedgerByKind(entries, a.userId, AllTime);
    return mealSum.GetOr(0) + guestSum.GetOr(0) + Rupees(adjPaise);
  }

  // ----- one refund -----

  /** A refund entry is accepted when its rounded amount is within the credit. */
  predicate Accepts(net: int, amount: int) {
    Rupees(amount) <= Available(net)
  }

  /** Accepting `amount` never leaves the member owing, whatever the account looked like. */
  ghost predicate NeverOverRefunds(amount: int) {
    forall charges: int, paise: int :: Capped(charges, paise, amount)
  }

  predicate Capped(charges: int, paise: int, amount: int) {
    Accepts(charges + Rupees(paise), amount) ==> charges + Rupees(paise + amount) <= 0
  }

  /** An amount the cap is sound for: whole rupees, or a fraction that rounds up. */
  predicate RoundsUp(amount: int) {
    amount % 100 == 0 || amount % 100 >= 50
  }

  /**
   * The cap is sound for exactly the amounts that do not round down. For any other amount it fails a
   * member without charges whose ledger is the rounded credit with 49 paise hidden below the rounding.
   */
  lemma CapSoundIffRoundsUp(amount: int)
    requires amount > 0
    ensures NeverOverRefunds(amount) <==> RoundsUp(amount)
    ensures !RoundsUp(amount) ==> !Capped(0, 49 - 100 * Rupees(amount), amount)
  {
    if RoundsUp(amount) {
      forall charges: int, paise: int ensures Capped(charges, paise, amount) {
        if Accepts(charges + Rupees(paise), amount) { RefundIsCapped(charges, paise, amount); }
      }
    } else {
      assert !Capped(0, 49 - 100 * Rupees(amount), amount);
    }
  }

  lemma RefundIsCapped(charges: int, paise: int, amount: int)
    requires amount > 0 && RoundsUp(amount)
    requires Accepts(charges + Rupees(paise), amount)
    ensures charges + Rupees(paise + amount) <= 0
  {
    assert Rupees(amount) >= 1;
    assert Rupees(paise + amount) <= Rupees(paise) + Rupees(amount);
  }

  // ----- interleaved transactions -----

  function RefundEntry(a: Account, day: int, amount: int): Entry {
    Entry(a.userId, day, Refund, amount, Posted, None)
  }

  datatype Tx =
    | Waiting(amount: int)
    | Locked(amount: int)
    | Checked(amount: int, net: int)
    | Inserted(amount: int)
    | Committed(amount: int)
    | Refused(amount: int)

  /** `ledger` is what other transactions can see; `holder` holds the advisory lock. */
  datatype State = State(ledger: seq<Entry>, holder: Option<nat>, txs: map<nat, Tx>)

  datatype Op =
    | Begin(id: nat, amount: int)
    | TakeLock(id: nat)
    | ReadNet(id: nat)
    | Decide(id: nat)
    | Commit(id: nat, day: int)
    | Crash(id: nat)

  function Step(a: Account, s: State, op: Op): State {
    match op
    case Begin(id, amount) =>
      if id in s.txs then s else s.(txs := s.txs[id := Waiting(amount)])
    case TakeLock(id) =>
      if id in s.txs && s.txs[id].Waiting? && s.holder.None?
      then s.(holder := Some(id), txs := s.txs[id := Locked(s.txs[id].amount)]) else s
    case ReadNet(id) =>
      if id in s.txs && s.txs[id].Locked?
      then s.(txs := s.txs[id := Checked(s.txs[id].amount, MemberNet(a, s.ledger))]) else s
    case Decide(id) =>
      if !(id in s.txs && s.txs[id].Checked?) then s
      else if Accepts(s.txs[id].net, s.txs[id].amount) then s.(txs := s.txs[id := Inserted(s.txs[id].amount)])
      else s.(holder := None, txs := s.txs[id := Refused(s.txs[id].amount)])
    case Commit(id, day) =>
      if id in s.txs && s.txs[id].Inserted?
      then State(s.ledger + [RefundEntry(a, day, s.txs[id].amount)], None,
                 s.txs[id := Committed(s.txs[id].amount)])
      else s
    case Crash(id) =>
      if id in s.txs && (s.txs[id].Locked? || s.txs[id].Checked? || s.txs[id].Inserted?)
      then s.(holder := None, txs := s.txs[id := Refused(s.txs[id].amount)]) else s
  }

  function After(a: Account, ledger: seq<Entry>, run: seq<Op>): State {
    if run == [] then State(ledger, None, map[])
    else Step(a, After(a, ledger, run[..|run| - 1]), run[|run| - 1])
  }

  /** Every refund asked for is a positive amount the cap is sound for. */
  predicate Amounts(run: seq<Op>) {
    forall i :: 0 <= i < |run| && run[i].Begin? ==> run[i].amount > 0 && RoundsUp(run[i].amount)
  }

  predicate WholeRupees(run: seq<Op>) {
    forall i :: 0 <= i < |run| && run[i].Begin? ==> run[i].amount % 100 == 0
  }

  /** Refunds committed so far, in paise. */
  function Refunded(s: State, ledger: seq<Entry>): int
    requires |ledger| <= |s.ledger|
  {
    Amount(s.ledger[|ledger|..])
  }

  function Amount(entries: seq<Entry>): int {
    if entries == [] then 0 else Amount(entries[..|entries| - 1]) + entries[|entries| - 1].amount
  }

  predicate InCriticalSection(tx: Tx) {
    tx.Locked? || tx.Checked? || tx.Inserted?
  }

  ghost predicate Inv(a: Account, ledger: seq<Entry>, s: State) {
    && (forall id :: id in s.txs && InCriticalSection(s.txs[id]) ==> s.holder == Some(id))
    && (forall id :: id in s.txs ==> s.txs[id].amount > 0 && RoundsUp(s.txs[id].amount))
    && (forall id :: id in s.txs && s.txs[id].Checked? ==> s.txs[id].net == MemberNet(a, s.ledger))
    && (forall id :: id in s.txs && s.txs[id].Inserted? ==> Accepts(MemberNet(a, s.ledger), s.txs[id].amount))
    && |ledger| <= |s.ledger| && s.ledger[..|ledger|] == ledger
    && (s.ledger == ledger || MemberNet(a, s.ledger) <= 0)
  }

  lemma CommitKeepsCap(a: Account, ledger: seq<Entry>, s: State, op: Op)
    requires Inv(a, ledger, s) && op.Commit? && op.id in s.txs && s.txs[op.id].Inserted?
    ensures MemberNet(a, Step(a, s, op).ledger) <= 0
  {
    var amount := s.txs[op.id].amount;
    TotalAppend(s.ledger, RefundEntry(a, op.day, amount), LedgerCharge, a.userId, AllTime);
    RefundIsCapped(Charges(a), Total(s.ledger, LedgerCharge, a.userId, AllTime), amount);
  }

  lemma StepKeepsInv(a: Account, ledger: seq<Entry>, s: State, op: Op)
    requires Inv(a, ledger, s)
    requires op.Begin? ==> op.amount > 0 && RoundsUp(op.amount)
    ensures Inv(a, ledger, Step(a, s, op))
  {
    if Commits(s, op) {
      CommitKeepsCap(a, ledger, s, op);
    } else {
      assert Step(a, s, op).ledger == s.ledger;
    }
  }

  lemma {:induction false} RunKeepsInv(a: Account, ledger: seq<Entry>, run: seq<Op>)
    requires Amounts(run)
    ensures Inv(a, ledger, After(a, ledger, run))
  {
    if run != [] {
      RunKeepsInv(a, ledger, run[..|run| - 1]);
      StepKeepsInv(a, ledger, After(a, ledger, run[..|run| - 1]), run[|run| - 1]);
    }
  }

  // ----- the lock and the ends of a transaction -----

  /** The lock is held exactly by the transaction that is between taking it and its end, in every run. */
  lemma {:induction false} LockIsHeldByTheActive(a: Account, ledger: seq<Entry>, run: seq<Op>, id: nat)
    ensures var s := After(a, ledger, run);
            s.holder == Some(id) <==> id in s.txs && (s.txs[id].Locked? || s.txs[id].Checked? || s.txs[id].Inserted?)
  {
    if run != [] {
      var before, op := After(a, ledger, run[..|run| - 1]), run[|run| - 1];
      LockIsHeldByTheActive(a, ledger, run[..|run| - 1], id);
      LockIsHeldByTheActive(a, ledger, run[..|run| - 1], op.id);
    }
  }

  /** A transaction that was committed or refused stays so: it never runs again, so it pays at most once. */
  lemma FinishedIsFinal(a: Account, s: State, op: Op, id: nat)
    requires id in s.txs && (s.txs[id].Committed? || s.txs[id].Refused?)
    ensures id in Step(a, s, op).txs && Step(a, s, op).txs[id] == s.txs[id]
    ensures op.id == id ==> Step(a, s, op) == s
  {
  }

  /**
   * A transaction that has the lock and finds too little credit is refused, and one that crashes anywhere
   * before its commit leaves nothing behind; both give the lock back.
   */
  lemma UnpaidLeavesNothing(a: Account, s: State, id: nat)
    requires id in s.txs && (s.txs[id].Locked? || s.txs[id].Checked? || s.txs[id].Inserted?)
    ensures Step(a, s, Crash(id)) == State(s.ledger, None, s.txs[id := Refused(s.txs[id].amount)])
    ensures s.txs[id].Locked? && Rupees(s.txs[id].amount) > (if MemberNet(a, s.ledger) < 0 then -MemberNet(a, s.ledger)
                                                            else 0)
            ==> Step(a, Step(a, s, ReadNet(id)), Decide(id))
                == State(s.ledger, None, s.txs[id := Refused(s.txs[id].amount)])
  {
  }

  // ----- what was paid out -----

  /** The visible ledger is the initial one and the committed refunds. */
  ghost predicate OnlyRefundsAdded(a: Account, ledger: seq<Entry>, s: State) {
    && |ledger| <= |s.ledger|
    && Total(s.ledger, LedgerCharge, a.userId, AllTime)
       == Total(ledger, LedgerCharge, a.userId, AllTime) + Refunded(s, ledger)
  }

  predicate AllWhole(ledger: seq<Entry>, s: State) {
    && |ledger| <= |s.ledger| && Refunded(s, ledger) % 100 == 0
    && forall id :: id in s.txs ==> s.txs[id].amount % 100 == 0
  }

  lemma AmountAppend(entries: seq<Entry>, k: nat, e: Entry)
    requires k <= |entries|
    ensures Amount((entries + [e])[k..]) == Amount(entries[k..]) + e.amount
  {
    var paid := entries[k..];
    assert (entries + [e])[k..] == paid + [e];
    assert (paid + [e])[..|paid|] == paid;
  }

  predicate Commits(s: State, op: Op) {
    op.Commit? && op.id in s.txs && s.txs[op.id].Inserted?
  }

  /** Only a commit changes the visible ledger: it appends one posted refund. */
  lemma LedgerAfterStep(a: Account, s: State, op: Op)
    ensures Step(a, s, op).ledger ==
            if op.Commit? && op.id in s.txs && s.txs[op.id].Inserted?
            then s.ledger + [Entry(a.userId, op.day, Refund, s.txs[op.id].amount, Posted, None)] else s.ledger
  {
  }

  lemma StepAddsRefund(a: Account, ledger: seq<Entry>, s: State, op: Op)
    requires OnlyRefundsAdded(a, ledger, s)
    ensures OnlyRefundsAdded(a, ledger, Step(a, s, op))
    ensures Refunded(Step(a, s, op), ledger)
            == Refunded(s, ledger) + (if Commits(s, op) then s.txs[op.id].amount else 0)
  {
    LedgerAfterStep(a, s, op);
    if Commits(s, op) {
      var e := RefundEntry(a, op.day, s.txs[op.id].amount);
      TotalAppend(s.ledger, e, LedgerCharge, a.userId, AllTime);
      AmountAppend(s.ledger, |ledger|, e);
    }
  }

  lemma StepKeepsWhole(a: Account, ledger: seq<Entry>, s: State, op: Op)
    requires OnlyRefundsAdded(a, ledger, s) && AllWhole(ledger, s)
    requires op.Begin? ==> op.amount % 100 == 0
    ensures |ledger| <= |Step(a, s, op).ledger| && AllWhole(ledger, Step(a, s, op))
  {
    StepAddsRefund(a, ledger, s, op);
    if Commits(s, op) { WholeSum(Refunded(s, ledger), s.txs[op.id].amount); }
  }

  lemma WholeSum(x: int, y: int)
    ensures x % 100 == 0 && y % 100 == 0 ==> (x + y) % 100 == 0
  {
  }

  lemma {:induction false} RunAddsRefunds(a: Account, ledger: seq<Entry>, run: seq<Op>)
    ensures OnlyRefundsAdded(a, ledger, After(a, ledger, run))
    ensures WholeRupees(run) ==> AllWhole(ledger, After(a, ledger, run))
  {
    if run != [] {
      RunAddsRefunds(a, ledger, run[..|run| - 1]);
      var s := After(a, ledger, run[..|run| - 1]);
      StepAddsRefund(a, ledger, s, run[|run| - 1]);
      if WholeRupees(run) { StepKeepsWhole(a, ledger, s, run[|run| - 1]); }
    }
  }

  /**
   * In every interleaving, each committed refund leaves the member's net at or below zero;
   * and refunds in whole rupees never total more than the credit there was.
   */
  lemma RefundsNeverExceedCredit(a: Account, ledger: seq<Entry>, run: seq<Op>)
    requires Amounts(run)
    ensures var s := After(a, ledger, run);
            && |ledger| <= |s.ledger|
            && (s.ledger != ledger ==> MemberNet(a, s.ledger) <= 0)
            && (WholeRupees(run) ==> Refunded(s, ledger) <= 100 * Available(MemberNet(a, ledger)))
  {
    RunKeepsInv(a, ledger, run);
    RunAddsRefunds(a, ledger, run);
    var s := After(a, ledger, run);
    if s.ledger == ledger {
      assert Refunded(s, ledger) == 0;
    } else if WholeRupees(run) {
      var p0, paid := Total(ledger, LedgerCharge, a.userId, AllTime), Refunded(s, ledger);
      assert Rupees(p0 + paid) == Rupees(p0) + paid / 100;
    }
  }

  function RefundTx(id: nat, amount: int): seq<Op> {
    [Begin(id, amount), TakeLock(id), ReadNet(id), Decide(id), Commit(id, 1)]
  }

  lemma AfterNext(a: Account, ledger: seq<Entry>, run: seq<Op>, op: Op)
    ensures After(a, ledger, run + [op]) == Step(a, After(a, ledger, run), op)
  {
    assert (run + [op])[..|run|] == run;
  }

  lemma RefundSteps(a: Account, s: State, id: nat, amount: int)
    requires s.holder.None? && id !in s.txs && Accepts(MemberNet(a, s.ledger), amount)
    ensures Step(a, Step(a, Step(a, Step(a, Step(a, s, Begin(id, amount)), TakeLock(id)), ReadNet(id)), Decide(id)),
            Commit(id, 1))
         == State(s.ledger + [RefundEntry(a, 1, amount)], None, s.txs[id := Committed(amount)])
  {
    var s2 := Step(a, Step(a, s, Begin(id, amount)), TakeLock(id));
    assert s2 == State(s.ledger, Some(id), s.txs[id := Locked(amount)]);
    var s4 := Step(a, Step(a, s2, ReadNet(id)), Decide(id));
    assert s4 == State(s.ledger, Some(id), s.txs[id := Inserted(amount)]);
  }

  /** One undisturbed refund transaction after a run that left the lock free. */
  lemma OneRefund(a: Account, ledger: seq<Entry>, run: seq<Op>, id: nat, amount: int)
    requires var s := After(a, ledger, run);
             s.holder.None? && id !in s.txs && Accepts(MemberNet(a, s.ledger), amount)
    ensures var s := After(a, ledger, run);
            After(a, ledger, run + RefundTx(id, amount))
            == State(s.ledger + [RefundEntry(a, 1, amount)], None, s.txs[id := Committed(amount)])
  {
    var r1 := run + [Begin(id, amount)];
    var r2 := r1 + [TakeLock(id)];
    var r3 := r2 + [ReadNet(id)];
    var r4 := r3 + [Decide(id)];
    AfterNext(a, ledger, run, Begin(id, amount));
    AfterNext(a, ledger, r1, TakeLock(id));
    AfterNext(a, ledger, r2, ReadNet(id));
    AfterNext(a, ledger, r3, Decide(id));
    AfterNext(a, ledger, r4, Commit(id, 1));
    RefundSteps(a, After(a, ledger, run), id, amount);
    assert r4 + [Commit(id, 1)] == run + RefundTx(id, amount);
  }

  lemma SecondSmallRefund(a: Account, first: seq<Op>, e: Entry)
    requires Charges(a) == 0 && e == RefundEntry(a, 1, 49)
    requires var s := After(a, [], first); s.ledger == [e] && s.holder.None? && 1 !in s.txs
    ensures MemberNet(a, After(a, [], first + RefundTx(1, 49)).ledger) == 1
  {
    TotalAppend([], e, LedgerCharge, a.userId, AllTime);
    assert [] + [e] == [e];
    TotalAppend([e], e, LedgerCharge, a.userId, AllTime);
    OneRefund(a, [], first, 1, 49);
  }

  /** Without the restriction the cap leaks: two refunds of 49 paise against no credit at all. */
  lemma SmallRefundsLeak(a: Account)
    requires Charges(a) == 0
    ensures MemberNet(a, After(a, [], RefundTx(0, 49) + RefundTx(1, 49)).ledger) == 1
  {
    var e := RefundEntry(a, 1, 49);
    OneRefund(a, [], [], 0, 49);
    assert [] + RefundTx(0, 49) == RefundTx(0, 49) && [] + [e] == [e];
    SecondSmallRefund(a, RefundTx(0, 49), e);
  }
}
