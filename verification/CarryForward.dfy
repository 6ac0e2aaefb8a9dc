/**
 * Carry-forward of balances between finalised periods. The fast form reads the last
 * closing snapshot; the slow form adds up every raw row again. This module proves
 * how far the two can differ over a whole chain of finalisations.
 */
module CarryForward {
  import opened Prelude
  import opened Ledger

  /** A stored member row. It is JSON, so either key may be missing or of the wrong type. */
  datatype SnapRow = SnapRow(
    userId: Option<UserId>, closingBalance: Option<int>,
    openingBalance: int, billedAmount: int, guestAmount: int, adjustments: int,
    presentCount: int, totalAmount: int)

  /** `None` stands for a period finalised before snapshots existed. */
  type Snapshot = Option<seq<SnapRow>>

  datatype Period = Period(start: int, end: int, finalized: bool, snapshot: Snapshot)

  function Lookup(m: map<UserId, int>, u: UserId): int {
    if u in m then m[u] else 0
  }

  // ----- reading a snapshot -----

  predicate RowReadable(r: SnapRow) {
    r.userId.Some? && r.closingBalance.Some?
  }

  predicate Readable(s: Snapshot) {
    s.Some? && forall i :: 0 <= i < |s.value| ==> RowReadable(s.value[i])
  }

  function OpeningMap(rows: seq<SnapRow>): map<UserId, int>
    requires Readable(Some(rows))
  {
    if rows == [] then map[] else
      var m := OpeningMap(rows[..|rows| - 1]);
      var last := rows[|rows| - 1];
      if last.closingBalance.value != 0 then m[last.userId.value := last.closingBalance.value] else m
  }

  /** Closing balances out of a snapshot, or nothing when any row is malformed. */
  method OpeningFromSnapshot(snapshot: Snapshot) returns (r: Option<map<UserId, int>>)
    ensures r == if Readable(snapshot) then Some(OpeningMap(snapshot.value)) else None
  {
    if snapshot.None? {
      return None;
    }
    var rows := snapshot.value;
    var byUser: map<UserId, int> := map[];
    for i := 0 to |rows|
      invariant Readable(Some(rows[..i])) && byUser == OpeningMap(rows[..i])
    {
      if !RowReadable(rows[i]) {
        return None;
      }
      assert rows[..i + 1][..i] == rows[..i];
      if rows[i].closingBalance.value != 0 {
        byUser := byUser[rows[i].userId.value := rows[i].closingBalance.value];
      }
    }
    assert rows[..|rows|] == rows;
    return Some(byUser);
  }

  lemma {:induction false} OpeningMapDropsZeros(rows: seq<SnapRow>, u: UserId)
    requires Readable(Some(rows))
    ensures u in OpeningMap(rows) <==> Lookup(OpeningMap(rows), u) != 0
  {
    if rows != [] { OpeningMapDropsZeros(rows[..|rows| - 1], u); }
  }

  predicate DistinctUsers(rows: seq<SnapRow>) {
    forall i, j :: 0 <= i < j < |rows| ==> rows[i].userId != rows[j].userId
  }

  /** With one row per user, exactly the users with a nonzero closing balance are carried. */
  lemma {:induction false} OpeningMapCarriesNonzero(rows: seq<SnapRow>)
    requires Readable(Some(rows)) && DistinctUsers(rows)
    ensures forall i :: 0 <= i < |rows| ==>
              var u := rows[i].userId.value;
              && (u in OpeningMap(rows) <==> rows[i].closingBalance.value != 0)
              && Lookup(OpeningMap(rows), u) == rows[i].closingBalance.value
    ensures forall u :: u in OpeningMap(rows) ==> exists i :: 0 <= i < |rows| && rows[i].userId == Some(u)
  {
    if rows != [] {
      var rest := rows[..|rows| - 1];
      OpeningMapCarriesNonzero(rest);
      forall i | 0 <= i < |rows| - 1 ensures rows[i] == rest[i] {}
      forall u | u in OpeningMap(rows) ensures exists i :: 0 <= i < |rows| && rows[i].userId == Some(u) {
        if u in OpeningMap(rest) {
          var i :| 0 <= i < |rest| && rest[i].userId == Some(u);
          assert rows[i].userId == Some(u);
        } else {
          assert rows[|rows| - 1].userId == Some(u);
        }
      }
    }
  }

  // ----- opening balances -----

  /** The finalised period with the latest end before a date. */
  function LastFinalBefore(periods: seq<Period>, fromDate: int): Option<Period> {
    if periods == [] then None else
      var best := LastFinalBefore(periods[..|periods| - 1], fromDate);
      var p := periods[|periods| - 1];
      if p.finalized && p.end < fromDate && (best.None? || best.value.end < p.end) then Some(p) else best
  }

  /** The query's answer on any list: a finalised period that ends before the date, none of which ends later. */
  lemma {:induction false} LastFinalIsLatest(periods: seq<Period>, fromDate: int)
    ensures match LastFinalBefore(periods, fromDate)
            case None => forall q :: q in periods && q.finalized ==> q.end >= fromDate
            case Some(p) => && p in periods && p.finalized && p.end < fromDate
                            && forall q :: q in periods && q.finalized && q.end < fromDate ==> q.end <= p.end
  {
    if periods != [] {
      var rest := periods[..|periods| - 1];
      LastFinalIsLatest(rest, fromDate);
      assert periods == rest + [periods[|periods| - 1]];
    }
  }

  /** The slow form: every raw row up to the cutoff. */
  function Live(t: Tables, policy: Policy, u: UserId, cutoff: int): int {
    Total(t.attendance, MealCharge, u, Through(cutoff))
    + Total(t.guests, GuestCharge(policy), u, Through(cutoff))
    + Rupees(Total(t.ledger, LedgerCharge, u, Through(cutoff)))
  }

  function Opening(periods: seq<Period>, t: Tables, policy: Policy, fromDate: int, preferSnapshot: bool,
                   u: UserId): int {
    var last := LastFinalBefore(periods, fromDate);
    if last.None? then 0
    else if preferSnapshot && Readable(last.value.snapshot) then Lookup(OpeningMap(last.value.snapshot.value), u)
    else Live(t, policy, u, last.value.end)
  }

  method AddUserSums(start: map<UserId, int>, rows: seq<UserSum>) returns (byUser: map<UserId, int>)
    ensures forall u :: Lookup(byUser, u) == Lookup(start, u) + UserTotal(rows, u)
  {
    byUser := start;
    for i := 0 to |rows|
      invariant forall u :: Lookup(byUser, u) == Lookup(start, u) + UserTotal(rows[..i], u)
    {
      assert rows[..i + 1][..i] == rows[..i];
      byUser := byUser[rows[i].userId := Lookup(byUser, rows[i].userId) + rows[i].sum.GetOr(0)];
    }
    assert rows[..|rows|] == rows;
  }

  method DropZeros(all: map<UserId, int>) returns (byUser: map<UserId, int>)
    ensures forall u :: u in byUser <==> Lookup(all, u) != 0
    ensures forall u :: Lookup(byUser, u) == Lookup(all, u)
  {
    byUser := all;
    var todo := all.Keys;
    while todo != {}
      invariant todo <= byUser.Keys
      invariant forall u :: u in todo ==> byUser[u] == Lookup(all, u)
      invariant forall u :: u !in todo ==> (u in byUser <==> Lookup(all, u) != 0)
      invariant forall u :: Lookup(byUser, u) == Lookup(all, u)
      decreases todo
    {
      var u :| u in todo;
      if byUser[u] == 0 {
        byUser := byUser - {u};
      }
      todo := todo - {u};
    }
  }

  /** What the database answers to the three grouped queries, for the cutoff the code picks. */
  ghost predicate OpeningGroups(periods: seq<Period>, t: Tables, policy: Policy, fromDate: int,
                                meals: seq<UserSum>, guests: seq<UserSum>, ledger: seq<KindSum>) {
    LastFinalBefore(periods, fromDate).Some? ==>
      var cutoff := LastFinalBefore(periods, fromDate).value.end;
      && GroupsByUser(meals, t.attendance, MealCharge, Through(cutoff))
      && GroupsByUser(guests, t.guests, GuestCharge(policy), Through(cutoff))
      && GroupsByKind(ledger, t.ledger, Through(cutoff))
  }

  /**
   * Opening balances of every member. The three grouped queries are answered by the
   * database for the cutoff the code picked.
   */
  method ComputeOpeningBalances(periods: seq<Period>, ghost t: Tables, ghost policy: Policy, fromDate: int,
                                preferSnapshot: bool, meals: seq<UserSum>, guests: seq<UserSum>, ledger: seq<KindSum>)
    returns (byUser: map<UserId, int>, carriedThrough: Option<int>)
    requires OpeningGroups(periods, t, policy, fromDate, meals, guests, ledger)
    ensures forall u :: Lookup(byUser, u) == Opening(periods, t, policy, fromDate, preferSnapshot, u)
    ensures forall u :: u in byUser <==> Opening(periods, t, policy, fromDate, preferSnapshot, u) != 0
    ensures carriedThrough.Some? <==> LastFinalBefore(periods, fromDate).Some?
    ensures carriedThrough.Some? ==> carriedThrough.value == LastFinalBefore(periods, fromDate).value.end
  {
    var lastFinal := LastFinalBefore(periods, fromDate);
    if lastFinal.None? {
      return map[], None;
    }
    var cutoff := lastFinal.value.end;
    if preferSnapshot {
      var balances := OpeningFromSnapshot(lastFinal.value.snapshot);
      if balances.Some? {
        forall u { OpeningMapDropsZeros(lastFinal.value.snapshot.value, u); }
        return balances.value, Some(cutoff);
      }
    }
    byUser := AddUserSums(map[], meals);
    byUser := AddUserSums(byUser, guests);
    var rupees := SumAdjustmentsByUser(ledger);
    byUser := AddAll(byUser, rupees);
    byUser := DropZeros(byUser);
    carriedThrough := Some(cutoff);
    forall u ensures Lookup(byUser, u) == Live(t, policy, u, cutoff) {
      RoundedGroups(ledger, t.ledger, Through(cutoff), rupees, u);
    }
  }

  method AddAll(start: map<UserId, int>, extra: map<UserId, int>) returns (byUser: map<UserId, int>)
    ensures forall u :: Lookup(byUser, u) == Lookup(start, u) + Lookup(extra, u)
  {
    byUser := start;
    var todo := extra.Keys;
    while todo != {}
      invariant todo <= extra.Keys
      invariant forall u :: Lookup(byUser, u) == Lookup(start, u) + (if u in todo then 0 else Lookup(extra, u))
      decreases todo
    {
      var u :| u in todo;
      byUser := byUser[u := Lookup(byUser, u) + extra[u]];
      todo := todo - {u};
    }
  }

  // ----- building a snapshot -----

  function BilledIn(t: Tables, u: UserId, start: int, end: int): int {
    Total(t.attendance, MealCharge, u, Between(start, end))
  }

  function GuestsIn(t: Tables, policy: Policy, u: UserId, start: int, end: int): int {
    Total(t.guests, GuestCharge(policy), u, Between(start, end))
  }

  function PaiseIn(t: Tables, u: UserId, start: int, end: int): int {
    Total(t.ledger, LedgerCharge, u, Between(start, end))
  }

  function AdjustmentsIn(t: Tables, u: UserId, start: int, end: int): int {
    Rupees(PaiseIn(t, u, start, end))
  }

  /** Marking a meal moves the period's billed amount by its price, or not at all. */
  lemma MealMovesBilled(t: Tables, x: Attendance, u: UserId, start: int, end: int)
    ensures BilledIn(t.(attendance := t.attendance + [x]), u, start, end) - BilledIn(t, u, start, end)
         == if x.userId == u && start <= x.date <= end && x.price.Some?
               && (x.status in {Present, Skipped} || (x.status == Absent && x.billAbsent == Some(true)))
            then x.price.value else 0
  {
    OneMoreMeal(t.attendance, x, u, start, end);
  }

  lemma GuestMovesGuests(t: Tables, policy: Policy, x: Guest, u: UserId, start: int, end: int)
    ensures GuestsIn(t.(guests := t.guests + [x]), policy, u, start, end) - GuestsIn(t, policy, u, start, end)
         == if x.hostUserId == u && start <= x.date <= end && x.priceSnapshot.Some?
               && policy.guestAttendanceEnabled && !x.pendingApproval
               && (x.status == Booked || (x.status == NoShow && policy.billNoShowGuests))
            then x.priceSnapshot.value else 0
  {
    OneMoreGuest(t.guests, x, policy, u, start, end);
  }

  lemma EntryMovesPaise(t: Tables, x: Entry, u: UserId, start: int, end: int)
    ensures PaiseIn(t.(ledger := t.ledger + [x]), u, start, end) - PaiseIn(t, u, start, end)
         == if x.userId == u && start <= x.entryDate <= end && x.status == Posted
            then (if x.kind == Credit then -x.amount else x.amount) else 0
  {
    OneMoreEntry(t.ledger, x, u, start, end);
  }

  predicate Listed(rows: seq<SnapRow>, u: UserId) {
    exists i :: 0 <= i < |rows| && rows[i].userId == Some(u)
  }

  /** A user's figures in a period. */
  datatype Figures = Figures(opening: int, billed: int, guest: int, adjustments: int, presentCount: int,
                             presentAmount: int) {
    function Closing(): int {
      opening + billed + guest + adjustments
    }

    predicate Any() {
      opening != 0 || billed != 0 || guest != 0 || adjustments != 0 || presentCount != 0
    }
  }

  function FiguresOf(periods: seq<Period>, t: Tables, policy: Policy, start: int, end: int, u: UserId): Figures {
    Figures(Opening(periods, t, policy, start, true, u), BilledIn(t, u, start, end), GuestsIn(t, policy, u, start, end),
            AdjustmentsIn(t, u, start, end), Total(t.attendance, PresentCount, u, Between(start, end)),
            Total(t.attendance, PresentCharge, u, Between(start, end)))
  }

  /** A member's line: the six figures, and a closing balance that adds up the first four. */
  function LineOf(u: UserId, f: Figures): SnapRow {
    SnapRow(Some(u), Some(f.Closing()), f.opening, f.billed, f.guest, f.adjustments, f.presentCount, f.presentAmount)
  }

  predicate TrueLine(row: SnapRow, periods: seq<Period>, t: Tables, policy: Policy, start: int, end: int) {
    row.userId.Some? && row == LineOf(row.userId.value, FiguresOf(periods, t, policy, start, end, row.userId.value))
  }

  predicate ListedIfAny(rows: seq<SnapRow>, periods: seq<Period>, t: Tables, policy: Policy, start: int, end: int,
                        u: UserId) {
    FiguresOf(periods, t, policy, start, end, u).Any() ==> Listed(rows, u)
  }

  /** The rows a finalise of [start, end] stores: one true line for each user with any figure. */
  ghost predicate SnapshotOf(rows: seq<SnapRow>, periods: seq<Period>, t: Tables, policy: Policy, start: int,
                             end: int) {
    && DistinctUsers(rows)
    && (forall i :: 0 <= i < |rows| ==> TrueLine(rows[i], periods, t, policy, start, end))
    && (forall u :: ListedIfAny(rows, periods, t, policy, start, end, u))
  }

  /** One user's figures out of the six maps the queries fill. */
  function FromMaps(u: UserId, opening: map<UserId, int>, billed: map<UserId, int>, guest: map<UserId, int>,
                    adj: map<UserId, int>, count: map<UserId, int>, amount: map<UserId, int>): Figures {
    Figures(Lookup(opening, u), Lookup(billed, u), Lookup(guest, u), Lookup(adj, u), Lookup(count, u),
        Lookup(amount, u))
  }

  predicate LineFrom(row: SnapRow, opening: map<UserId, int>, billed: map<UserId, int>, guest: map<UserId, int>,
                     adj: map<UserId, int>, count: map<UserId, int>, amount: map<UserId, int>) {
    && row.userId.Some?
    && row == LineOf(row.userId.value, FromMaps(row.userId.value, opening, billed, guest, adj, count, amount))
  }

  lemma ListedNext(rows: seq<SnapRow>, row: SnapRow, u: UserId)
    ensures Listed(rows + [row], u) <==> Listed(rows, u) || row.userId == Some(u)
  {
    var all := rows + [row];
    if Listed(rows, u) {
      var i :| 0 <= i < |rows| && rows[i].userId == Some(u);
      assert all[i].userId == Some(u);
    }
    assert all[|rows|] == row;
  }

  /** One row for every user that appears in any of the maps. */
  method BuildRows(opening: map<UserId, int>, billed: map<UserId, int>, guest: map<UserId, int>,
                   adj: map<UserId, int>, count: map<UserId, int>, amount: map<UserId, int>)
    returns (rows: seq<SnapRow>)
    ensures DistinctUsers(rows)
    ensures forall i :: 0 <= i < |rows| ==> LineFrom(rows[i], opening, billed, guest, adj, count, amount)
    ensures forall u :: u in count.Keys + billed.Keys + guest.Keys + adj.Keys + opening.Keys ==> Listed(rows, u)
  {
    var allIds := count.Keys + billed.Keys + guest.Keys + adj.Keys + opening.Keys;
    rows := [];
    var todo := allIds;
    while todo != {}
      invariant todo <= allIds
      invariant DistinctUsers(rows)
      invariant forall i :: 0 <= i < |rows| ==> rows[i].userId.Some? && rows[i].userId.value in allIds - todo
      invariant forall i :: 0 <= i < |rows| ==> LineFrom(rows[i], opening, billed, guest, adj, count, amount)
      invariant forall u :: u in allIds - todo ==> Listed(rows, u)
      decreases todo
    {
      var u :| u in todo;
      var row := LineOf(u, FromMaps(u, opening, billed, guest, adj, count, amount));
      forall v { ListedNext(rows, row, v); }
      rows := rows + [row];
      todo := todo - {u};
    }
  }

  /** A grouped query has one row a user. */
  predicate OnePerUser(rows: seq<UserSum>) {
    forall i, j :: 0 <= i < j < |rows| ==> rows[i].userId != rows[j].userId
  }

  lemma {:induction false} UnlistedUserTotal(rows: seq<UserSum>, u: UserId)
    requires forall g :: g in rows ==> g.userId != u
    ensures UserTotal(rows, u) == 0
  {
    if rows != [] { UnlistedUserTotal(rows[..|rows| - 1], u); }
  }

  /** A grouped answer gives a user the sum of their one row, and zero for a missing sum or no row. */
  lemma {:induction false} GroupedAnswer(rows: seq<UserSum>, i: nat)
    requires OnePerUser(rows) && i < |rows|
    ensures UserTotal(rows, rows[i].userId) == match rows[i].sum case Some(n) => n case None => 0
  {
    var rest := rows[..|rows| - 1];
    if i == |rows| - 1 {
      UnlistedUserTotal(rest, rows[i].userId);
    } else {
      GroupedAnswer(rest, i);
    }
  }

  method MapOfSums(rows: seq<UserSum>) returns (byUser: map<UserId, int>)
    requires OnePerUser(rows)
    ensures forall u :: Lookup(byUser, u) == UserTotal(rows, u)
  {
    byUser := map[];
    for i := 0 to |rows|
      invariant forall u :: u in byUser ==> exists j :: 0 <= j < i && rows[j].userId == u
      invariant forall u :: Lookup(byUser, u) == UserTotal(rows[..i], u)
    {
      assert rows[..i + 1][..i] == rows[..i];
      byUser := byUser[rows[i].userId := rows[i].sum.GetOr(0)];
    }
    assert rows[..|rows|] == rows;
  }

  /** What the database answers while a period is finalised: the period's own groups, and the carried ones. */
  datatype Queries = Queries(
    counts: seq<UserSum>, amounts: seq<UserSum>, billed: seq<UserSum>, guests: seq<UserSum>, ledger: seq<KindSum>,
    carriedMeals: seq<UserSum>, carriedGuests: seq<UserSum>, carriedLedger: seq<KindSum>)

  ghost predicate Answers(q: Queries, periods: seq<Period>, t: Tables, policy: Policy, start: int, end: int) {
    && OnePerUser(q.counts) && GroupsByUser(q.counts, t.attendance, PresentCount, Between(start, end))
    && OnePerUser(q.amounts) && GroupsByUser(q.amounts, t.attendance, PresentCharge, Between(start, end))
    && OnePerUser(q.billed) && GroupsByUser(q.billed, t.attendance, MealCharge, Between(start, end))
    && OnePerUser(q.guests) && GroupsByUser(q.guests, t.guests, GuestCharge(policy), Between(start, end))
    && GroupsByKind(q.ledger, t.ledger, Between(start, end))
    && OpeningGroups(periods, t, policy, start, q.carriedMeals, q.carriedGuests, q.carriedLedger)
  }

  lemma RoundedGroups(groups: seq<KindSum>, rows: seq<Entry>, r: Range, rupees: map<UserId, int>, u: UserId)
    requires GroupsByKind(groups, rows, r)
    requires u in rupees <==> exists g :: g in groups && g.userId == u
    requires u in rupees ==> rupees[u] == Rupees(NetPaise(groups, u))
    ensures Lookup(rupees, u) == Rupees(Total(rows, LedgerCharge, u, r))
  {
    NetOfGroups(groups, rows, r, u);
    if u !in rupees {
      UnlistedHasNoTotal(groups, u, Debit);
      UnlistedHasNoTotal(groups, u, Refund);
      UnlistedHasNoTotal(groups, u, Credit);
    }
  }

  method BuildTotalsSnapshot(periods: seq<Period>, ghost t: Tables, ghost policy: Policy, start: int, end: int,
                             q: Queries)
    returns (rows: seq<SnapRow>)
    requires Answers(q, periods, t, policy, start, end)
    ensures SnapshotOf(rows, periods, t, policy, start, end)
  {
    var adjustments := SumAdjustmentsByUser(q.ledger);
    var opening, _ := ComputeOpeningBalances(periods, t, policy, start, true, q.carriedMeals, q.carriedGuests,
        q.carriedLedger);
    var count := MapOfSums(q.counts);
    var amount := MapOfSums(q.amounts);
    var billed := MapOfSums(q.billed);
    var guest := MapOfSums(q.guests);
    rows := BuildRows(opening, billed, guest, adjustments, count, amount);
    forall u ensures FromMaps(u, opening, billed, guest, adjustments, count, amount)
        == FiguresOf(periods, t, policy, start, end, u) {
      RoundedGroups(q.ledger, t.ledger, Between(start, end), adjustments, u);
    }
    forall u ensures ListedIfAny(rows, periods, t, policy, start, end, u) {
      assert FromMaps(u, opening, billed, guest, adjustments, count, amount)
          == FiguresOf(periods, t, policy, start, end, u);
    }
  }

  /** What a stored line says, column by column, and who has one. */
  lemma SnapshotStates(rows: seq<SnapRow>, periods: seq<Period>, t: Tables, policy: Policy, start: int, end: int,
                       i: nat, u: UserId)
    requires SnapshotOf(rows, periods, t, policy, start, end)
    ensures i < |rows| ==>
              var r := rows[i];
              && r.userId.Some? && r.closingBalance.Some?
              && var v := r.userId.value;
                 && r.openingBalance == Opening(periods, t, policy, start, true, v)
                 && r.billedAmount == BilledIn(t, v, start, end)
                 && r.guestAmount == GuestsIn(t, policy, v, start, end)
                 && r.adjustments == AdjustmentsIn(t, v, start, end)
                 && r.presentCount == Total(t.attendance, PresentCount, v, Between(start, end))
                 && r.totalAmount == Total(t.attendance, PresentCharge, v, Between(start, end))
                 && r.closingBalance.value == r.openingBalance + r.billedAmount + r.guestAmount + r.adjustments
    ensures || Opening(periods, t, policy, start, true, u) != 0 || BilledIn(t, u, start, end) != 0
            || GuestsIn(t, policy, u, start, end) != 0 || AdjustmentsIn(t, u, start, end) != 0
            || Total(t.attendance, PresentCount, u, Between(start, end)) != 0
            ==> exists k :: 0 <= k < |rows| && rows[k].userId == Some(u)
  {
    if i < |rows| { assert TrueLine(rows[i], periods, t, policy, start, end); }
    assert ListedIfAny(rows, periods, t, policy, start, end, u);
  }

  /** What the snapshot carries forward for a user, listed or not. */
  lemma ClosingOfSnapshot(rows: seq<SnapRow>, periods: seq<Period>, t: Tables, policy: Policy, start: int, end: int,
                          u: UserId)
    requires SnapshotOf(rows, periods, t, policy, start, end)
    ensures Readable(Some(rows))
    ensures Lookup(OpeningMap(rows), u) == Opening(periods, t, policy, start, true, u) + BilledIn(t, u, start, end)
              + GuestsIn(t, policy, u, start, end) + AdjustmentsIn(t, u, start, end)
  {
    SnapshotReadable(rows, periods, t, policy, start, end);
    OpeningMapCarriesNonzero(rows);
    var f := FiguresOf(periods, t, policy, start, end, u);
    if Listed(rows, u) {
      var i :| 0 <= i < |rows| && rows[i].userId == Some(u);
      assert TrueLine(rows[i], periods, t, policy, start, end);
      assert Lookup(OpeningMap(rows), rows[i].userId.value) == f.Closing();
    } else {
      assert ListedIfAny(rows, periods, t, policy, start, end, u);
      assert !f.Any() && u !in OpeningMap(rows);
    }
  }

  lemma SnapshotReadable(rows: seq<SnapRow>, periods: seq<Period>, t: Tables, policy: Policy, start: int, end: int)
    requires SnapshotOf(rows, periods, t, policy, start, end)
    ensures Readable(Some(rows))
  {
    forall i | 0 <= i < |rows| ensures RowReadable(rows[i]) {
      assert TrueLine(rows[i], periods, t, policy, start, end);
    }
  }

  /** What a user is charged in a period, in whole rupees. */
  function ChargedIn(t: Tables, policy: Policy, p: Period, u: UserId): int {
    BilledIn(t, u, p.start, p.end) + GuestsIn(t, policy, u, p.start, p.end) + AdjustmentsIn(t, u, p.start, p.end)
  }

  // ----- chains of finalisations -----

  datatype Book = Book(t: Tables, periods: seq<Period>)

  datatype Op =
    | Edit(t: Tables)
    | Finalise(start: int, end: int, rows: seq<SnapRow>)

  /** The two tables charge everyone the same in the period. */
  ghost predicate SameIn(t: Tables, t': Tables, policy: Policy, p: Period) {
    forall u :: SameFor(t, t', policy, p, u)
  }

  predicate SameFor(t: Tables, t': Tables, policy: Policy, p: Period, u: UserId) {
    && BilledIn(t, u, p.start, p.end) == BilledIn(t', u, p.start, p.end)
    && GuestsIn(t, policy, u, p.start, p.end) == GuestsIn(t', policy, u, p.start, p.end)
    && PaiseIn(t, u, p.start, p.end) == PaiseIn(t', u, p.start, p.end)
  }

  function LastEnd(b: Book): int
    requires b.periods != []
  {
    b.periods[|b.periods| - 1].end
  }

  /** Edits leave finalised periods alone; periods are finalised in date order, with or without gaps. */
  ghost predicate Legal(b: Book, op: Op, policy: Policy) {
    match op
    case Edit(t') => forall i :: 0 <= i < |b.periods| ==> SameIn(b.t, t', policy, b.periods[i])
    case Finalise(start, end, rows) =>
      && start <= end && (b.periods != [] ==> LastEnd(b) < start)
      && SnapshotOf(rows, b.periods, b.t, policy, start, end)
  }

  function Apply(b: Book, op: Op): Book {
    match op
    case Edit(t') => b.(t := t')
    case Finalise(start, end, rows) => b.(periods := b.periods + [Period(start, end, true, Some(rows))])
  }

  function After(t0: Tables, ops: seq<Op>): Book {
    if ops == [] then Book(t0, []) else Apply(After(t0, ops[..|ops| - 1]), ops[|ops| - 1])
  }

  ghost predicate LegalRun(t0: Tables, ops: seq<Op>, policy: Policy) {
    ops != [] ==> LegalRun(t0, ops[..|ops| - 1], policy) && Legal(After(t0, ops[..|ops| - 1]), ops[|ops| - 1], policy)
  }

  /** What a chain should carry: the charges of its periods. */
  function Carried(t: Tables, policy: Policy, periods: seq<Period>, u: UserId): int {
    if periods == [] then 0 else
      Carried(t, policy, periods[..|periods| - 1], u) + ChargedIn(t, policy, periods[|periods| - 1], u)
  }

  lemma CarriedNext(t: Tables, policy: Policy, periods: seq<Period>, k: nat, u: UserId)
    requires k < |periods|
    ensures Carried(t, policy, periods[..k + 1], u)
            == Carried(t, policy, periods[..k], u) + ChargedIn(t, policy, periods[k], u)
  {
    assert periods[..k + 1][..k] == periods[..k];
  }

  /** The i-th period is finalised with a readable snapshot, and starts after the one before. */
  predicate Linked(periods: seq<Period>, i: nat)
    requires i < |periods|
  {
    && periods[i].finalized && periods[i].start <= periods[i].end && Readable(periods[i].snapshot)
    && (i > 0 ==> periods[i - 1].end < periods[i].start)
  }

  predicate Chain(periods: seq<Period>) {
    forall i :: 0 <= i < |periods| ==> Linked(periods, i)
  }

  lemma ChainPrefix(periods: seq<Period>, k: nat)
    requires Chain(periods) && k <= |periods|
    ensures Chain(periods[..k])
  {
    forall i | 0 <= i < k ensures Linked(periods[..k], i) { assert Linked(periods, i); }
  }

  /** The k-th snapshot carries what the chain up to it should carry. */
  predicate CarriesAt(b: Book, policy: Policy, k: nat, u: UserId) {
    0 < k <= |b.periods| && Readable(b.periods[k - 1].snapshot) ==>
      Lookup(OpeningMap(b.periods[k - 1].snapshot.value), u) == Carried(b.t, policy, b.periods[..k], u)
  }

  ghost predicate ChainCarries(b: Book, policy: Policy) {
    Chain(b.periods) && forall k, u :: CarriesAt(b, policy, k, u)
  }

  lemma {:induction false} ChainIncreases(periods: seq<Period>, i: int, j: int)
    requires Chain(periods) && 0 <= i <= j < |periods|
    ensures periods[i].end <= periods[j].end && periods[i].start <= periods[j].start
    ensures periods[i].start <= periods[i].end && periods[j].start <= periods[j].end
    ensures i < j ==> periods[i].end < periods[j].start
    decreases j - i
  {
    assert Linked(periods, i) && Linked(periods, j);
    if i < j {
      ChainIncreases(periods, i, j - 1);
    }
  }

  /** In a chain the code's query finds the last period ending before the date. */
  lemma {:induction false} LastFinalInChain(periods: seq<Period>, k: nat, fromDate: int)
    requires Chain(periods) && k <= |periods|
    requires forall i :: 0 <= i < |periods| ==> (periods[i].end < fromDate <==> i < k)
    ensures LastFinalBefore(periods, fromDate) == if k == 0 then None else Some(periods[k - 1])
    decreases |periods|
  {
    if periods != [] {
      var rest := periods[..|periods| - 1];
      var k' := if k == |periods| then k - 1 else k;
      ChainPrefix(periods, |periods| - 1);
      LastFinalInChain(rest, k', fromDate);
      assert Linked(periods, |periods| - 1);
      if k == |periods| && k > 1 {
        ChainIncreases(periods, k - 2, k - 1);
      }
    }
  }

  lemma {:induction false} CarriedFrozen(t: Tables, t': Tables, policy: Policy, periods: seq<Period>, u: UserId)
    requires forall i :: 0 <= i < |periods| ==> SameIn(t, t', policy, periods[i])
    ensures Carried(t, policy, periods, u) == Carried(t', policy, periods, u)
  {
    if periods != [] {
      CarriedFrozen(t, t', policy, periods[..|periods| - 1], u);
      assert SameFor(t, t', policy, periods[|periods| - 1], u);
    }
  }

  lemma EditKeepsChain(b: Book, t': Tables, policy: Policy)
    requires ChainCarries(b, policy) && Legal(b, Edit(t'), policy)
    ensures ChainCarries(b.(t := t'), policy)
  {
    forall k: nat, u ensures CarriesAt(b.(t := t'), policy, k, u) {
      if 0 < k <= |b.periods| {
        assert CarriesAt(b, policy, k, u);
        CarriedFrozen(b.t, t', policy, b.periods[..k], u);
      }
    }
  }

  lemma OpeningOfNext(b: Book, op: Op, policy: Policy, u: UserId)
    requires op.Finalise? && ChainCarries(b, policy) && Legal(b, op, policy)
    ensures Opening(b.periods, b.t, policy, op.start, true, u) == Carried(b.t, policy, b.periods, u)
  {
    var n := |b.periods|;
    forall i | 0 <= i < n { ChainIncreases(b.periods, i, n - 1); }
    LastFinalInChain(b.periods, n, op.start);
    assert b.periods[..n] == b.periods;
    if n > 0 { assert Linked(b.periods, n - 1) && CarriesAt(b, policy, n, u); }
  }

  lemma NewSnapshotCarries(b: Book, op: Op, policy: Policy, u: UserId)
    requires op.Finalise? && ChainCarries(b, policy) && Legal(b, op, policy)
    ensures Readable(Some(op.rows)) && Chain(Apply(b, op).periods)
    ensures Lookup(OpeningMap(op.rows), u) == Carried(b.t, policy, Apply(b, op).periods, u)
  {
    var p := Period(op.start, op.end, true, Some(op.rows));
    SnapshotReadable(op.rows, b.periods, b.t, policy, op.start, op.end);
    ChainGrows(b.periods, p);
    OpeningOfNext(b, op, policy, u);
    SnapshotCarriesNext(b.t, policy, b.periods, p, u);
  }

  lemma SnapshotCarriesNext(t: Tables, policy: Policy, periods: seq<Period>, p: Period, u: UserId)
    requires p.snapshot.Some? && SnapshotOf(p.snapshot.value, periods, t, policy, p.start, p.end)
    requires Opening(periods, t, policy, p.start, true, u) == Carried(t, policy, periods, u)
    ensures Readable(p.snapshot)
    ensures Lookup(OpeningMap(p.snapshot.value), u) == Carried(t, policy, periods + [p], u)
  {
    ClosingOfSnapshot(p.snapshot.value, periods, t, policy, p.start, p.end, u);
    assert (periods + [p])[..|periods|] == periods;
  }

  lemma ChainGrows(periods: seq<Period>, p: Period)
    requires Chain(periods) && p.finalized && p.start <= p.end && Readable(p.snapshot)
    requires periods != [] ==> periods[|periods| - 1].end < p.start
    ensures Chain(periods + [p])
  {
    forall i | 0 <= i < |periods| + 1 ensures Linked(periods + [p], i) {
      if i < |periods| { assert Linked(periods, i); }
    }
  }

  lemma ChainExtends(b: Book, p: Period, next: Book, policy: Policy)
    requires ChainCarries(b, policy) && next == Book(b.t, b.periods + [p]) && Chain(next.periods)
    requires forall u, k: nat :: k == |next.periods| ==> CarriesAt(next, policy, k, u)
    ensures ChainCarries(next, policy)
  {
    forall k: nat, u ensures CarriesAt(next, policy, k, u) {
      if 0 < k <= |b.periods| {
        assert CarriesAt(b, policy, k, u);
        assert next.periods[..k] == b.periods[..k] && next.periods[k - 1] == b.periods[k - 1];
      }
    }
  }

  lemma FinaliseKeepsChain(b: Book, op: Op, policy: Policy)
    requires op.Finalise? && ChainCarries(b, policy) && Legal(b, op, policy)
    ensures ChainCarries(Apply(b, op), policy)
  {
    var p := Period(op.start, op.end, true, Some(op.rows));
    var next := Apply(b, op);
    NewSnapshotCarries(b, op, policy, "");
    forall u, k: nat | k == |next.periods| ensures CarriesAt(next, policy, k, u) {
      NewSnapshotCarries(b, op, policy, u);
      assert next.periods[..k] == next.periods;
    }
    ChainExtends(b, p, next, policy);
  }

  lemma {:induction false} RunCarries(t0: Tables, ops: seq<Op>, policy: Policy)
    requires LegalRun(t0, ops, policy)
    ensures ChainCarries(After(t0, ops), policy)
  {
    if ops != [] {
      var b := After(t0, ops[..|ops| - 1]);
      RunCarries(t0, ops[..|ops| - 1], policy);
      match ops[|ops| - 1]
      case Edit(t') => EditKeepsChain(b, t', policy);
      case Finalise(_, _, _) => FinaliseKeepsChain(b, ops[|ops| - 1], policy);
    }
  }

  // ----- days that no period covers -----

  predicate Covered(periods: seq<Period>, day: int) {
    exists i :: 0 <= i < |periods| && periods[i].start <= day <= periods[i].end
  }

  /** The charge, on days that no period covers. */
  function OffDays<T>(charge: T -> Charge, periods: seq<Period>): T -> Charge {
    (x: T) => if Covered(periods, charge(x).date) then charge(x).(amount := 0) else charge(x)
  }

  /** What the rows charge on the periods' days, period by period. */
  function OnDays<T>(rows: seq<T>, charge: T -> Charge, periods: seq<Period>, u: UserId): int {
    if periods == [] then 0 else
      var p := periods[|periods| - 1];
      OnDays(rows, charge, periods[..|periods| - 1], u) + Total(rows, charge, u, Between(p.start, p.end))
  }

  lemma CoveredNext(periods: seq<Period>, p: Period, day: int)
    ensures Covered(periods + [p], day) <==> Covered(periods, day) || p.start <= day <= p.end
  {
    var all := periods + [p];
    assert all[|periods|] == p;
    if Covered(periods, day) {
      var i :| 0 <= i < |periods| && periods[i].start <= day <= periods[i].end;
      assert all[i] == periods[i];
    }
  }

  /** One more period takes its own days out of what is not covered. */
  lemma {:induction false} OffDaysNext<T>(rows: seq<T>, charge: T -> Charge, periods: seq<Period>, p: Period,
                                          u: UserId, cutoff: int)
    requires p.end <= cutoff && forall day :: p.start <= day <= p.end ==> !Covered(periods, day)
    ensures Total(rows, OffDays(charge, periods), u, Through(cutoff))
         == Total(rows, OffDays(charge, periods + [p]), u, Through(cutoff))
             + Total(rows, charge, u, Between(p.start, p.end))
  {
    if rows != [] {
      OffDaysNext(rows[..|rows| - 1], charge, periods, p, u, cutoff);
      CoveredNext(periods, p, charge(rows[|rows| - 1]).date);
    }
  }

  lemma {:induction false} OffNoDays<T>(rows: seq<T>, charge: T -> Charge, u: UserId, r: Range)
    ensures Total(rows, OffDays(charge, []), u, r) == Total(rows, charge, u, r)
  {
    if rows != [] { OffNoDays(rows[..|rows| - 1], charge, u, r); }
  }

  lemma NotCoveredByEarlier(periods: seq<Period>, k: nat, day: int)
    requires Chain(periods) && k < |periods| && periods[k].start <= day
    ensures !Covered(periods[..k], day)
  {
    forall i | 0 <= i < k ensures periods[i].end < day { ChainIncreases(periods, i, k); }
  }

  /** Every row up to the cutoff is charged in one period, or on a day that none covers. */
  lemma {:induction false} SplitByPeriods<T>(rows: seq<T>, charge: T -> Charge, periods: seq<Period>, u: UserId,
                                             cutoff: int)
    requires Chain(periods) && forall i :: 0 <= i < |periods| ==> periods[i].end <= cutoff
    ensures Total(rows, charge, u, Through(cutoff))
         == OnDays(rows, charge, periods, u) + Total(rows, OffDays(charge, periods), u, Through(cutoff))
  {
    if periods == [] {
      OffNoDays(rows, charge, u, Through(cutoff));
    } else {
      var k := |periods| - 1;
      ChainPrefix(periods, k);
      SplitByPeriods(rows, charge, periods[..k], u, cutoff);
      forall day | periods[k].start <= day <= periods[k].end ensures !Covered(periods[..k], day) {
        NotCoveredByEarlier(periods, k, day);
      }
      OffDaysNext(rows, charge, periods[..k], periods[k], u, cutoff);
      assert periods[..k] + [periods[k]] == periods;
    }
  }

  /** A user's ledger paise, period by period. */
  function PaiseByPeriod(t: Tables, periods: seq<Period>, u: UserId): (ps: seq<int>)
    ensures |ps| == |periods|
  {
    if periods == [] then [] else
      var p := periods[|periods| - 1];
      PaiseByPeriod(t, periods[..|periods| - 1], u) + [PaiseIn(t, u, p.start, p.end)]
  }

  lemma SumAppend(ps: seq<int>, x: int)
    ensures SumPaise(ps + [x]) == SumPaise(ps) + x && SumRupees(ps + [x]) == SumRupees(ps) + Rupees(x)
  {
    assert (ps + [x])[..|ps|] == ps;
  }

  lemma {:induction false} CarriedByKind(t: Tables, policy: Policy, periods: seq<Period>, u: UserId)
    ensures Carried(t, policy, periods, u)
         == OnDays(t.attendance, MealCharge, periods, u) + OnDays(t.guests, GuestCharge(policy), periods, u)
            + SumRupees(PaiseByPeriod(t, periods, u))
    ensures OnDays(t.ledger, LedgerCharge, periods, u) == SumPaise(PaiseByPeriod(t, periods, u))
  {
    if periods != [] {
      var k := |periods| - 1;
      CarriedByKind(t, policy, periods[..k], u);
      SumAppend(PaiseByPeriod(t, periods[..k], u), PaiseIn(t, u, periods[k].start, periods[k].end));
    }
  }

  function OffPaise(t: Tables, periods: seq<Period>, u: UserId, cutoff: int): int {
    Total(t.ledger, OffDays(LedgerCharge, periods), u, Through(cutoff))
  }

  /** What a user was charged up to the cutoff on days that no period covers, in whole rupees. */
  function Gaps(t: Tables, policy: Policy, periods: seq<Period>, u: UserId, cutoff: int): int {
    Total(t.attendance, OffDays(MealCharge, periods), u, Through(cutoff))
    + Total(t.guests, OffDays(GuestCharge(policy), periods), u, Through(cutoff))
    + Rupees(OffPaise(t, periods, u, cutoff))
  }

  lemma WholeSum(a: int, b: int)
    requires a % 100 == 0 && b % 100 == 0
    ensures (a + b) % 100 == 0 && (a - b) % 100 == 0
  {
  }

  /** Every posted entry is a whole number of rupees. */
  predicate WholeRupeeLedger(t: Tables) {
    forall e :: e in t.ledger && e.status == Posted ==> e.amount % 100 == 0
  }

  lemma {:induction false} WholeRupeeTotals(rows: seq<Entry>, charge: Entry -> Charge, u: UserId, r: Range)
    requires forall e :: e in rows ==> charge(e).amount % 100 == 0
    ensures Total(rows, charge, u, r) % 100 == 0
  {
    if rows != [] {
      var rest, last := rows[..|rows| - 1], rows[|rows| - 1];
      WholeRupeeTotals(rest, charge, u, r);
      assert last in rows;
      WholeSum(Total(rest, charge, u, r), charge(last).amount);
    }
  }

  lemma WholeRupeeCharges(t: Tables, periods: seq<Period>)
    requires WholeRupeeLedger(t)
    ensures forall e :: e in t.ledger ==>
            LedgerCharge(e).amount % 100 == 0 && OffDays(LedgerCharge, periods)(e).amount % 100 == 0
  {
    forall e | e in t.ledger ensures LedgerCharge(e).amount % 100 == 0 {
      if e.status == Posted { WholeSum(0, e.amount); }
    }
  }

  lemma {:induction false} WholeRupeePeriods(t: Tables, periods: seq<Period>, u: UserId, i: nat)
    requires WholeRupeeLedger(t) && i < |periods|
    ensures PaiseByPeriod(t, periods, u)[i] % 100 == 0
  {
    if i == |periods| - 1 {
      WholeRupeeCharges(t, periods);
      WholeRupeeTotals(t.ledger, LedgerCharge, u, Between(periods[i].start, periods[i].end));
    } else {
      WholeRupeePeriods(t, periods[..|periods| - 1], u, i);
    }
  }

  /** Rounding each period and the days between, against rounding once; the last term counts only if it is not zero. */
  lemma RoundingWithGap(ps: seq<int>, off: int)
    ensures var d := SumRupees(ps) + Rupees(off) - Rupees(SumPaise(ps) + off);
            var terms := |ps| + (if off == 0 then 0 else 1);
            && -(terms + 1) < 2 * d < terms + 1
            && ((forall k :: 0 <= k < |ps| ==> ps[k] % 100 == 0) && off % 100 == 0 ==> d == 0)
  {
    RoundingOftenVersusOnce(ps);
    RoundingOftenVersusOnce(ps + [off]);
    SumAppend(ps, off);
  }

  /** The number of sums that are rounded: one a period, and one for the gaps if they hold any ledger paise. */
  function Terms(t: Tables, periods: seq<Period>, u: UserId, cutoff: int): nat {
    |periods| + (if OffPaise(t, periods, u, cutoff) == 0 then 0 else 1)
  }

  /** Only where paise are rounded do the parts differ from the whole. */
  lemma DifferenceIsRounding(t: Tables, policy: Policy, periods: seq<Period>, u: UserId, cutoff: int)
    requires Chain(periods) && forall i :: 0 <= i < |periods| ==> periods[i].end <= cutoff
    ensures var ps, off := PaiseByPeriod(t, periods, u), OffPaise(t, periods, u, cutoff);
            Carried(t, policy, periods, u) + Gaps(t, policy, periods, u, cutoff) - Live(t, policy, u, cutoff)
            == SumRupees(ps) + Rupees(off) - Rupees(SumPaise(ps) + off)
  {
    LiveByPeriods(t, policy, periods, u, cutoff);
    CarriedByKind(t, policy, periods, u);
  }

  lemma LiveByPeriods(t: Tables, policy: Policy, periods: seq<Period>, u: UserId, cutoff: int)
    requires Chain(periods) && forall i :: 0 <= i < |periods| ==> periods[i].end <= cutoff
    ensures Live(t, policy, u, cutoff)
         == OnDays(t.attendance, MealCharge, periods, u)
            + Total(t.attendance, OffDays(MealCharge, periods), u, Through(cutoff))
            + OnDays(t.guests, GuestCharge(policy), periods, u)
            + Total(t.guests, OffDays(GuestCharge(policy), periods), u, Through(cutoff))
            + Rupees(SumPaise(PaiseByPeriod(t, periods, u)) + OffPaise(t, periods, u, cutoff))
  {
    SplitByPeriods(t.attendance, MealCharge, periods, u, cutoff);
    SplitByPeriods(t.guests, GuestCharge(policy), periods, u, cutoff);
    SplitByPeriods(t.ledger, LedgerCharge, periods, u, cutoff);
    CarriedByKind(t, policy, periods, u);
  }

  lemma WholeRupeeTerms(t: Tables, periods: seq<Period>, u: UserId, cutoff: int)
    requires WholeRupeeLedger(t)
    ensures forall i :: 0 <= i < |periods| ==> PaiseByPeriod(t, periods, u)[i] % 100 == 0
    ensures OffPaise(t, periods, u, cutoff) % 100 == 0
  {
    forall i | 0 <= i < |periods| ensures PaiseByPeriod(t, periods, u)[i] % 100 == 0 {
      WholeRupeePeriods(t, periods, u, i);
    }
    WholeRupeeCharges(t, periods);
    WholeRupeeTotals(t.ledger, OffDays(LedgerCharge, periods), u, Through(cutoff));
  }

  /** The charges of the periods and those of the gaps are all the charges, up to rounding. */
  lemma CarriedVersusLive(t: Tables, policy: Policy, periods: seq<Period>, u: UserId, cutoff: int)
    requires Chain(periods) && forall i :: 0 <= i < |periods| ==> periods[i].end <= cutoff
    ensures var d := Carried(t, policy, periods, u) + Gaps(t, policy, periods, u, cutoff) - Live(t, policy, u, cutoff);
            var m := Terms(t, periods, u, cutoff) + 1;
            -m < 2 * d < m && (WholeRupeeLedger(t) ==> d == 0)
  {
    DifferenceIsRounding(t, policy, periods, u, cutoff);
    RoundingOfTerms(t, periods, u, cutoff);
  }

  lemma RoundingOfTerms(t: Tables, periods: seq<Period>, u: UserId, cutoff: int)
    ensures var ps, off := PaiseByPeriod(t, periods, u), OffPaise(t, periods, u, cutoff);
            var d := SumRupees(ps) + Rupees(off) - Rupees(SumPaise(ps) + off);
            var m := Terms(t, periods, u, cutoff) + 1;
            -m < 2 * d < m && (WholeRupeeLedger(t) ==> d == 0)
  {
    RoundingWithGap(PaiseByPeriod(t, periods, u), OffPaise(t, periods, u, cutoff));
    if WholeRupeeLedger(t) { WholeRupeeTerms(t, periods, u, cutoff); }
  }

  // ----- openings, fast and slow -----

  /** How many periods of the chain end before a date. */
  function PeriodsBefore(periods: seq<Period>, fromDate: int): (k: nat)
    requires Chain(periods)
    ensures k <= |periods| && forall i :: 0 <= i < |periods| ==> (periods[i].end < fromDate <==> i < k)
  {
    if periods == [] then 0 else
      ChainPrefix(periods, |periods| - 1);
      var k := PeriodsBefore(periods[..|periods| - 1], fromDate);
      if periods[|periods| - 1].end < fromDate then
        ChainBelow(periods, fromDate); |periods|
      else k
  }

  lemma ChainBelow(periods: seq<Period>, fromDate: int)
    requires Chain(periods) && periods != [] && periods[|periods| - 1].end < fromDate
    ensures forall i :: 0 <= i < |periods| ==> periods[i].end < fromDate
  {
    forall i | 0 <= i < |periods| { ChainIncreases(periods, i, |periods| - 1); }
  }

  lemma OpeningsInChain(qs: seq<Period>, t: Tables, policy: Policy, fromDate: int, u: UserId)
    requires Chain(qs)
    ensures var n := PeriodsBefore(qs, fromDate);
            && (n > 0 ==> Readable(qs[n - 1].snapshot))
            && Opening(qs, t, policy, fromDate, true, u)
               == (if n == 0 then 0 else Lookup(OpeningMap(qs[n - 1].snapshot.value), u))
            && Opening(qs, t, policy, fromDate, false, u) == (if n == 0 then 0 else Live(t, policy, u, qs[n - 1].end))
  {
    var n := PeriodsBefore(qs, fromDate);
    LastFinalInChain(qs, n, fromDate);
    if n > 0 { assert Linked(qs, n - 1); }
  }

  /**
   * `fast` plus `missed` is the recomputed opening balance at the date once the gaps before it are
   * added: exactly on whole-rupee ledgers, and otherwise up to half a rupee for each sum rounded.
   */
  ghost predicate AddsUp(periods: seq<Period>, t: Tables, policy: Policy, fromDate: int, u: UserId, missed: int)
    requires Chain(periods)
  {
    var n := PeriodsBefore(periods, fromDate);
    var fast := Opening(periods, t, policy, fromDate, true, u);
    var slow := Opening(periods, t, policy, fromDate, false, u);
    if n == 0 then fast == slow == 0
    else
      var cutoff := periods[n - 1].end;
      var d := fast + missed + Gaps(t, policy, periods[..n], u, cutoff) - slow;
      var m := Terms(t, periods[..n], u, cutoff) + 1;
      -m < 2 * d < m && (WholeRupeeLedger(t) ==> d == 0)
  }

  /** A chain whose n-th snapshot falls short of what it should carry by `missed`. */
  lemma ChainAddsUp(periods: seq<Period>, t: Tables, policy: Policy, fromDate: int, u: UserId, missed: int)
    requires Chain(periods)
    requires var n := PeriodsBefore(periods, fromDate);
             n > 0 && Readable(periods[n - 1].snapshot) ==>
               Lookup(OpeningMap(periods[n - 1].snapshot.value), u) == Carried(t, policy, periods[..n], u) - missed
    ensures AddsUp(periods, t, policy, fromDate, u, missed)
  {
    var n := PeriodsBefore(periods, fromDate);
    OpeningsInChain(periods, t, policy, fromDate, u);
    if n > 0 {
      ChainPrefix(periods, n);
      forall i | 0 <= i < n { ChainIncreases(periods, i, n - 1); }
      CarriedVersusLive(t, policy, periods[..n], u, periods[n - 1].end);
    }
  }

  /**
   * After any run of edits and finalisations in date order, for every member and every date, the opening
   * balance read from the last snapshot falls short of the recomputed one by exactly what was charged on
   * days that no finalised period covers; up to the rounding of each period, and exactly on whole rupees.
   */
  lemma SnapshotMissesTheGaps(t0: Tables, ops: seq<Op>, policy: Policy, fromDate: int, u: UserId)
    requires LegalRun(t0, ops, policy)
    ensures Chain(After(t0, ops).periods)
    ensures AddsUp(After(t0, ops).periods, After(t0, ops).t, policy, fromDate, u, 0)
  {
    RunCarries(t0, ops, policy);
    var b := After(t0, ops);
    var n := PeriodsBefore(b.periods, fromDate);
    assert CarriesAt(b, policy, n, u);
    ChainAddsUp(b.periods, b.t, policy, fromDate, u, 0);
  }

  // ----- without gaps -----

  ghost predicate NoneBefore(t: Tables, day: int) {
    && (forall r :: r in t.attendance ==> r.date >= day)
    && (forall g :: g in t.guests ==> g.date >= day)
    && (forall e :: e in t.ledger ==> e.entryDate >= day)
  }

  /** Each period starts the day after the one before. */
  predicate Contiguous(periods: seq<Period>) {
    forall i :: 0 <= i < |periods| - 1 ==> Meets(periods, i)
  }

  predicate Meets(periods: seq<Period>, i: nat)
    requires i + 1 < |periods|
  {
    periods[i + 1].start == periods[i].end + 1
  }

  lemma {:induction false} ContiguousCovers(periods: seq<Period>, k: nat, day: int)
    requires Contiguous(periods) && k < |periods| && periods[0].start <= day <= periods[k].end
    ensures Covered(periods, day)
  {
    if day < periods[k].start {
      assert Meets(periods, k - 1);
      ContiguousCovers(periods, k - 1, day);
    }
  }

  lemma {:induction false} NothingOffDays<T>(rows: seq<T>, charge: T -> Charge, periods: seq<Period>, u: UserId,
                                             cutoff: int)
    requires forall x :: x in rows && charge(x).date <= cutoff ==> Covered(periods, charge(x).date)
    ensures Total(rows, OffDays(charge, periods), u, Through(cutoff)) == 0
  {
    if rows != [] {
      NothingOffDays(rows[..|rows| - 1], charge, periods, u, cutoff);
      assert rows[|rows| - 1] in rows;
    }
  }

  /** Contiguous periods from no later than the first row on leave no gaps. */
  lemma ContiguousHasNoGaps(t: Tables, policy: Policy, periods: seq<Period>, u: UserId)
    requires periods != [] && Contiguous(periods) && NoneBefore(t, periods[0].start)
    ensures var cutoff := periods[|periods| - 1].end;
            Gaps(t, policy, periods, u, cutoff) == 0 && OffPaise(t, periods, u, cutoff) == 0
  {
    var cutoff := periods[|periods| - 1].end;
    forall day | periods[0].start <= day <= cutoff ensures Covered(periods, day) {
      ContiguousCovers(periods, |periods| - 1, day);
    }
    NothingOffDays(t.attendance, MealCharge, periods, u, cutoff);
    NothingOffDays(t.guests, GuestCharge(policy), periods, u, cutoff);
    NothingOffDays(t.ledger, LedgerCharge, periods, u, cutoff);
  }

  /**
   * Without gaps the snapshot refines the recomputation: the two opening balances differ by less than
   * (n + 1) / 2 rupees, n being the number of finalised periods before the date, and are equal when
   * posted entries are whole rupees.
   */
  lemma SnapshotRefinesLive(t0: Tables, ops: seq<Op>, policy: Policy, fromDate: int, u: UserId)
    requires LegalRun(t0, ops, policy)
    requires var b := After(t0, ops); b.periods != [] ==> Contiguous(b.periods) && NoneBefore(b.t, b.periods[0].start)
    ensures Chain(After(t0, ops).periods)
    ensures var b := After(t0, ops);
            var n := PeriodsBefore(b.periods, fromDate);
            var fast := Opening(b.periods, b.t, policy, fromDate, true, u);
            var slow := Opening(b.periods, b.t, policy, fromDate, false, u);
            && -(n + 1) < 2 * (fast - slow) < n + 1
            && (WholeRupeeLedger(b.t) ==> fast == slow)
  {
    SnapshotMissesTheGaps(t0, ops, policy, fromDate, u);
    var b := After(t0, ops);
    var n := PeriodsBefore(b.periods, fromDate);
    if n > 0 {
      forall i | 0 <= i < n - 1 ensures Meets(b.periods[..n], i) { assert Meets(b.periods, i); }
      ContiguousHasNoGaps(b.t, policy, b.periods[..n], u);
    }
  }
}
