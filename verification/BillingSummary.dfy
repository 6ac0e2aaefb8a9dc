/**
 * The group's billing summary: one pass over the rows fills per-member, per-meal and
 * per-slot buckets, and every rupee ends up in exactly one member's net bill.
 */
module BillingSummary {
  import opened Prelude
  import opened Ledger
  import opened CarryForward

  /** An attendance row of the period, with the slot of its meal. */
  datatype Record = Record(row: Attendance, slotKey: Option<string>)

  datatype Bucket = Bucket(presentCount: nat, revenue: int)
  datatype MemberAgg = MemberAgg(present: nat, skipped: nat, absent: nat, vacation: nat, totalBill: int)
  datatype GuestAgg = GuestAgg(guestCount: nat, guestAmount: int)
  datatype Member = Member(userId: UserId, active: bool)

  datatype MemberBill = MemberBill(
    userId: UserId, totalBill: int, mealCharges: int, presentCount: nat, skippedCount: nat, absentCount: nat,
    vacationDays: nat, guestCount: nat, guestAmount: int, adjustmentsTotal: int, debitsTotal: int, creditsTotal: int,
    refundsTotal: int, openingBalance: int, netBill: int)

  datatype Summary = Summary(
    revenue: int, presentMeals: nat, skippedMeals: nat, absentMeals: nat, vacationDays: nat, guestRevenue: int,
    adjustmentsTotal: int, debitsTotal: int, creditsTotal: int, refundsTotal: int, openingBalanceTotal: int,
    netRevenue: int, byMeal: map<string, Bucket>, bySlot: map<string, Bucket>, members: seq<MemberBill>)

  // ----- sums by key -----

  function Sum<T>(rows: seq<T>, amount: T -> int): int {
    if rows == [] then 0 else Sum(rows[..|rows| - 1], amount) + amount(rows[|rows| - 1])
  }

  function Grouped<T, K(==)>(rows: seq<T>, key: T -> K, amount: T -> int, k: K): int {
    if rows == [] then 0 else
      Grouped(rows[..|rows| - 1], key, amount, k)
      + (if key(rows[|rows| - 1]) == k then amount(rows[|rows| - 1]) else 0)
  }

  lemma {:induction false} SumOverOne<K(!new)>(keys: set<K>, f: K -> int, x: K)
    requires forall k :: k in keys && k != x ==> f(k) == 0
    requires x !in keys ==> f(x) == 0
    ensures SumOver(keys, f) == f(x)
  {
    if x in keys {
      SumOverSubset({x}, keys, f);
      SumOverRemove({x}, f, x);
      assert {x} - {x} == {};
    } else {
      SumOverSubset({}, keys, f);
    }
  }

  /** Grouping loses nothing: the groups add up to the whole, when no key with an amount is left out. */
  lemma {:induction false} GroupsAddUp<T(!new), K(!new)>(rows: seq<T>, key: T -> K, amount: T -> int, keys: set<K>)
    requires forall r :: r in rows && amount(r) != 0 ==> key(r) in keys
    ensures SumOver(keys, (k: K) => Grouped(rows, key, amount, k)) == Sum(rows, amount)
  {
    if rows == [] {
      SumOverSubset({}, keys, (k: K) => Grouped(rows, key, amount, k));
    } else {
      var rest, last := rows[..|rows| - 1], rows[|rows| - 1];
      GroupsAddUp(rest, key, amount, keys);
      var one := (k: K) => if key(last) == k then amount(last) else 0;
      if key(last) !in keys { assert amount(last) == 0; }
      SumOverOne(keys, one, key(last));
      SumOverPlus(keys, (k: K) => Grouped(rest, key, amount, k), one, (k: K) => Grouped(rows, key, amount, k));
    }
  }

  function UserOf(r: Record): UserId { r.row.userId }

  function MealOf(r: Record): string { r.row.mealId }

  function SlotOf(r: Record): string { r.slotKey.GetOr("general") }

  /** What the row bills, by the shared filter. */
  function BilledAmount(r: Record): int { MealCharge(r.row).amount }

  /** Kitchen figures count present rows only. */
  function PresentAmount(r: Record): int {
    if r.row.status == Present then r.row.price.GetOr(0) else 0
  }

  /** One for a row of the status. */
  function One(status: AttendanceStatus): Record -> int {
    (r: Record) => if r.row.status == status then 1 else 0
  }

  lemma {:induction false} CountIsSum(records: seq<Record>, status: AttendanceStatus)
    ensures Count(records, status) == Sum(records, One(status))
  {
    if records != [] { CountIsSum(records[..|records| - 1], status); }
  }

  function Rows(records: seq<Record>): (rows: seq<Attendance>)
    ensures |rows| == |records| && forall i :: 0 <= i < |rows| ==> rows[i] == records[i].row
  {
    seq(|records|, i requires 0 <= i < |records| => records[i].row)
  }

  /** The per-user group is the ledger module's total over the billed rows. */
  lemma {:induction false} GroupedIsTotal(records: seq<Record>, u: UserId)
    ensures Grouped(records, UserOf, BilledAmount, u) == Total(Rows(records), MealCharge, u, AllTime)
  {
    if records != [] {
      GroupedIsTotal(records[..|records| - 1], u);
      assert Rows(records)[..|records| - 1] == Rows(records[..|records| - 1]);
    }
  }

  // ----- the fold -----

  datatype Fold = Fold(
    byUser: map<UserId, MemberAgg>, byMeal: map<string, Bucket>, bySlot: map<string, Bucket>,
    revenue: int, presentMeals: nat, skippedMeals: nat, absentMeals: nat, vacationDays: nat)

  const NOBODY := MemberAgg(0, 0, 0, 0, 0)

  function BillOf(byUser: map<UserId, MemberAgg>, u: UserId): int {
    if u in byUser then byUser[u].totalBill else 0
  }

  function RevenueOf(m: map<string, Bucket>, k: string): int {
    if k in m then m[k].revenue else 0
  }

  function CountIn(m: map<string, Bucket>, k: string): int {
    if k in m then m[k].presentCount else 0
  }

  function AddTo(m: map<string, Bucket>, k: string, p: int): (m': map<string, Bucket>)
    ensures m'.Keys == m.Keys + {k}
    ensures forall j :: CountIn(m', j) == CountIn(m, j) + (if j == k then 1 else 0)
    ensures forall j :: RevenueOf(m', j) == RevenueOf(m, j) + (if j == k then p else 0)
  {
    var b := if k in m then m[k] else Bucket(0, 0);
    m[k := Bucket(b.presentCount + 1, b.revenue + p)]
  }

  function AggOf(byUser: map<UserId, MemberAgg>, u: UserId): MemberAgg {
    if u in byUser then byUser[u] else NOBODY
  }

  /** A member's four counters are how many of their rows have each status. */
  predicate AggCounts(byUser: map<UserId, MemberAgg>, records: seq<Record>, u: UserId) {
    var agg := AggOf(byUser, u);
    && agg.present == Grouped(records, UserOf, One(Present), u)
        && agg.skipped == Grouped(records, UserOf, One(Skipped), u)
    && agg.absent == Grouped(records, UserOf, One(Absent), u)
        && agg.vacation == Grouped(records, UserOf, One(OnVacation), u)
  }

  ghost predicate Folded(f: Fold, records: seq<Record>) {
    && UsersHold(f.byUser, records)
    && BucketsHold(f.byMeal, records, MealOf) && BucketsHold(f.bySlot, records, SlotOf)
    && f.revenue == Sum(records, BilledAmount)
    && CountsHold(f, records)
  }

  function Count(records: seq<Record>, status: AttendanceStatus): nat {
    if records == [] then 0 else
      Count(records[..|records| - 1], status) + (if records[|records| - 1].row.status == status then 1 else 0)
  }

  predicate CountsHold(f: Fold, records: seq<Record>) {
    && f.presentMeals == Count(records, Present) && f.skippedMeals == Count(records, Skipped)
    && f.absentMeals == Count(records, Absent) && f.vacationDays == Count(records, OnVacation)
  }

  /** What a row adds to its member: one more of its status, and its billed amount. */
  function Counted(u: MemberAgg, r: Record): MemberAgg {
    match r.row.status
    case Present => u.(present := u.present + 1, totalBill := u.totalBill + BilledAmount(r))
    case Skipped => u.(skipped := u.skipped + 1, totalBill := u.totalBill + BilledAmount(r))
    case Absent => u.(absent := u.absent + 1, totalBill := u.totalBill + BilledAmount(r))
    case OnVacation => u.(vacation := u.vacation + 1)
    case Pending => u
  }

  predicate FoldedRow(f: Fold, f': Fold, r: Record) {
    && f'.byUser == f.byUser[UserOf(r) := Counted(AggOf(f.byUser, UserOf(r)), r)]
    && f'.byMeal == (if r.row.status == Present then AddTo(f.byMeal, MealOf(r), PresentAmount(r)) else f.byMeal)
    && f'.bySlot == (if r.row.status == Present then AddTo(f.bySlot, SlotOf(r), PresentAmount(r)) else f.bySlot)
    && f'.revenue == f.revenue + BilledAmount(r)
    && f'.presentMeals == f.presentMeals + (if r.row.status == Present then 1 else 0)
    && f'.skippedMeals == f.skippedMeals + (if r.row.status == Skipped then 1 else 0)
    && f'.absentMeals == f.absentMeals + (if r.row.status == Absent then 1 else 0)
    && f'.vacationDays == f.vacationDays + (if r.row.status == OnVacation then 1 else 0)
  }

  /** One row of the fold, branch by branch. */
  method FoldRow(f: Fold, r: Record) returns (f': Fold)
    ensures FoldedRow(f, f', r)
  {
    f' := f;
    var u := AggOf(f.byUser, UserOf(r));
    var p := r.row.price.GetOr(0);
    if r.row.status == Present {
      u := u.(present := u.present + 1, totalBill := u.totalBill + p);
      f' := f'.(presentMeals := f'.presentMeals + 1, revenue := f'.revenue + p,
                byMeal := AddTo(f'.byMeal, MealOf(r), p), bySlot := AddTo(f'.bySlot, SlotOf(r), p));
    } else if r.row.status == Skipped {
      u := u.(skipped := u.skipped + 1, totalBill := u.totalBill + p);
      f' := f'.(skippedMeals := f'.skippedMeals + 1, revenue := f'.revenue + p);
    } else if r.row.status == Absent {
      u := u.(absent := u.absent + 1);
      f' := f'.(absentMeals := f'.absentMeals + 1);
      if r.row.billAbsent == Some(true) {
        u := u.(totalBill := u.totalBill + p);
        f' := f'.(revenue := f'.revenue + p);
      }
    } else if r.row.status == OnVacation {
      u := u.(vacation := u.vacation + 1);
      f' := f'.(vacationDays := f'.vacationDays + 1);
    }
    f' := f'.(byUser := f'.byUser[UserOf(r) := u]);
  }

  lemma GroupedAppend<K>(records: seq<Record>, r: Record, key: Record -> K, amount: Record -> int, k: K)
    ensures Grouped(records + [r], key, amount, k)
            == Grouped(records, key, amount, k) + (if key(r) == k then amount(r) else 0)
  {
    assert (records + [r])[..|records|] == records;
  }

  /** The bucket of each key has that key's present-only revenue and count. */
  ghost predicate BucketsHold(m: map<string, Bucket>, records: seq<Record>, key: Record -> string) {
    && (forall k :: RevenueOf(m, k) == Grouped(records, key, PresentAmount, k))
    && (forall k :: CountIn(m, k) == Grouped(records, key, One(Present), k))
    && (forall r :: r in records && r.row.status == Present ==> key(r) in m)
  }

  lemma BucketsStep(m: map<string, Bucket>, records: seq<Record>, r: Record, key: Record -> string)
    requires BucketsHold(m, records, key)
    ensures BucketsHold(if r.row.status == Present then AddTo(m, key(r), PresentAmount(r)) else m, records + [r], key)
  {
    var m' := if r.row.status == Present then AddTo(m, key(r), PresentAmount(r)) else m;
    forall k
      ensures RevenueOf(m', k) == Grouped(records + [r], key, PresentAmount, k)
      ensures CountIn(m', k) == Grouped(records + [r], key, One(Present), k)
    {
      GroupedAppend(records, r, key, PresentAmount, k);
      GroupedAppend(records, r, key, One(Present), k);
    }
  }

  ghost predicate UsersHold(byUser: map<UserId, MemberAgg>, records: seq<Record>) {
    && (forall u :: BillOf(byUser, u) == Grouped(records, UserOf, BilledAmount, u))
    && (forall u :: AggCounts(byUser, records, u))
    && (forall r :: r in records ==> UserOf(r) in byUser)
  }

  lemma UsersStep(byUser: map<UserId, MemberAgg>, records: seq<Record>, r: Record)
    requires UsersHold(byUser, records)
    ensures UsersHold(byUser[UserOf(r) := Counted(AggOf(byUser, UserOf(r)), r)], records + [r])
  {
    var byUser' := byUser[UserOf(r) := Counted(AggOf(byUser, UserOf(r)), r)];
    forall u ensures BillOf(byUser', u) == Grouped(records + [r], UserOf, BilledAmount, u) {
      GroupedAppend(records, r, UserOf, BilledAmount, u);
      assert BillOf(byUser, u) == AggOf(byUser, u).totalBill;
    }
    forall u ensures AggCounts(byUser', records + [r], u) { CountsStep(byUser, records, r, u); }
  }

  lemma CountsStep(byUser: map<UserId, MemberAgg>, records: seq<Record>, r: Record, u: UserId)
    requires AggCounts(byUser, records, u)
    ensures AggCounts(byUser[UserOf(r) := Counted(AggOf(byUser, UserOf(r)), r)], records + [r], u)
  {
    GroupedAppend(records, r, UserOf, One(Present), u);
    GroupedAppend(records, r, UserOf, One(Skipped), u);
    GroupedAppend(records, r, UserOf, One(Absent), u);
    GroupedAppend(records, r, UserOf, One(OnVacation), u);
  }

  lemma FoldedStep(f: Fold, f': Fold, records: seq<Record>, r: Record)
    requires Folded(f, records) && FoldedRow(f, f', r)
    ensures Folded(f', records + [r])
  {
    UsersStep(f.byUser, records, r);
    BucketsStep(f.byMeal, records, r, MealOf);
    BucketsStep(f.bySlot, records, r, SlotOf);
    assert (records + [r])[..|records|] == records;
  }

  method FoldRows(records: seq<Record>) returns (f: Fold)
    ensures Folded(f, records)
  {
    f := Fold(map[], map[], map[], 0, 0, 0, 0, 0);
    for i := 0 to |records|
      invariant Folded(f, records[..i])
    {
      var f' := FoldRow(f, records[i]);
      FoldedStep(f, f', records[..i], records[i]);
      assert records[..i + 1] == records[..i] + [records[i]];
      f := f';
    }
    assert records[..|records|] == records;
  }

  // ----- totals over the other maps -----

  method SumValues(m: map<UserId, int>) returns (s: int)
    ensures s == SumOfMap(m)
  {
    s := 0;
    var todo := m.Keys;
    while todo != {}
      invariant todo <= m.Keys
      invariant s + SumOver(todo, (u: UserId) => Lookup(m, u)) == SumOfMap(m)
      decreases todo
    {
      var u :| u in todo;
      SumOverRemove(todo, (v: UserId) => Lookup(m, v), u);
      s := s + m[u];
      todo := todo - {u};
    }
  }

  function Totals(d: map<UserId, Detail>): map<UserId, int> { map u | u in d :: d[u].total }

  function GuestAmounts(g: map<UserId, GuestAgg>): map<UserId, int> { map u | u in g :: g[u].guestAmount }

  function NetBill(f: Fold, guests: map<UserId, GuestAgg>, details: map<UserId, Detail>, opening: map<UserId, int>,
                   u: UserId): int {
    Lookup(opening, u) + BillOf(f.byUser, u) + Lookup(GuestAmounts(guests), u) + Lookup(Totals(details), u)
  }

  /** The union of users covers every part, so the net bills add up to the sum of the parts. */
  lemma NetBillsAddUp(f: Fold, guests: map<UserId, GuestAgg>, details: map<UserId, Detail>, opening: map<UserId, int>,
                      all: set<UserId>)
    requires f.byUser.Keys <= all && guests.Keys <= all && details.Keys <= all && opening.Keys <= all
    ensures SumOver(all, (u: UserId) => NetBill(f, guests, details, opening, u))
         == SumOver(opening.Keys, (u: UserId) => Lookup(opening, u))
            + SumOver(f.byUser.Keys, (u: UserId) => BillOf(f.byUser, u))
            + SumOver(guests.Keys, (u: UserId) => Lookup(GuestAmounts(guests), u))
            + SumOver(details.Keys, (u: UserId) => Lookup(Totals(details), u))
  {
    var o := (u: UserId) => Lookup(opening, u);
    var b := (u: UserId) => BillOf(f.byUser, u);
    var g := (u: UserId) => Lookup(GuestAmounts(guests), u);
    var d := (u: UserId) => Lookup(Totals(details), u);
    var ob := (u: UserId) => o(u) + b(u);
    var obg := (u: UserId) => ob(u) + g(u);
    SumOverSubset(opening.Keys, all, o);
    SumOverSubset(f.byUser.Keys, all, b);
    SumOverSubset(guests.Keys, all, g);
    SumOverSubset(details.Keys, all, d);
    SumOverPlus(all, o, b, ob);
    SumOverPlus(all, ob, g, obg);
    SumOverPlus(all, obg, d, (u: UserId) => NetBill(f, guests, details, opening, u));
  }

  // ----- the member list -----

  function Bill(f: Fold, guests: map<UserId, GuestAgg>, details: map<UserId, Detail>, opening: map<UserId, int>,
                u: UserId): MemberBill {
    var agg := if u in f.byUser then f.byUser[u] else NOBODY;
    var guest := if u in guests then guests[u] else GuestAgg(0, 0);
    var detail := if u in details then details[u] else Detail(0, 0, 0, 0);
    MemberBill(u, agg.totalBill + guest.guestAmount, agg.totalBill, agg.present, agg.skipped, agg.absent, agg.vacation,
               guest.guestCount, guest.guestAmount, detail.total, detail.debits, detail.credits, detail.refunds,
               Lookup(opening, u), Lookup(opening, u) + agg.totalBill + guest.guestAmount + detail.total)
  }

  function NetTotal(bills: seq<MemberBill>): int {
    Sum(bills, (b: MemberBill) => b.netBill)
  }

  lemma NetTotalAppend(bills: seq<MemberBill>, b: MemberBill)
    ensures NetTotal(bills + [b]) == NetTotal(bills) + b.netBill
  {
    assert (bills + [b])[..|bills|] == bills;
  }

  predicate OneBillEach(bills: seq<MemberBill>) {
    forall i, j :: 0 <= i < j < |bills| ==> bills[i].userId != bills[j].userId
  }

  lemma BillNet(f: Fold, guests: map<UserId, GuestAgg>, details: map<UserId, Detail>, opening: map<UserId, int>,
                u: UserId)
    ensures Bill(f, guests, details, opening, u).netBill == NetBill(f, guests, details, opening, u)
    ensures Bill(f, guests, details, opening, u).userId == u
  {
  }

  predicate BillsOf(bills: seq<MemberBill>, users: set<UserId>, f: Fold, guests: map<UserId, GuestAgg>,
                    details: map<UserId, Detail>, opening: map<UserId, int>) {
    forall i :: 0 <= i < |bills| ==>
      bills[i].userId in users && bills[i] == Bill(f, guests, details, opening, bills[i].userId)
  }

  predicate HasBill(bills: seq<MemberBill>, u: UserId) {
    exists i :: 0 <= i < |bills| && bills[i].userId == u
  }

  lemma BilledNext(bills: seq<MemberBill>, b: MemberBill, u: UserId)
    ensures HasBill(bills + [b], u) <==> HasBill(bills, u) || b.userId == u
  {
    var all := bills + [b];
    if HasBill(bills, u) {
      var i :| 0 <= i < |bills| && bills[i].userId == u;
      assert all[i].userId == u;
    }
    assert all[|bills|] == b;
  }

  method MemberBills(f: Fold, guests: map<UserId, GuestAgg>, details: map<UserId, Detail>, opening: map<UserId, int>,
                     all: set<UserId>)
    returns (bills: seq<MemberBill>)
    ensures BillsOf(bills, all, f, guests, details, opening) && OneBillEach(bills)
    ensures forall u :: u in all ==> HasBill(bills, u)
    ensures NetTotal(bills) == SumOver(all, (u: UserId) => NetBill(f, guests, details, opening, u))
  {
    bills := [];
    var net := (u: UserId) => NetBill(f, guests, details, opening, u);
    var todo := all;
    while todo != {}
      invariant todo <= all
      invariant BillsOf(bills, all - todo, f, guests, details, opening) && OneBillEach(bills)
      invariant forall u :: u in all - todo ==> HasBill(bills, u)
      invariant NetTotal(bills) + SumOver(todo, net) == SumOver(all, net)
      decreases todo
    {
      var u :| u in todo;
      var b := Bill(f, guests, details, opening, u);
      BillNet(f, guests, details, opening, u);
      SumOverRemove(todo, net, u);
      NetTotalAppend(bills, b);
      forall v { BilledNext(bills, b, v); }
      bills := bills + [b];
      todo := todo - {u};
    }
    SumOverSame(all, net, (u: UserId) => NetBill(f, guests, details, opening, u));
  }

  /** What the member's rows bill. */
  function MealsOf(records: seq<Record>, u: UserId): int {
    Total(Rows(records), MealCharge, u, AllTime)
  }

  /** One more row moves its member's meal charges, and the revenue, by its price or not at all. */
  lemma RowMovesMeals(records: seq<Record>, x: Record, u: UserId)
    ensures var a := x.row;
            var bills := a.price.Some?
                && (a.status in {Present, Skipped} || (a.status == Absent && a.billAbsent == Some(true)));
            && MealsOf(records + [x], u) - MealsOf(records, u)
               == (if a.userId == u && bills then a.price.value else 0)
            && Sum(records + [x], BilledAmount) - Sum(records, BilledAmount) == (if bills then a.price.value else 0)
  {
    assert Rows(records + [x]) == Rows(records) + [x.row];
    TotalAppend(Rows(records), x.row, MealCharge, u, AllTime);
    assert (records + [x])[..|records|] == records;
  }

  /** One more row adds to its meal's and its slot's kitchen figures when it is present, and to no other's. */
  lemma RowMovesKitchen(records: seq<Record>, x: Record, k: string)
    ensures var present := x.row.status == Present;
            var price := if present && x.row.price.Some? then x.row.price.value else 0;
            var slot := if x.slotKey.Some? then x.slotKey.value else "general";
            && Grouped(records + [x], MealOf, PresentAmount, k) - Grouped(records, MealOf, PresentAmount, k)
               == (if k == x.row.mealId then price else 0)
            && Grouped(records + [x], SlotOf, PresentAmount, k) - Grouped(records, SlotOf, PresentAmount, k)
               == (if k == slot then price else 0)
            && Grouped(records + [x], MealOf, One(Present), k) - Grouped(records, MealOf, One(Present), k)
               == (if k == x.row.mealId && present then 1 else 0)
            && Grouped(records + [x], SlotOf, One(Present), k) - Grouped(records, SlotOf, One(Present), k)
               == (if k == slot && present then 1 else 0)
  {
    assert (records + [x])[..|records|] == records;
  }

  /** The row's totals add up. */
  predicate Reconciles(b: MemberBill) {
    && b.totalBill == b.mealCharges + b.guestAmount
    && b.netBill == b.openingBalance + b.mealCharges + b.guestAmount + b.adjustmentsTotal
  }

  /** A row of the list states its parts truly. */
  ghost predicate BillHolds(b: MemberBill, records: seq<Record>, guests: map<UserId, GuestAgg>,
                            details: map<UserId, Detail>, opening: map<UserId, int>) {
    && b.mealCharges == MealsOf(records, b.userId)
    && Reconciles(b)
    && b.presentCount == Grouped(records, UserOf, One(Present), b.userId)
    && b.skippedCount == Grouped(records, UserOf, One(Skipped), b.userId)
    && b.absentCount == Grouped(records, UserOf, One(Absent), b.userId)
    && b.vacationDays == Grouped(records, UserOf, One(OnVacation), b.userId)
    && b.openingBalance == Lookup(opening, b.userId)
    && b.guestAmount == Lookup(GuestAmounts(guests), b.userId)
    && b.guestCount == (if b.userId in guests then guests[b.userId].guestCount else 0)
    && b.adjustmentsTotal == Lookup(Totals(details), b.userId)
    && b.debitsTotal == Lookup(Debits(details), b.userId)
    && b.creditsTotal == Lookup(Credits(details), b.userId)
    && b.refundsTotal == Lookup(Refunds(details), b.userId)
  }

  ghost predicate BillsHold(bills: seq<MemberBill>, records: seq<Record>, guests: map<UserId, GuestAgg>,
                            details: map<UserId, Detail>, opening: map<UserId, int>) {
    forall b :: b in bills ==> BillHolds(b, records, guests, details, opening)
  }

  lemma BillIsTrue(u: UserId, records: seq<Record>, f: Fold, guests: map<UserId, GuestAgg>,
                   details: map<UserId, Detail>, opening: map<UserId, int>)
    requires Folded(f, records)
    ensures BillHolds(Bill(f, guests, details, opening, u), records, guests, details, opening)
  {
    GroupedIsTotal(records, u);
    assert BillOf(f.byUser, u) == Grouped(records, UserOf, BilledAmount, u);
    assert AggCounts(f.byUser, records, u);
  }

  /** The breakdown has each key's present-only revenue and count, and splits all of both. */
  ghost predicate Splits(m: map<string, Bucket>, records: seq<Record>, key: Record -> string) {
    && BucketsHold(m, records, key)
    && SumOver(m.Keys, (k: string) => CountIn(m, k)) == Count(records, Present)
    && SumOver(m.Keys, (k: string) => RevenueOf(m, k)) == Sum(records, PresentAmount)
  }

  /**
   * The whole summary. Money is conserved: the members' net bills add up to the carried balances and
   * the net revenue; each member's meal charges are their billed rows; and the meal and slot
   * breakdowns split the same present-only revenue and count. No member has two bills.
   */
  method GetBillingSummary(records: seq<Record>, roster: seq<Member>, guests: map<UserId, GuestAgg>,
                           details: map<UserId, Detail>, opening: map<UserId, int>) returns (s: Summary)
    ensures NetTotal(s.members) == s.openingBalanceTotal + s.netRevenue
    ensures BillsHold(s.members, records, guests, details, opening) && OneBillEach(s.members)
    ensures forall m :: m in roster && m.active ==> HasBill(s.members, m.userId)
    ensures forall r :: r in records ==> HasBill(s.members, UserOf(r))
    ensures Splits(s.byMeal, records, MealOf) && Splits(s.bySlot, records, SlotOf)
    ensures s.revenue == Sum(records, BilledAmount) + s.guestRevenue && s.guestRevenue == SumOfMap(GuestAmounts(guests))
    ensures s.openingBalanceTotal == SumOfMap(opening) && s.adjustmentsTotal == SumOfMap(Totals(details))
    ensures s.debitsTotal == SumOfMap(Debits(details)) && s.creditsTotal == SumOfMap(Credits(details))
    ensures s.refundsTotal == SumOfMap(Refunds(details)) && s.netRevenue == s.revenue + s.adjustmentsTotal
    ensures s.presentMeals == Count(records, Present) && s.skippedMeals == Count(records, Skipped)
    ensures s.absentMeals == Count(records, Absent) && s.vacationDays == Count(records, OnVacation)
  {
    var f := FoldRows(records);
    var guestRevenue := SumValues(GuestAmounts(guests));
    var ledger := LedgerTotals(details);
    var openingBalanceTotal := SumValues(opening);
    var activeIds := set i | 0 <= i < |roster| && roster[i].active :: roster[i].userId;
    var all := activeIds + f.byUser.Keys + guests.Keys + details.Keys + opening.Keys;
    var bills := MemberBills(f, guests, details, opening, all);
    var revenue := f.revenue + guestRevenue;
    s := Summary(revenue, f.presentMeals, f.skippedMeals, f.absentMeals, f.vacationDays, guestRevenue, ledger.total,
                 ledger.debits, ledger.credits, ledger.refunds, openingBalanceTotal, revenue + ledger.total,
                 f.byMeal, f.bySlot, bills);
    SummaryAddsUp(records, f, guests, details, opening, all);
    forall b | b in bills ensures BillHolds(b, records, guests, details, opening) {
      BillIsTrue(b.userId, records, f, guests, details, opening);
    }
    forall m | m in roster && m.active ensures m.userId in all {
      var i :| 0 <= i < |roster| && roster[i] == m;
      assert roster[i].userId in activeIds;
    }
  }

  function Debits(d: map<UserId, Detail>): map<UserId, int> { map u | u in d :: d[u].debits }

  function Credits(d: map<UserId, Detail>): map<UserId, int> { map u | u in d :: d[u].credits }

  function Refunds(d: map<UserId, Detail>): map<UserId, int> { map u | u in d :: d[u].refunds }

  ghost function SumOfMap(m: map<UserId, int>): int {
    SumOver(m.Keys, (u: UserId) => Lookup(m, u))
  }

  method LedgerTotals(details: map<UserId, Detail>) returns (t: Detail)
    ensures t.total == SumOfMap(Totals(details)) && t.debits == SumOfMap(Debits(details))
    ensures t.credits == SumOfMap(Credits(details)) && t.refunds == SumOfMap(Refunds(details))
  {
    var total := SumValues(Totals(details));
    var credits := SumValues(Credits(details));
    var debits := SumValues(Debits(details));
    var refunds := SumValues(Refunds(details));
    return Detail(total, credits, debits, refunds);
  }

  lemma SummaryAddsUp(records: seq<Record>, f: Fold, guests: map<UserId, GuestAgg>, details: map<UserId, Detail>,
                      opening: map<UserId, int>, all: set<UserId>)
    requires Folded(f, records)
    requires f.byUser.Keys <= all && guests.Keys <= all && details.Keys <= all && opening.Keys <= all
    ensures SumOver(all, (u: UserId) => NetBill(f, guests, details, opening, u))
         == SumOfMap(opening) + f.revenue + SumOfMap(GuestAmounts(guests)) + SumOfMap(Totals(details))
    ensures Splits(f.byMeal, records, MealOf) && Splits(f.bySlot, records, SlotOf)
  {
    NetBillsAddUp(f, guests, details, opening, all);
    assert GuestAmounts(guests).Keys == guests.Keys && Totals(details).Keys == details.Keys;
    GroupsAddUp(records, UserOf, BilledAmount, f.byUser.Keys);
    SumOverSame(f.byUser.Keys, (u: UserId) => BillOf(f.byUser, u),
        (u: UserId) => Grouped(records, UserOf, BilledAmount, u));
    BucketsSplit(f.byMeal, records, MealOf);
    BucketsSplit(f.bySlot, records, SlotOf);
  }

  lemma BucketsSplit(m: map<string, Bucket>, records: seq<Record>, key: Record -> string)
    requires BucketsHold(m, records, key)
    ensures Splits(m, records, key)
  {
    GroupsAddUp(records, key, PresentAmount, m.Keys);
    SumOverSame(m.Keys, (k: string) => RevenueOf(m, k), (k: string) => Grouped(records, key, PresentAmount, k));
    GroupsAddUp(records, key, One(Present), m.Keys);
    SumOverSame(m.Keys, (k: string) => CountIn(m, k), (k: string) => Grouped(records, key, One(Present), k));
    CountIsSum(records, Present);
  }

  /** What a member is shown: meal charges are the bill without the guests. */
  datatype MyBill = MyBill(
    presentCount: nat, skippedCount: nat, absentCount: nat, vacationDays: nat, mealCharges: int, guestCount: nat,
    guestAmount: int, adjustmentsTotal: int, debitsTotal: int, creditsTotal: int, refundsTotal: int,
    openingBalance: int, totalBill: int, netBill: int)

  function ViewOf(b: MemberBill): MyBill {
    MyBill(b.presentCount, b.skippedCount, b.absentCount, b.vacationDays, b.totalBill - b.guestAmount, b.guestCount,
           b.guestAmount, b.adjustmentsTotal, b.debitsTotal, b.creditsTotal, b.refundsTotal, b.openingBalance,
           b.totalBill, b.netBill)
  }

  /** Taking the guests off the bill leaves the meal charges. */
  lemma ViewShowsMeals(b: MemberBill, records: seq<Record>, guests: map<UserId, GuestAgg>,
                       details: map<UserId, Detail>, opening: map<UserId, int>)
    requires BillHolds(b, records, guests, details, opening)
    ensures ViewOf(b).mealCharges == b.mealCharges == MealsOf(records, b.userId)
    ensures var v := ViewOf(b);
            && v.presentCount == b.presentCount && v.skippedCount == b.skippedCount
            && v.absentCount == b.absentCount && v.vacationDays == b.vacationDays
            && v.guestCount == b.guestCount && v.guestAmount == b.guestAmount
            && v.adjustmentsTotal == b.adjustmentsTotal && v.debitsTotal == b.debitsTotal
            && v.creditsTotal == b.creditsTotal && v.refundsTotal == b.refundsTotal
            && v.openingBalance == b.openingBalance && v.totalBill == b.totalBill && v.netBill == b.netBill
  {
  }

  /** Opening, meals, guests and adjustments add up to the net the member sees. */
  predicate AddsUp(v: MyBill) {
    v.netBill == v.openingBalance + v.mealCharges + v.guestAmount + v.adjustmentsTotal
  }

  lemma ViewAddsUp(b: MemberBill)
    requires Reconciles(b)
    ensures AddsUp(ViewOf(b))
  {
  }

  /** Where the member's row is among the bills, or their number. */
  method FindBill(bills: seq<MemberBill>, userId: UserId) returns (k: nat)
    ensures k <= |bills| && (k < |bills| ==> bills[k].userId == userId)
    ensures forall j :: 0 <= j < k ==> bills[j].userId != userId
  {
    k := 0;
    while k < |bills| && bills[k].userId != userId
      invariant k <= |bills| && forall j :: 0 <= j < k ==> bills[j].userId != userId
    {
      k := k + 1;
    }
  }

  /** What a member without a row is shown. */
  const ZEROS := MyBill(0, 0, 0, 0, 0, 0, 0, 0, 0, 0, 0, 0, 0, 0)

  /**
   * A member's own view of the group's summary: every figure of their row, or zeros without one. So what a
   * member sees adds up, and is what the admin sees.
   */
  method GetMyBilling(s: Summary, userId: UserId) returns (mine: MyBill)
    requires OneBillEach(s.members) && forall i :: 0 <= i < |s.members| ==> Reconciles(s.members[i])
    ensures forall i :: 0 <= i < |s.members| && s.members[i].userId == userId ==> mine == ViewOf(s.members[i])
    ensures (forall i :: 0 <= i < |s.members| ==> s.members[i].userId != userId) ==> mine == ZEROS
    ensures AddsUp(mine)
  {
    var k := FindBill(s.members, userId);
    if k == |s.members| {
      return ZEROS;
    }
    ViewAddsUp(s.members[k]);
    return ViewOf(s.members[k]);
  }
}
