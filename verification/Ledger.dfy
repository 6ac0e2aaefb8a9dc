/**
 * The rows a bill is made of, their sums, and the one place where ledger paise
 * become whole rupees. All rows belong to one group; days are day numbers.
 */
module Ledger {
  import opened Prelude

  type UserId = string

  datatype AttendanceStatus = Pending | Present | Absent | Skipped | OnVacation
  datatype Attendance = Attendance(
    userId: UserId, mealId: string, date: int, status: AttendanceStatus,
    price: Option<int>, billAbsent: Option<bool>)

  datatype GuestStatus = Booked | NoShow | Cancelled
  datatype Guest = Guest(
    hostUserId: UserId, date: int, status: GuestStatus, pendingApproval: bool, priceSnapshot: Option<int>)

  datatype EntryType = Credit | Debit | Refund
  datatype EntryStatus = Posted | AwaitingMember | Rejected
  /** `request` names the correction request an admin gave as the member's consent. */
  datatype Entry = Entry(
    userId: UserId, entryDate: int, kind: EntryType, amount: int, status: EntryStatus, request: Option<string>)

  datatype Policy = Policy(guestAttendanceEnabled: bool, billNoShowGuests: bool)

  datatype Tables = Tables(attendance: seq<Attendance>, guests: seq<Guest>, ledger: seq<Entry>)

  // ----- which rows bill, and for how much -----

  /** The shared filter: present and skipped rows, and absents snapshotted as billed. */
  predicate Billed(r: Attendance) {
    r.status == Present || r.status == Skipped || (r.status == Absent && r.billAbsent == Some(true))
  }

  predicate GuestBilled(p: Policy, g: Guest) {
    && p.guestAttendanceEnabled
    && !g.pendingApproval
    && (g.status == Booked || (g.status == NoShow && p.billNoShowGuests))
  }

  /** What one row adds to one user's account on one day. */
  datatype Charge = Charge(userId: UserId, date: int, amount: int)

  function MealCharge(r: Attendance): Charge {
    Charge(r.userId, r.date, if Billed(r) then r.price.GetOr(0) else 0)
  }

  /** What a snapshot also keeps: how many rows are present, and their prices. */
  function PresentCount(r: Attendance): Charge {
    Charge(r.userId, r.date, if r.status == Present then 1 else 0)
  }

  function PresentCharge(r: Attendance): Charge {
    Charge(r.userId, r.date, if r.status == Present then r.price.GetOr(0) else 0)
  }

  function GuestCharge(p: Policy): Guest -> Charge {
    (g: Guest) => Charge(g.hostUserId, g.date, if GuestBilled(p, g) then g.priceSnapshot.GetOr(0) else 0)
  }

  /** Paise of one ledger type; only posted entries count. */
  function KindCharge(k: EntryType): Entry -> Charge {
    (e: Entry) => Charge(e.userId, e.entryDate, if e.status == Posted && e.kind == k then e.amount else 0)
  }

  /** Signed paise, payable-positive: a refund consumes credit, so it counts like a debit. */
  function LedgerCharge(e: Entry): Charge {
    Charge(e.userId, e.entryDate,
           if e.status != Posted then 0 else if e.kind == Credit then -e.amount else e.amount)
  }

  // ----- sums over a range of days -----

  datatype Range = AllTime | Through(last: int) | Between(first: int, last: int) {
    predicate Has(day: int) {
      match this
      case AllTime => true
      case Through(hi) => day <= hi
      case Between(lo, hi) => lo <= day <= hi
    }
  }

  function Total<T>(rows: seq<T>, charge: T -> Charge, u: UserId, r: Range): int {
    if rows == [] then 0 else
      var c := charge(rows[|rows| - 1]);
      Total(rows[..|rows| - 1], charge, u, r) + (if c.userId == u && r.Has(c.date) then c.amount else 0)
  }

  lemma TotalAppend<T>(rows: seq<T>, x: T, charge: T -> Charge, u: UserId, r: Range)
    ensures Total(rows + [x], charge, u, r)
         == Total(rows, charge, u, r) + (if charge(x).userId == u && r.Has(charge(x).date) then charge(x).amount else 0)
  {
    assert (rows + [x])[..|rows|] == rows;
  }

  lemma {:induction false} TotalSplits<T>(rows: seq<T>, charge: T -> Charge, u: UserId, mid: int, last: int)
    requires mid <= last
    ensures Total(rows, charge, u, Through(last))
         == Total(rows, charge, u, Through(mid)) + Total(rows, charge, u, Between(mid + 1, last))
  {
    if rows != [] {
      TotalSplits(rows[..|rows| - 1], charge, u, mid, last);
    }
  }

  lemma {:induction false} TotalOfNone<T>(rows: seq<T>, charge: T -> Charge, u: UserId, r: Range)
    requires forall x :: x in rows ==> charge(x).userId == u && r.Has(charge(x).date) ==> charge(x).amount == 0
    ensures Total(rows, charge, u, r) == 0
  {
    if rows != [] {
      TotalOfNone(rows[..|rows| - 1], charge, u, r);
    }
  }

  lemma {:induction false} LedgerByKind(rows: seq<Entry>, u: UserId, r: Range)
    ensures Total(rows, LedgerCharge, u, r)
         == Total(rows, KindCharge(Debit), u, r) + Total(rows, KindCharge(Refund), u, r)
            - Total(rows, KindCharge(Credit), u, r)
  {
    if rows != [] {
      LedgerByKind(rows[..|rows| - 1], u, r);
    }
  }

  /** What one more attendance row adds: its price, when it is present, skipped, or absent and marked as billed. */
  lemma OneMoreMeal(rows: seq<Attendance>, x: Attendance, u: UserId, first: int, last: int)
    ensures Total(rows + [x], MealCharge, u, Between(first, last)) - Total(rows, MealCharge, u, Between(first, last))
         == if x.userId != u || x.date < first || last < x.date then 0 else
              match x.status
              case Pending => 0
              case Present => if x.price == None then 0 else x.price.value
              case Absent => if x.billAbsent != Some(true) || x.price == None then 0 else x.price.value
              case Skipped => if x.price == None then 0 else x.price.value
              case OnVacation => 0
    ensures Total(rows + [x], PresentCharge, u, Between(first, last))
            - Total(rows, PresentCharge, u, Between(first, last))
         == if x.userId != u || x.date < first || last < x.date || x.status != Present || x.price == None then 0
            else x.price.value
    ensures Total(rows + [x], PresentCount, u, Between(first, last))
            - Total(rows, PresentCount, u, Between(first, last))
         == if x.userId != u || x.date < first || last < x.date || x.status != Present then 0 else 1
  {
    TotalAppend(rows, x, MealCharge, u, Between(first, last));
    TotalAppend(rows, x, PresentCharge, u, Between(first, last));
    TotalAppend(rows, x, PresentCount, u, Between(first, last));
  }

  /** What one more guest adds to the host: a booked guest bills, a no-show one only where the group says so. */
  lemma OneMoreGuest(rows: seq<Guest>, x: Guest, policy: Policy, u: UserId, first: int, last: int)
    ensures Total(rows + [x], GuestCharge(policy), u, Between(first, last))
            - Total(rows, GuestCharge(policy), u, Between(first, last))
         == if x.hostUserId != u || x.date < first || last < x.date then 0
            else if !policy.guestAttendanceEnabled || x.pendingApproval || x.priceSnapshot == None then 0 else
              match x.status
              case Booked => x.priceSnapshot.value
              case NoShow => if policy.billNoShowGuests then x.priceSnapshot.value else 0
              case Cancelled => 0
  {
    TotalAppend(rows, x, GuestCharge(policy), u, Between(first, last));
  }

  /** What one more entry adds, in paise: only a posted one counts, and only a credit lowers the bill. */
  lemma OneMoreEntry(rows: seq<Entry>, x: Entry, u: UserId, first: int, last: int)
    ensures Total(rows + [x], LedgerCharge, u, Between(first, last))
            - Total(rows, LedgerCharge, u, Between(first, last))
         == if x.userId != u || x.entryDate < first || last < x.entryDate then 0 else
              match x.status
              case Posted => (match x.kind case Credit => -x.amount case Debit => x.amount case Refund => x.amount)
              case AwaitingMember => 0
              case Rejected => 0
  {
    TotalAppend(rows, x, LedgerCharge, u, Between(first, last));
  }

  /** The three ranges differ only in their bounds. */
  lemma {:induction false} TotalOfRange<T>(rows: seq<T>, charge: T -> Charge, u: UserId, first: int, last: int)
    requires forall x :: x in rows ==> first <= charge(x).date
    ensures Total(rows, charge, u, Through(last)) == Total(rows, charge, u, Between(first, last))
    ensures (forall x :: x in rows ==> charge(x).date <= last)
              ==> Total(rows, charge, u, AllTime) == Total(rows, charge, u, Between(first, last))
  {
    if rows != [] {
      TotalOfRange(rows[..|rows| - 1], charge, u, first, last);
    }
  }

  // ----- paise to rupees -----

  /** `Math.round(paise / 100)`: halves go up, also below zero. */
  function Rupees(paise: int): (r: int)
    ensures -50 < 100 * r - paise <= 50
  {
    (paise + 50) / 100
  }

  function SumPaise(ps: seq<int>): int {
    if ps == [] then 0 else SumPaise(ps[..|ps| - 1]) + ps[|ps| - 1]
  }

  function SumRupees(ps: seq<int>): int {
    if ps == [] then 0 else SumRupees(ps[..|ps| - 1]) + Rupees(ps[|ps| - 1])
  }

  lemma {:induction false} RoundingDrift(ps: seq<int>)
    ensures -50 * |ps| <= 100 * SumRupees(ps) - SumPaise(ps) <= 50 * |ps|
  {
    if ps != [] {
      RoundingDrift(ps[..|ps| - 1]);
    }
  }

  lemma {:induction false} WholeRupeesDoNotDrift(ps: seq<int>)
    requires forall k :: 0 <= k < |ps| ==> ps[k] % 100 == 0
    ensures 100 * SumRupees(ps) == SumPaise(ps)
  {
    if ps != [] {
      WholeRupeesDoNotDrift(ps[..|ps| - 1]);
      assert ps[|ps| - 1] % 100 == 0;
    }
  }

  /** Rounding period by period differs from rounding once by less than (n + 1) / 2 rupees. */
  lemma RoundingOftenVersusOnce(ps: seq<int>)
    ensures var d := SumRupees(ps) - Rupees(SumPaise(ps));
            && -(|ps| + 1) < 2 * d < |ps| + 1
            && ((forall k :: 0 <= k < |ps| ==> ps[k] % 100 == 0) ==> d == 0)
  {
    RoundingDrift(ps);
    if forall k :: 0 <= k < |ps| ==> ps[k] % 100 == 0 { WholeRupeesDoNotDrift(ps); }
    var d := SumRupees(ps) - Rupees(SumPaise(ps));
    assert 100 * d == (100 * SumRupees(ps) - SumPaise(ps)) - (100 * Rupees(SumPaise(ps)) - SumPaise(ps));
    if |ps| > 0 && 100 * SumRupees(ps) - SumPaise(ps) == -50 * |ps| {
      DriftIsStrictBelow(ps);
    }
  }

  lemma {:induction false} DriftIsStrictBelow(ps: seq<int>)
    requires |ps| > 0
    ensures -50 * |ps| < 100 * SumRupees(ps) - SumPaise(ps)
  {
    RoundingDrift(ps[..|ps| - 1]);
  }

  function HalfRupees(n: nat): seq<int> {
    if n == 0 then [] else HalfRupees(n - 1) + [50]
  }

  /** The bound is reached: n periods of fifty paise differ by n / 2 rupees. */
  lemma {:induction false} RoundingBoundIsTight(n: nat)
    ensures |HalfRupees(n)| == n && SumRupees(HalfRupees(n)) == n && SumPaise(HalfRupees(n)) == 50 * n
    ensures SumRupees(HalfRupees(n)) - Rupees(SumPaise(HalfRupees(n))) == n / 2
  {
    if n > 0 {
      RoundingBoundIsTight(n - 1);
      assert HalfRupees(n)[..n - 1] == HalfRupees(n - 1);
    }
  }

  // ----- what the database returns when grouping -----

  /** A row of `groupBy userId` with a nullable sum. */
  datatype UserSum = UserSum(userId: UserId, sum: Option<int>)

  function UserTotal(rows: seq<UserSum>, u: UserId): int {
    if rows == [] then 0 else
      UserTotal(rows[..|rows| - 1], u)
      + (if rows[|rows| - 1].userId == u then rows[|rows| - 1].sum.GetOr(0) else 0)
  }

  ghost predicate GroupsByUser<T>(groups: seq<UserSum>, rows: seq<T>, charge: T -> Charge, r: Range) {
    forall u: UserId :: UserTotal(groups, u) == Total(rows, charge, u, r)
  }

  /** A row of `groupBy userId, type` with a nullable sum. */
  datatype KindSum = KindSum(userId: UserId, kind: EntryType, sum: Option<int>)

  function KindTotal(rows: seq<KindSum>, u: UserId, k: EntryType): int {
    if rows == [] then 0 else
      var last := rows[|rows| - 1];
      KindTotal(rows[..|rows| - 1], u, k) + (if last.userId == u && last.kind == k then last.sum.GetOr(0) else 0)
  }

  function NetPaise(rows: seq<KindSum>, u: UserId): int {
    KindTotal(rows, u, Debit) + KindTotal(rows, u, Refund) - KindTotal(rows, u, Credit)
  }

  ghost predicate GroupsByKind(groups: seq<KindSum>, rows: seq<Entry>, r: Range) {
    forall u: UserId, k: EntryType :: KindTotal(groups, u, k) == Total(rows, KindCharge(k), u, r)
  }

  lemma NetOfGroups(groups: seq<KindSum>, rows: seq<Entry>, r: Range, u: UserId)
    requires GroupsByKind(groups, rows, r)
    ensures NetPaise(groups, u) == Total(rows, LedgerCharge, u, r)
  {
    LedgerByKind(rows, u, r);
  }

  lemma {:induction false} UnlistedHasNoTotal(rows: seq<KindSum>, u: UserId, k: EntryType)
    requires forall g :: g in rows ==> g.userId != u
    ensures KindTotal(rows, u, k) == 0
  {
    if rows != [] {
      UnlistedHasNoTotal(rows[..|rows| - 1], u, k);
    }
  }

  // ----- per-user ledger totals -----

  lemma NetPaiseAppend(rows: seq<KindSum>, r: KindSum, u: UserId)
    ensures NetPaise(rows + [r], u) == NetPaise(rows, u)
              + (if r.userId != u then 0 else if r.kind == Credit then -r.sum.GetOr(0) else r.sum.GetOr(0))
  {
    assert (rows + [r])[..|rows|] == rows;
  }

  /** Net adjustments per user in whole rupees: paise are summed first and rounded once. */
  method SumAdjustmentsByUser(rows: seq<KindSum>) returns (byUser: map<UserId, int>)
    ensures forall u :: u in byUser <==> exists g :: g in rows && g.userId == u
    ensures forall u :: u in byUser ==> byUser[u] == Rupees(NetPaise(rows, u))
  {
    var paise: map<UserId, int> := map[];
    for i := 0 to |rows|
      invariant forall u :: u in paise <==> exists g :: g in rows[..i] && g.userId == u
      invariant forall u :: (if u in paise then paise[u] else 0) == NetPaise(rows[..i], u)
    {
      var r := rows[i];
      var signed := r.sum.GetOr(0) * (if r.kind == Credit then -1 else 1);
      assert rows[..i + 1] == rows[..i] + [r];
      forall u { NetPaiseAppend(rows[..i], r, u); }
      paise := paise[r.userId := (if r.userId in paise then paise[r.userId] else 0) + signed];
    }
    assert rows[..|rows|] == rows;
    byUser := RoundAll(paise);
  }

  method RoundAll(paise: map<UserId, int>) returns (byUser: map<UserId, int>)
    ensures byUser.Keys == paise.Keys
    ensures forall u :: u in byUser ==> byUser[u] == Rupees(paise[u])
  {
    byUser := map[];
    var todo := paise.Keys;
    while todo != {}
      invariant todo <= paise.Keys && byUser.Keys == paise.Keys - todo
      invariant forall u :: u in byUser ==> byUser[u] == Rupees(paise[u])
      decreases todo
    {
      var u :| u in todo;
      byUser := byUser[u := Rupees(paise[u])];
      todo := todo - {u};
    }
  }

  datatype Detail = Detail(total: int, credits: int, debits: int, refunds: int)
  datatype PaiseDetail = PaiseDetail(net: int, credits: int, debits: int, refunds: int)

  function PaiseOf(rows: seq<KindSum>, u: UserId): PaiseDetail {
    PaiseDetail(NetPaise(rows, u), KindTotal(rows, u, Credit), KindTotal(rows, u, Debit), KindTotal(rows, u, Refund))
  }

  function RoundDetail(p: PaiseDetail): Detail {
    Detail(Rupees(p.net), Rupees(p.credits), Rupees(p.debits), Rupees(p.refunds))
  }

  function DetailOf(rows: seq<KindSum>, u: UserId): Detail {
    RoundDetail(PaiseOf(rows, u))
  }

  lemma PaiseOfAppend(rows: seq<KindSum>, r: KindSum, u: UserId)
    ensures PaiseOf(rows + [r], u) ==
            if r.userId != u then PaiseOf(rows, u) else AddPaise(PaiseOf(rows, u), r.kind, r.sum.GetOr(0))
  {
    assert (rows + [r])[..|rows|] == rows;
  }

  function AddPaise(p: PaiseDetail, kind: EntryType, amt: int): PaiseDetail {
    match kind
    case Credit => p.(net := p.net - amt, credits := p.credits + amt)
    case Refund => p.(net := p.net + amt, refunds := p.refunds + amt)
    case Debit => p.(net := p.net + amt, debits := p.debits + amt)
  }

  /** The same total with its parts, each rounded on its own. */
  method SumAdjustmentsByUserDetailed(rows: seq<KindSum>) returns (byUser: map<UserId, Detail>)
    ensures forall u :: u in byUser <==> exists g :: g in rows && g.userId == u
    ensures forall u :: u in byUser ==> byUser[u] == DetailOf(rows, u)
  {
    var none := PaiseDetail(0, 0, 0, 0);
    var paise: map<UserId, PaiseDetail> := map[];
    for i := 0 to |rows|
      invariant forall u :: u in paise <==> exists g :: g in rows[..i] && g.userId == u
      invariant forall u :: (if u in paise then paise[u] else none) == PaiseOf(rows[..i], u)
    {
      var r := rows[i];
      var p := if r.userId in paise then paise[r.userId] else none;
      assert rows[..i + 1] == rows[..i] + [r];
      forall u { PaiseOfAppend(rows[..i], r, u); }
      paise := paise[r.userId := AddPaise(p, r.kind, r.sum.GetOr(0))];
    }
    assert rows[..|rows|] == rows;
    byUser := RoundDetails(paise);
  }

  method RoundDetails(paise: map<UserId, PaiseDetail>) returns (byUser: map<UserId, Detail>)
    ensures byUser.Keys == paise.Keys
    ensures forall u :: u in byUser ==> byUser[u] == RoundDetail(paise[u])
  {
    byUser := map[];
    var todo := paise.Keys;
    while todo != {}
      invariant todo <= paise.Keys && byUser.Keys == paise.Keys - todo
      invariant forall u :: u in byUser ==> byUser[u] == RoundDetail(paise[u])
      decreases todo
    {
      var u :| u in todo;
      byUser := byUser[u := RoundDetail(paise[u])];
      todo := todo - {u};
    }
  }

  /** The itemised parts add up to the total, give or take one rupee of rounding. */
  lemma DetailAddsUp(rows: seq<KindSum>, u: UserId)
    ensures var d := DetailOf(rows, u);
            -1 <= d.total - (d.debits + d.refunds - d.credits) <= 1
  {
    var d := DetailOf(rows, u);
    var c, b, f := KindTotal(rows, u, Credit), KindTotal(rows, u, Debit), KindTotal(rows, u, Refund);
    assert -50 < 100 * d.total - (b + f - c) <= 50;
    assert -50 < 100 * d.debits - b <= 50 && -50 < 100 * d.refunds - f <= 50 && -50 < 100 * d.credits - c <= 50;
  }
}
