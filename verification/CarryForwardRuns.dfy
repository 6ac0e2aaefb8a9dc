/**
 * Carry-forward over runs of the guarded writers: what the snapshots miss, how far they drift, and what
 * reopening and redoing earlier periods does to later ones.
 */
module CarryForwardRuns {
  import opened Prelude
  import opened Ledger
  import opened CarryForward
  import PeriodLock

  function BookOf(s: PeriodLock.State): Book {
    Book(s.t, s.periods)
  }

  // ----- guarded writers keep the chain -----

  /** Periods are finalised in date order and stay so; the policy, and the guests of finalised days, stay. */
  ghost predicate ChainStep(s: PeriodLock.State, op: PeriodLock.Op) {
    && PeriodLock.Permitted(s, op)
    && match op
       case Finalize(start, _, _, _) =>
         PeriodLock.Do(s, op).1 == PeriodLock.Done && s.periods != [] ==> LastEnd(BookOf(s)) < start
       case Reopen(_) => PeriodLock.Do(s, op).1 != PeriodLock.Done
       case Refinalize(_, _) => PeriodLock.Do(s, op).1 != PeriodLock.Done
       case SetPolicy(policy) => policy == s.policy
       case EditGuests(guests) => forall i :: 0 <= i < |s.periods| ==> GuestsFrozen(s, guests, s.periods[i])
       case _ => true
  }

  /** Guest bookings have no lock of their own: a finalised period keeps its guest charges. */
  ghost predicate GuestsFrozen(s: PeriodLock.State, guests: seq<Guest>, p: Period) {
    forall u :: GuestsIn(s.t, s.policy, u, p.start, p.end)
        == GuestsIn(s.t.(guests := guests), s.policy, u, p.start, p.end)
  }

  ghost predicate ChainRun(s: PeriodLock.State, run: seq<PeriodLock.Op>) {
    run != [] ==>
      ChainRun(s, run[..|run| - 1]) && ChainStep(PeriodLock.After(s, run[..|run| - 1]), run[|run| - 1])
  }

  /** One step of the guarded writers, as a step of the chain. */
  function Project(s: PeriodLock.State, op: PeriodLock.Op): Op {
    var (s', out) := PeriodLock.Do(s, op);
    if op.Finalize? && out == PeriodLock.Done then Finalise(op.start, op.end, op.members) else Edit(s'.t)
  }

  /** The lock is what keeps a finalised period's charges. */
  lemma WritesKeepPeriod(s: PeriodLock.State, op: PeriodLock.Op, i: nat)
    requires Chain(s.periods) && i < |s.periods| && ChainStep(s, op)
    requires !op.Finalize? && !op.Reopen? && !op.Refinalize?
    ensures SameIn(s.t, PeriodLock.Do(s, op).0.t, s.policy, s.periods[i])
  {
    assert Linked(s.periods, i);
    forall u ensures SameFor(s.t, PeriodLock.Do(s, op).0.t, s.policy, s.periods[i], u) {
      PeriodLock.WriteKeepsSums(s, op, s.periods[i], u);
      if op.EditGuests? { assert GuestsFrozen(s, op.guests, s.periods[i]); }
    }
  }

  lemma StepIsLegal(s: PeriodLock.State, op: PeriodLock.Op)
    requires Chain(s.periods) && ChainStep(s, op)
    ensures Legal(BookOf(s), Project(s, op), s.policy)
    ensures Apply(BookOf(s), Project(s, op)) == BookOf(PeriodLock.Do(s, op).0)
    ensures PeriodLock.Do(s, op).0.policy == s.policy
  {
    if !op.Finalize? && !op.Reopen? && !op.Refinalize? {
      forall i | 0 <= i < |s.periods| ensures SameIn(s.t, PeriodLock.Do(s, op).0.t, s.policy, s.periods[i]) {
        WritesKeepPeriod(s, op, i);
      }
    }
  }

  function Projected(s: PeriodLock.State, run: seq<PeriodLock.Op>): seq<Op> {
    if run == [] then [] else
      Projected(s, run[..|run| - 1]) + [Project(PeriodLock.After(s, run[..|run| - 1]), run[|run| - 1])]
  }

  /** Runs of the guarded writers with finalisations in date order are runs whose snapshots carry the truth. */
  lemma {:induction false} GuardedRunIsLegal(s: PeriodLock.State, run: seq<PeriodLock.Op>)
    requires s.periods == [] && ChainRun(s, run)
    ensures LegalRun(s.t, Projected(s, run), s.policy)
    ensures After(s.t, Projected(s, run)) == BookOf(PeriodLock.After(s, run))
    ensures PeriodLock.After(s, run).policy == s.policy
  {
    if run != [] {
      var before := PeriodLock.After(s, run[..|run| - 1]);
      var ops, op := Projected(s, run[..|run| - 1]), Project(before, run[|run| - 1]);
      GuardedRunIsLegal(s, run[..|run| - 1]);
      RunCarries(s.t, ops, s.policy);
      StepIsLegal(before, run[|run| - 1]);
      assert (ops + [op])[..|ops|] == ops;
    }
  }

  /**
   * After any run of marks, bulk marks, adjustments, decisions, sweeps on open days and finalisations in
   * date order, the opening balance read from the last snapshot falls short of the one recomputed from
   * the rows by what was charged on days never finalised.
   */
  lemma GuardedSnapshotMissesTheGaps(s: PeriodLock.State, run: seq<PeriodLock.Op>, fromDate: int, u: UserId)
    requires s.periods == [] && ChainRun(s, run)
    ensures var b := BookOf(PeriodLock.After(s, run));
            Chain(b.periods) && AddsUp(b.periods, b.t, s.policy, fromDate, u, 0)
  {
    GuardedRunIsLegal(s, run);
    SnapshotMissesTheGaps(s.t, Projected(s, run), s.policy, fromDate, u);
  }

  /** And without gaps it is the recomputed one, up to the rounding bound. */
  lemma GuardedSnapshotRefinesLive(s: PeriodLock.State, run: seq<PeriodLock.Op>, fromDate: int, u: UserId)
    requires s.periods == [] && ChainRun(s, run)
    requires var b := BookOf(PeriodLock.After(s, run));
             b.periods != [] ==> Contiguous(b.periods) && NoneBefore(b.t, b.periods[0].start)
    ensures var b := BookOf(PeriodLock.After(s, run));
            && Chain(b.periods)
            && var n := PeriodsBefore(b.periods, fromDate);
               var d := Opening(b.periods, b.t, s.policy, fromDate, true, u)
                        - Opening(b.periods, b.t, s.policy, fromDate, false, u);
               -(n + 1) < 2 * d < n + 1 && (WholeRupeeLedger(b.t) ==> d == 0)
  {
    GuardedRunIsLegal(s, run);
    SnapshotRefinesLive(s.t, Projected(s, run), s.policy, fromDate, u);
  }

  // ----- a gap, step by step -----

  function OneMeal(u: UserId, meal: string): PeriodLock.State {
    var row := Attendance(u, meal, 10, Present, Some(50), None);
    PeriodLock.State(Tables([row], [], []), [], [], Policy(false, false))
  }

  /** Two finalisations either side of a meal's day, with nothing to bill in either. */
  function AroundIt(): seq<PeriodLock.Op> {
    [PeriodLock.Finalize(1, 5, 99, []), PeriodLock.Finalize(20, 30, 99, [])]
  }

  lemma NothingInRange(u: UserId, meal: string, periods: seq<Period>, start: int, end: int)
    requires !(start <= 10 <= end) && forall i :: 0 <= i < |periods| ==> periods[i].snapshot == Some([])
    ensures SnapshotOf([], periods, OneMeal(u, meal).t, OneMeal(u, meal).policy, start, end)
  {
    var t := OneMeal(u, meal).t;
    forall v ensures ListedIfAny([], periods, t, OneMeal(u, meal).policy, start, end, v) {
      if LastFinalBefore(periods, start).Some? { PeriodLock.LastFinalIsOne(periods, start); }
      TotalOfNone(t.attendance, MealCharge, v, Between(start, end));
      TotalOfNone(t.attendance, PresentCount, v, Between(start, end));
    }
  }

  const BEFORE := Period(1, 5, true, Some([]))
  const BEHIND := Period(20, 30, true, Some([]))

  lemma AroundItRuns(u: UserId, meal: string)
    ensures PeriodLock.PermittedRun(OneMeal(u, meal), AroundIt())
    ensures PeriodLock.After(OneMeal(u, meal), AroundIt()) == OneMeal(u, meal).(periods := [BEFORE, BEHIND])
  {
    var s, x, y := OneMeal(u, meal), AroundIt()[0], AroundIt()[1];
    NothingInRange(u, meal, [], 1, 5);
    PeriodLock.NextStep(s, [], x);
    assert [] + [x] == [x] && [x] + [y] == AroundIt();
    var s1 := PeriodLock.After(s, [x]);
    assert s1 == s.(periods := [BEFORE]);
    NothingInRange(u, meal, [BEFORE], 20, 30);
    PeriodLock.NextStep(s, [x], y);
  }

  lemma OpeningsAroundIt(u: UserId, meal: string)
    ensures var s := OneMeal(u, meal);
            && Opening([BEFORE, BEHIND], s.t, s.policy, 31, true, u) == 0
            && Opening([BEFORE, BEHIND], s.t, s.policy, 31, false, u) == 50
  {
    assert [BEFORE, BEHIND][..1] == [BEFORE] && [BEFORE][..0] == [];
    assert LastFinalBefore([BEFORE], 31) == Some(BEFORE);
    var row := OneMeal(u, meal).t.attendance[0];
    assert [] + [row] == OneMeal(u, meal).t.attendance;
    TotalAppend([], row, MealCharge, u, Through(30));
  }

  /**
   * The overlap check is the only one made: finalising around a day leaves its meal out of every later
   * opening balance, while the recomputation still counts it.
   */
  lemma GapIsNeverBilled(u: UserId, meal: string)
    ensures PeriodLock.PermittedRun(OneMeal(u, meal), AroundIt())
    ensures var b := PeriodLock.After(OneMeal(u, meal), AroundIt());
            && !PeriodLock.DateFinalized(b.periods, 10)
            && Opening(b.periods, b.t, b.policy, 31, true, u) == 0
            && Opening(b.periods, b.t, b.policy, 31, false, u) == 50
  {
    AroundItRuns(u, meal);
    OpeningsAroundIt(u, meal);
  }

  // ----- redoing periods -----

  /** How much a correction inside the period changes what the user is charged there. */
  function Correction(t: Tables, t': Tables, policy: Policy, p: Period, u: UserId): int {
    ChargedIn(t', policy, p, u) - ChargedIn(t, policy, p, u)
  }

  /** Period `j` is reopened, its days are corrected, and it is finalised again. */
  datatype Redo = Redo(j: nat, t: Tables, rows: seq<SnapRow>)

  function Redone(s: PeriodLock.State, r: Redo): PeriodLock.State {
    PeriodLock.Do(PeriodLock.Do(s, PeriodLock.Reopen(r.j)).0.(t := r.t), PeriodLock.Refinalize(r.j, r.rows)).0
  }

  /** The correction leaves the other finalised periods alone, and the fresh snapshot is true. */
  ghost predicate Redoes(s: PeriodLock.State, r: Redo) {
    && Chain(s.periods) && r.j < |s.periods|
    && (forall i :: 0 <= i < |s.periods| && i != r.j ==> SameIn(s.t, r.t, s.policy, s.periods[i]))
    && PeriodLock.Permitted(PeriodLock.Do(s, PeriodLock.Reopen(r.j)).0.(t := r.t), PeriodLock.Refinalize(r.j, r.rows))
  }

  lemma RedoneState(s: PeriodLock.State, r: Redo)
    requires Redoes(s, r)
    ensures var p := s.periods[r.j];
            var open := s.periods[r.j := p.(finalized := false)];
            && SnapshotOf(r.rows, open, r.t, s.policy, p.start, p.end) && Readable(Some(r.rows))
            && Redone(s, r) == s.(t := r.t, periods := s.periods[r.j := Period(p.start, p.end, true, Some(r.rows))])
            && Chain(Redone(s, r).periods)
  {
    var p := s.periods[r.j];
    assert Linked(s.periods, r.j);
    var open := s.periods[r.j := p.(finalized := false)];
    assert PeriodLock.Do(s, PeriodLock.Reopen(r.j)).0 == s.(periods := open);
    SnapshotReadable(r.rows, open, r.t, s.policy, p.start, p.end);
    var ps := s.periods[r.j := Period(p.start, p.end, true, Some(r.rows))];
    assert open[r.j := Period(p.start, p.end, true, Some(r.rows))] == ps;
    forall i | 0 <= i < |ps| ensures Linked(ps, i) { assert Linked(s.periods, i); }
  }

  lemma {:induction false} CarriedShifts(t: Tables, t': Tables, policy: Policy, ps: seq<Period>, q: Period, j: nat,
                                         k: nat, u: UserId)
    requires j < |ps| && k <= |ps| && q.start == ps[j].start && q.end == ps[j].end
    requires forall i :: 0 <= i < |ps| && i != j ==> SameIn(t, t', policy, ps[i])
    ensures Carried(t', policy, ps[j := q][..k], u)
         == Carried(t, policy, ps[..k], u) + (if j < k then Correction(t, t', policy, ps[j], u) else 0)
  {
    if k > 0 {
      CarriedShifts(t, t', policy, ps, q, j, k - 1, u);
      CarriedNext(t, policy, ps, k - 1, u);
      CarriedNext(t', policy, ps[j := q], k - 1, u);
      if k - 1 != j { assert SameFor(t, t', policy, ps[k - 1], u); }
    }
  }

  /** What the chain should carry moves by the correction, from the redone period on. */
  lemma CarriedMoves(s: PeriodLock.State, r: Redo, k: nat, u: UserId)
    requires Redoes(s, r) && k <= |s.periods|
    ensures |Redone(s, r).periods| == |s.periods|
    ensures Carried(r.t, s.policy, Redone(s, r).periods[..k], u)
         == Carried(s.t, s.policy, s.periods[..k], u)
            + (if r.j < k then Correction(s.t, r.t, s.policy, s.periods[r.j], u) else 0)
  {
    RedoneState(s, r);
    CarriedShifts(s.t, r.t, s.policy, s.periods, Redone(s, r).periods[r.j], r.j, k, u);
  }

  /** A period that does not end before the date is never the last one before it. */
  lemma {:induction false} LaterPeriodSkipped(ps: seq<Period>, qs: seq<Period>, j: nat, fromDate: int)
    requires j < |ps| == |qs| && qs == ps[j := qs[j]] && ps[j].end >= fromDate && qs[j].end >= fromDate
    ensures LastFinalBefore(qs, fromDate) == LastFinalBefore(ps, fromDate)
  {
    var n := |ps| - 1;
    if j == n {
      assert qs[..n] == ps[..n];
    } else {
      assert qs[..n] == ps[..n][j := qs[..n][j]];
      LaterPeriodSkipped(ps[..n], qs[..n], j, fromDate);
    }
  }

  /** While period `j` is open, what it carries in comes from the snapshot before it. */
  lemma RedoneOpening(s: PeriodLock.State, r: Redo, u: UserId)
    requires Redoes(s, r)
    ensures var p := s.periods[r.j];
            && (r.j > 0 ==> Readable(s.periods[r.j - 1].snapshot))
            && Opening(s.periods[r.j := p.(finalized := false)], r.t, s.policy, p.start, true, u)
               == if r.j == 0 then 0 else Lookup(OpeningMap(s.periods[r.j - 1].snapshot.value), u)
  {
    var p, ps, j := s.periods[r.j], s.periods, r.j;
    assert Linked(ps, j);
    LaterPeriodSkipped(ps, ps[j := p.(finalized := false)], j, p.start);
    forall i | 0 <= i < |ps| ensures ps[i].end < p.start <==> i < j {
      if i < j { ChainIncreases(ps, i, j); } else { ChainIncreases(ps, j, i); }
    }
    LastFinalInChain(ps, j, p.start);
    if j > 0 { assert Linked(ps, j - 1); }
  }

  /** The k-th snapshot falls short, for the user, of what it should carry by `missed`. */
  predicate MissesAt(s: PeriodLock.State, k: nat, u: UserId, missed: int) {
    0 < k <= |s.periods| && Readable(s.periods[k - 1].snapshot) ==>
      Lookup(OpeningMap(s.periods[k - 1].snapshot.value), u) == Carried(s.t, s.policy, s.periods[..k], u) - missed
  }

  /**
   * What a redo does to each snapshot: its own takes over what the one before it misses, and every later
   * one misses the correction besides what it missed already.
   */
  lemma RedoMoves(s: PeriodLock.State, r: Redo, k: nat, u: UserId, missed: int)
    requires Redoes(s, r)
    requires if k == r.j + 1 then MissesAt(s, r.j, u, missed) && (r.j == 0 ==> missed == 0)
             else MissesAt(s, k, u, missed)
    ensures MissesAt(Redone(s, r), k, u,
                     if k > r.j + 1 then missed + Correction(s.t, r.t, s.policy, s.periods[r.j], u) else missed)
  {
    if k == r.j + 1 {
      OwnSnapshotTakesOver(s, r, u, missed);
      RedoneState(s, r);
    } else if 0 < k <= |s.periods| {
      OtherSnapshotsStay(s, r, k);
      CarriedMoves(s, r, k, u);
    } else {
      RedoneState(s, r);
    }
  }

  lemma OtherSnapshotsStay(s: PeriodLock.State, r: Redo, k: nat)
    requires Redoes(s, r) && 0 < k <= |s.periods| && k != r.j + 1
    ensures |Redone(s, r).periods| == |s.periods| && Redone(s, r).periods[k - 1] == s.periods[k - 1]
    ensures Redone(s, r).t == r.t && Redone(s, r).policy == s.policy && Readable(s.periods[k - 1].snapshot)
  {
    RedoneState(s, r);
    assert Linked(s.periods, k - 1);
  }

  lemma OwnSnapshotTakesOver(s: PeriodLock.State, r: Redo, u: UserId, missed: int)
    requires Redoes(s, r) && MissesAt(s, r.j, u, missed) && (r.j == 0 ==> missed == 0)
    ensures |Redone(s, r).periods| == |s.periods| && Readable(Some(r.rows))
    ensures Lookup(OpeningMap(r.rows), u) == Carried(r.t, s.policy, Redone(s, r).periods[..r.j + 1], u) - missed
  {
    RedoneState(s, r);
    RedoneOpening(s, r, u);
    var p := s.periods[r.j];
    ClosingOfSnapshot(r.rows, s.periods[r.j := p.(finalized := false)], r.t, s.policy, p.start, p.end, u);
    CarriedMoves(s, r, r.j, u);
    CarriedNext(r.t, s.policy, Redone(s, r).periods, r.j, u);
  }

  // ----- several corrections -----

  function AfterRedos(s: PeriodLock.State, redos: seq<Redo>): PeriodLock.State {
    if redos == [] then s else Redone(AfterRedos(s, redos[..|redos| - 1]), redos[|redos| - 1])
  }

  ghost predicate RedoRun(s: PeriodLock.State, redos: seq<Redo>) {
    redos != [] ==>
      RedoRun(s, redos[..|redos| - 1]) && Redoes(AfterRedos(s, redos[..|redos| - 1]), redos[|redos| - 1])
  }

  /** The corrections that the k-th snapshot's chain never took up, by their places in the run. */
  function Missing(redos: seq<Redo>, k: nat): set<nat> {
    if redos == [] then {} else
      var rest, last := redos[..|redos| - 1], redos[|redos| - 1];
      if k <= last.j then Missing(rest, k)
      else if k == last.j + 1 then Missing(rest, last.j)
      else Missing(rest, k) + {|rest|}
  }

  /** How much the i-th redo of the run changes what the user is charged. */
  function CorrectionAt(s: PeriodLock.State, redos: seq<Redo>, i: nat, u: UserId): int {
    if i >= |redos| then 0 else
      var before := AfterRedos(s, redos[..i]);
      if redos[i].j >= |before.periods| then 0
      else Correction(before.t, redos[i].t, before.policy, before.periods[redos[i].j], u)
  }

  ghost function Missed(s: PeriodLock.State, redos: seq<Redo>, k: nat, u: UserId): int {
    SumOver(Missing(redos, k), (i: nat) => CorrectionAt(s, redos, i, u))
  }

  lemma {:induction false} MissingIsEarlier(redos: seq<Redo>, k: nat)
    ensures forall i :: i in Missing(redos, k) ==> i < |redos|
    ensures k == 0 ==> Missing(redos, k) == {}
  {
    if redos != [] {
      MissingIsEarlier(redos[..|redos| - 1], k);
      MissingIsEarlier(redos[..|redos| - 1], redos[|redos| - 1].j);
    }
  }

  /** A shorter run's corrections are the same in the longer one. */
  lemma SameSum(s: PeriodLock.State, redos: seq<Redo>, k: nat, u: UserId)
    requires redos != []
    ensures SumOver(Missing(redos[..|redos| - 1], k), (i: nat) => CorrectionAt(s, redos, i, u))
         == Missed(s, redos[..|redos| - 1], k, u)
  {
    var rest := redos[..|redos| - 1];
    MissingIsEarlier(rest, k);
    forall i | i in Missing(rest, k) ensures CorrectionAt(s, redos, i, u) == CorrectionAt(s, rest, i, u) {
      assert redos[..i] == rest[..i];
    }
    SumOverSame(Missing(rest, k), (i: nat) => CorrectionAt(s, redos, i, u), (i: nat) => CorrectionAt(s, rest, i, u));
  }

  lemma MissedNext(s: PeriodLock.State, redos: seq<Redo>, k: nat, u: UserId)
    requires redos != []
    ensures var rest, last := redos[..|redos| - 1], redos[|redos| - 1];
            Missed(s, redos, k, u)
            == if k <= last.j then Missed(s, rest, k, u)
               else if k == last.j + 1 then Missed(s, rest, last.j, u)
               else Missed(s, rest, k, u) + CorrectionAt(s, redos, |rest|, u)
  {
    var rest, last := redos[..|redos| - 1], redos[|redos| - 1];
    if k <= last.j {
      SameSum(s, redos, k, u);
    } else if k == last.j + 1 {
      SameSum(s, redos, last.j, u);
    } else {
      SameSum(s, redos, k, u);
      MissingIsEarlier(rest, k);
      SumOverRemove<nat>(Missing(redos, k), (i: nat) => CorrectionAt(s, redos, i, u), |rest|);
      assert Missing(redos, k) - {|rest|} == Missing(rest, k);
    }
  }

  lemma {:induction false} RunMisses(s: PeriodLock.State, redos: seq<Redo>, k: nat, u: UserId)
    requires ChainCarries(BookOf(s), s.policy) && RedoRun(s, redos)
    ensures Chain(AfterRedos(s, redos).periods) && AfterRedos(s, redos).policy == s.policy
    ensures MissesAt(AfterRedos(s, redos), k, u, Missed(s, redos, k, u))
  {
    if redos == [] {
      assert CarriesAt(BookOf(s), s.policy, k, u);
    } else {
      var rest, last := redos[..|redos| - 1], redos[|redos| - 1];
      var before := AfterRedos(s, rest);
      RunMisses(s, rest, k, u);
      RunMisses(s, rest, last.j, u);
      MissedNext(s, redos, k, u);
      MissingIsEarlier(rest, last.j);
      RedoneState(before, last);
      RedoMoves(before, last, k, u, Missed(s, rest, if k == last.j + 1 then last.j else k, u));
    }
  }

  /**
   * Redoing finalised periods, in any order and as often as wanted, leaves the opening balance read at any
   * date short of exactly the corrections that the chain of its snapshot never took up: refinalising a
   * period rebuilds its own snapshot and none of those carried from it.
   */
  lemma OpeningsMissCorrections(s: PeriodLock.State, redos: seq<Redo>, fromDate: int, u: UserId)
    requires ChainCarries(BookOf(s), s.policy) && RedoRun(s, redos)
    ensures var s' := AfterRedos(s, redos);
            && Chain(s'.periods)
            && AddsUp(s'.periods, s'.t, s.policy, fromDate, u, Missed(s, redos, PeriodsBefore(s'.periods, fromDate), u))
  {
    RunMisses(s, redos, 0, u);
    var s' := AfterRedos(s, redos);
    var n := PeriodsBefore(s'.periods, fromDate);
    RunMisses(s, redos, n, u);
    ChainAddsUp(s'.periods, s'.t, s.policy, fromDate, u, Missed(s, redos, n, u));
  }

  // ----- the repair -----

  /** The first `k` snapshots carry what they should. */
  ghost predicate TrueUpTo(s: PeriodLock.State, k: nat) {
    Chain(s.periods) && forall i: nat, u :: i <= k ==> MissesAt(s, i, u, 0)
  }

  lemma RedoExtendsTruth(s: PeriodLock.State, r: Redo)
    requires TrueUpTo(s, r.j) && Redoes(s, r)
    ensures TrueUpTo(Redone(s, r), r.j + 1) && |Redone(s, r).periods| == |s.periods|
  {
    RedoneState(s, r);
    forall i: nat, u | i <= r.j + 1 ensures MissesAt(Redone(s, r), i, u, 0) {
      assert MissesAt(s, if i == r.j + 1 then r.j else i, u, 0);
      RedoMoves(s, r, i, u, 0);
    }
  }

  /** Redoing periods one after the other from the j-th on, each with or without a correction of its own. */
  predicate InOrder(redos: seq<Redo>, j: nat) {
    forall i :: 0 <= i < |redos| ==> redos[i].j == j + i
  }

  lemma {:induction false} RedosExtendTruth(s: PeriodLock.State, redos: seq<Redo>, j: nat)
    requires TrueUpTo(s, j) && RedoRun(s, redos) && InOrder(redos, j)
    ensures TrueUpTo(AfterRedos(s, redos), j + |redos|) && |AfterRedos(s, redos).periods| == |s.periods|
    ensures AfterRedos(s, redos).policy == s.policy
  {
    if redos != [] {
      var rest := redos[..|redos| - 1];
      RedosExtendTruth(s, rest, j);
      RedoExtendsTruth(AfterRedos(s, rest), redos[|redos| - 1]);
      RedoneState(AfterRedos(s, rest), redos[|redos| - 1]);
    }
  }

  /** The repair: redoing every period from the first one short onwards, in order, makes all snapshots true. */
  lemma RedoingInOrderRepairs(s: PeriodLock.State, redos: seq<Redo>, j: nat)
    requires TrueUpTo(s, j) && RedoRun(s, redos) && InOrder(redos, j) && j + |redos| == |s.periods|
    ensures ChainCarries(BookOf(AfterRedos(s, redos)), s.policy)
  {
    RedosExtendTruth(s, redos, j);
    var s' := AfterRedos(s, redos);
    forall k: nat, u ensures CarriesAt(BookOf(s'), s.policy, k, u) {
      if k <= |s'.periods| { assert MissesAt(s', k, u, 0); }
    }
  }

  // ----- the rounding bound is reached -----

  /** One debit of fifty paise a day. */
  function Fifties(u: UserId, n: nat): seq<Entry> {
    if n == 0 then [] else Fifties(u, n - 1) + [Entry(u, n, Debit, 50, Posted, None)]
  }

  lemma {:induction false} FiftiesOn(u: UserId, n: nat, v: UserId, day: nat)
    ensures Total(Fifties(u, n), LedgerCharge, v, Between(day, day)) == if v == u && 1 <= day <= n then 50 else 0
  {
    if n > 0 {
      FiftiesOn(u, n - 1, v, day);
      TotalAppend(Fifties(u, n - 1), Entry(u, n, Debit, 50, Posted, None), LedgerCharge, v, Between(day, day));
    }
  }

  lemma {:induction false} FiftiesDates(u: UserId, n: nat)
    ensures forall e :: e in Fifties(u, n) ==> 1 <= e.entryDate <= n
  {
    if n > 0 { FiftiesDates(u, n - 1); }
  }

  function DayTables(u: UserId, n: nat): Tables {
    Tables([], [], Fifties(u, n))
  }

  function DayLine(u: UserId, i: nat): SnapRow
    requires i > 0
  {
    LineOf(u, Figures(i - 1, 0, 0, 1, 0, 0))
  }

  function DayPeriods(u: UserId, n: nat): seq<Period> {
    if n == 0 then [] else DayPeriods(u, n - 1) + [Period(n, n, true, Some([DayLine(u, n)]))]
  }

  /** Each day is a period of its own, finalised in turn. */
  function DayRun(u: UserId, n: nat): seq<Op> {
    if n == 0 then [] else DayRun(u, n - 1) + [Finalise(n, n, [DayLine(u, n)])]
  }

  lemma {:induction false} DayPeriodsAt(u: UserId, n: nat)
    ensures |DayPeriods(u, n)| == n
    ensures forall i :: 0 <= i < n ==> DayPeriods(u, n)[i] == Period(i + 1, i + 1, true, Some([DayLine(u, i + 1)]))
    ensures Chain(DayPeriods(u, n))
  {
    if n > 0 { DayPeriodsAt(u, n - 1); }
    forall i | 0 <= i < |DayPeriods(u, n)| ensures Linked(DayPeriods(u, n), i) {}
  }

  lemma OneLine(row: SnapRow, v: UserId)
    requires RowReadable(row)
    ensures Readable(Some([row]))
    ensures Lookup(OpeningMap([row]), v) == if row.userId == Some(v) then row.closingBalance.value else 0
  {
    assert [row][..0] == [];
  }

  lemma DayOpening(u: UserId, n: nat, t: Tables, policy: Policy, v: UserId)
    ensures Opening(DayPeriods(u, n), t, policy, n + 1, true, v) == if v == u then n else 0
    ensures Opening(DayPeriods(u, n), t, policy, n + 1, false, v) == if n == 0 then 0 else Live(t, policy, v, n)
  {
    DayPeriodsAt(u, n);
    LastFinalInChain(DayPeriods(u, n), n, n + 1);
    if n > 0 { OneLine(DayLine(u, n), v); }
  }

  lemma DayFigures(u: UserId, n: nat, days: nat, policy: Policy, v: UserId)
    requires 0 < n <= days
    ensures FiguresOf(DayPeriods(u, n - 1), DayTables(u, days), policy, n, n, v)
         == if v == u then Figures(n - 1, 0, 0, 1, 0, 0) else Figures(0, 0, 0, 0, 0, 0)
  {
    DayOpening(u, n - 1, DayTables(u, days), policy, v);
    FiftiesOn(u, days, v, n);
  }

  lemma DaySnapshot(u: UserId, n: nat, days: nat, policy: Policy)
    requires 0 < n <= days
    ensures SnapshotOf([DayLine(u, n)], DayPeriods(u, n - 1), DayTables(u, days), policy, n, n)
  {
    var t, ps, rows := DayTables(u, days), DayPeriods(u, n - 1), [DayLine(u, n)];
    assert rows[0].userId == Some(u);
    forall v ensures ListedIfAny(rows, ps, t, policy, n, n, v) {
      DayFigures(u, n, days, policy, v);
      if v == u { assert Listed(rows, v); }
    }
    DayFigures(u, n, days, policy, u);
    assert TrueLine(rows[0], ps, t, policy, n, n);
  }

  lemma DayStepIsLegal(u: UserId, n: nat, days: nat, policy: Policy)
    requires 0 < n <= days
    ensures Legal(Book(DayTables(u, days), DayPeriods(u, n - 1)), Finalise(n, n, [DayLine(u, n)]), policy)
  {
    DaySnapshot(u, n, days, policy);
    DayPeriodsAt(u, n - 1);
  }

  lemma LegalNext(t: Tables, ops: seq<Op>, op: Op, policy: Policy)
    requires LegalRun(t, ops, policy) && Legal(After(t, ops), op, policy)
    ensures LegalRun(t, ops + [op], policy) && After(t, ops + [op]) == Apply(After(t, ops), op)
  {
    assert (ops + [op])[..|ops|] == ops;
  }

  lemma {:induction false} DayRunIsLegal(u: UserId, n: nat, days: nat, policy: Policy)
    requires n <= days
    ensures LegalRun(DayTables(u, days), DayRun(u, n), policy)
    ensures After(DayTables(u, days), DayRun(u, n)) == Book(DayTables(u, days), DayPeriods(u, n))
  {
    if n > 0 {
      DayRunIsLegal(u, n - 1, days, policy);
      DayStepIsLegal(u, n, days, policy);
      LegalNext(DayTables(u, days), DayRun(u, n - 1), Finalise(n, n, [DayLine(u, n)]), policy);
    }
  }

  /** The bound is reached: for every n a legal run of n contiguous finalisations drifts by n / 2 rupees. */
  lemma DriftIsReached(u: UserId, n: nat, policy: Policy)
    ensures LegalRun(DayTables(u, n), DayRun(u, n), policy)
    ensures var b := After(DayTables(u, n), DayRun(u, n));
            && Chain(b.periods) && |b.periods| == n && PeriodsBefore(b.periods, n + 1) == n
            && (n > 0 ==> Contiguous(b.periods) && NoneBefore(b.t, b.periods[0].start))
            && Opening(b.periods, b.t, policy, n + 1, true, u) - Opening(b.periods, b.t, policy, n + 1, false, u)
                == n / 2
  {
    DayRunIsLegal(u, n, n, policy);
    DayPeriodsAt(u, n);
    DayOpening(u, n, DayTables(u, n), policy, u);
    FiftiesDates(u, n);
    FiftiesBefore(u, n, u, n);
  }

  /** Up to a day, in one go. */
  lemma {:induction false} FiftiesBefore(u: UserId, n: nat, v: UserId, last: nat)
    ensures Total(Fifties(u, n), LedgerCharge, v, Through(last)) == if v == u then 50 * Min(n, last) else 0
  {
    if n > 0 {
      FiftiesBefore(u, n - 1, v, last);
      TotalAppend(Fifties(u, n - 1), Entry(u, n, Debit, 50, Posted, None), LedgerCharge, v, Through(last));
    }
  }
}
