/**
 * Sweeps that write attendance for members who did not. A tick first wins a once-key for its
 * (meal, date), then reads members and existing records, then inserts what is missing, skipping
 * duplicates. Members' own marks and other ticks may land anywhere in between.
 */
module Materialisation {
  import opened Prelude
  import opened AttendanceWindows
  import VacationCoverage
  import PublishedDay

  datatype Status = Present | Absent | Skipped

  datatype Record = Record(userId: string, mealId: string, date: int, status: Status, price: Option<int>, system: bool)

  /** The close-time sweep and the opening-time personal sweep keep separate once-keys. */
  datatype Sweep = AtClose | AtOpen

  datatype Job = Job(sweep: Sweep, mealId: string, date: int, status: Status, price: Option<int>)

  type OnceKey = (Sweep, string, int)

  function KeyOf(j: Job): OnceKey {
    (j.sweep, j.mealId, j.date)
  }

  datatype Worker =
    | Lost
    | Won(job: Job)
    | HasRead(job: Job, members: set<string>, onVacation: set<string>, eligible: set<string>)
    | Finished(job: Job, members: set<string>, onVacation: set<string>, eligible: set<string>)

  datatype State = State(rows: seq<Record>, once: set<OnceKey>, workers: map<nat, Worker>)

  const EMPTY := State([], {}, map[])

  // ----- the record table, unique by (user, meal, date) -----

  predicate Matches(r: Record, userId: string, mealId: string, date: int) {
    r.userId == userId && r.mealId == mealId && r.date == date
  }

  predicate HasRecord(rows: seq<Record>, userId: string, mealId: string, date: int) {
    exists i :: 0 <= i < |rows| && Matches(rows[i], userId, mealId, date)
  }

  predicate SameKey(a: Record, b: Record) {
    Matches(a, b.userId, b.mealId, b.date)
  }

  predicate Unique(rows: seq<Record>) {
    forall i, j :: 0 <= i < j < |rows| ==> !SameKey(rows[i], rows[j])
  }

  function IndexOf(rows: seq<Record>, x: Record): (k: nat)
    ensures k <= |rows| && (k < |rows| <==> HasRecord(rows, x.userId, x.mealId, x.date))
    ensures k < |rows| ==> SameKey(rows[k], x)
  {
    if rows == [] then 0
    else if SameKey(rows[|rows| - 1], x) then |rows| - 1
    else
      var k := IndexOf(rows[..|rows| - 1], x);
      assert forall i :: 0 <= i < |rows| - 1 ==> rows[i] == rows[..|rows| - 1][i];
      if k < |rows| - 1 then
        assert HasRecord(rows[..|rows| - 1], x.userId, x.mealId, x.date);
        k
      else |rows|
  }

  function Upsert(rows: seq<Record>, x: Record): seq<Record> {
    var k := IndexOf(rows, x);
    if k < |rows| then rows[k := x] else rows + [x]
  }

  /** Insert unless the key is taken: the earlier record wins. */
  function InsertNew(rows: seq<Record>, x: Record): seq<Record> {
    if HasRecord(rows, x.userId, x.mealId, x.date) then rows else rows + [x]
  }

  function SystemRecord(j: Job, userId: string): Record {
    Record(userId, j.mealId, j.date, j.status, j.price, true)
  }

  function CreateMany(rows: seq<Record>, j: Job, users: seq<string>): seq<Record> {
    if users == [] then rows
    else InsertNew(CreateMany(rows, j, users[..|users| - 1]), SystemRecord(j, users[|users| - 1]))
  }

  // ----- the steps -----

  datatype Op =
    | Mark(record: Record)                                   // a member's mark or a consented change
    | Tick(worker: nat, job: Job, redisOk: bool)
    | Read(worker: nat, members: set<string>, onVacation: set<string>, allowed: set<string>)
    | Write(worker: nat, order: seq<string>)

  function ExistingUsers(rows: seq<Record>, mealId: string, date: int): set<string> {
    set i | 0 <= i < |rows| && rows[i].mealId == mealId && rows[i].date == date :: rows[i].userId
  }

  function Step(s: State, op: Op): State {
    match op
    case Mark(r) => s.(rows := Upsert(s.rows, r))
    case Tick(w, job, redisOk) =>
      if w in s.workers then s
      else if redisOk && KeyOf(job) !in s.once then
        s.(once := s.once + {KeyOf(job)}, workers := s.workers[w := Won(job)])
      else s.(workers := s.workers[w := Lost])
    case Read(w, members, onVacation, allowed) =>
      if !(w in s.workers && s.workers[w].Won?) then s
      else
        var job := s.workers[w].job;
        var eligible := (members - ExistingUsers(s.rows, job.mealId, job.date) - onVacation) * allowed;
        s.(workers := s.workers[w := HasRead(job, members, onVacation, eligible)])
    case Write(w, order) =>
      if !(w in s.workers && s.workers[w].HasRead?) then s
      else
        var k := s.workers[w];
        s.(rows := CreateMany(s.rows, k.job, order),
           workers := s.workers[w := Finished(k.job, k.members, k.onVacation, k.eligible)])
  }

  /** The insert lists the eligible members once each; a System Skip lets everybody through the reminder gate. */
  ghost predicate Faithful(s: State, op: Op) {
    match op
    case Read(w, members, _, allowed) =>
      w in s.workers && s.workers[w].Won? && s.workers[w].job.status == Skipped ==> members <= allowed
    case Write(w, order) =>
      w in s.workers && s.workers[w].HasRead? ==> forall u :: u in order <==> u in s.workers[w].eligible
    case _ => true
  }

  function After(s: State, run: seq<Op>): State {
    if run == [] then s else Step(After(s, run[..|run| - 1]), run[|run| - 1])
  }

  ghost predicate FaithfulRun(s: State, run: seq<Op>) {
    run != [] ==> FaithfulRun(s, run[..|run| - 1]) && Faithful(After(s, run[..|run| - 1]), run[|run| - 1])
  }

  // ----- the table under the steps -----

  /** Nothing moved, nothing changed, rows only appended. */
  predicate Extends(rows: seq<Record>, rows': seq<Record>) {
    |rows| <= |rows'| && rows'[..|rows|] == rows
  }

  lemma {:induction false} CreateManyExtends(rows: seq<Record>, j: Job, users: seq<string>)
    ensures Extends(rows, CreateMany(rows, j, users))
    ensures Unique(rows) ==> Unique(CreateMany(rows, j, users))
  {
    if users != [] {
      CreateManyExtends(rows, j, users[..|users| - 1]);
    }
  }

  lemma {:induction false} CreateManyFills(rows: seq<Record>, j: Job, users: seq<string>, u: string)
    requires u in users
    ensures HasRecord(CreateMany(rows, j, users), u, j.mealId, j.date)
  {
    var rest, last := users[..|users| - 1], users[|users| - 1];
    var before := CreateMany(rows, j, rest);
    var after := CreateMany(rows, j, users);
    if u == last {
      if !HasRecord(before, u, j.mealId, j.date) { assert Matches(after[|before|], u, j.mealId, j.date); }
    } else {
      assert users == rest + [last];
      CreateManyFills(rows, j, rest, u);
      var i :| 0 <= i < |before| && Matches(before[i], u, j.mealId, j.date);
      assert Matches(after[i], u, j.mealId, j.date);
    }
  }

  /** New rows are system rows of the job, for listed users who had none. */
  lemma {:induction false} CreateManyAddsOnly(rows: seq<Record>, j: Job, users: seq<string>, i: nat)
    requires |rows| <= i < |CreateMany(rows, j, users)|
    ensures var r := CreateMany(rows, j, users)[i];
            r.userId in users && r == SystemRecord(j, r.userId) && !HasRecord(rows, r.userId, j.mealId, j.date)
  {
    var rest, last := users[..|users| - 1], users[|users| - 1];
    var before := CreateMany(rows, j, rest);
    if i < |before| {
      CreateManyAddsOnly(rows, j, rest, i);
    } else {
      CreateManyExtends(rows, j, rest);
      assert forall k :: 0 <= k < |rows| ==> before[k] == rows[k];
    }
  }

  lemma UpsertKeepsUnique(rows: seq<Record>, x: Record)
    requires Unique(rows)
    ensures Unique(Upsert(rows, x))
    ensures forall u, m, d :: HasRecord(rows, u, m, d) ==> HasRecord(Upsert(rows, x), u, m, d)
  {
    var k := IndexOf(rows, x);
    var rows' := Upsert(rows, x);
    forall u, m, d | HasRecord(rows, u, m, d) ensures HasRecord(rows', u, m, d) {
      var i :| 0 <= i < |rows| && Matches(rows[i], u, m, d);
      assert Matches(rows'[i], u, m, d);
    }
  }

  /** A sweep never alters, moves or removes a record that is already there. */
  lemma SweepsOnlyAppend(s: State, op: Op)
    requires !op.Mark?
    ensures Extends(s.rows, Step(s, op).rows)
  {
    if op.Write? && op.worker in s.workers && s.workers[op.worker].HasRead? {
      CreateManyExtends(s.rows, s.workers[op.worker].job, op.order);
    }
  }

  /** And what it appends are system rows of eligible members who had no record. */
  lemma SweepWritesOnlyEligible(s: State, w: nat, order: seq<string>, i: nat)
    requires w in s.workers && s.workers[w].HasRead? && Faithful(s, Write(w, order))
    requires |s.rows| <= i < |Step(s, Write(w, order)).rows|
    ensures var r := Step(s, Write(w, order)).rows[i];
            && r == Record(r.userId, s.workers[w].job.mealId, s.workers[w].job.date, s.workers[w].job.status,
                           s.workers[w].job.price, true)
            && r.userId in s.workers[w].eligible
            && !HasRecord(s.rows, r.userId, r.mealId, r.date)
  {
    CreateManyAddsOnly(s.rows, s.workers[w].job, order, i);
  }

  // ----- whole runs -----

  predicate Active(k: Worker) {
    !k.Lost?
  }

  predicate HasSets(k: Worker) {
    k.HasRead? || k.Finished?
  }

  /** The member is on vacation or has a record. */
  predicate Settled(k: Worker, rows: seq<Record>, u: string)
    requires HasSets(k)
  {
    u in k.onVacation || HasRecord(rows, u, k.job.mealId, k.job.date)
  }

  ghost predicate Inv(s: State) {
    && Unique(s.rows)
    && (forall v, w :: v in s.workers && w in s.workers && SameJob(s.workers[v], s.workers[w]) ==> v == w)
    && (forall w :: w in s.workers && Active(s.workers[w]) ==> KeyOf(s.workers[w].job) in s.once)
    && (forall w :: w in s.workers && HasSets(s.workers[w]) ==> SkipSettles(s.workers[w], s.rows))
  }

  predicate SameJob(a: Worker, b: Worker) {
    Active(a) && Active(b) && KeyOf(a.job) == KeyOf(b.job)
  }

  /** Under a System Skip the members not left to insert are settled, and after the insert all are. */
  predicate SkipSettles(k: Worker, rows: seq<Record>)
    requires HasSets(k)
  {
    k.job.status == Skipped ==>
      forall u :: u in k.members && (k.Finished? || u !in k.eligible) ==> Settled(k, rows, u)
  }

  lemma StepKeepsRecords(s: State, op: Op, u: string, m: string, d: int)
    requires Unique(s.rows) && HasRecord(s.rows, u, m, d)
    ensures HasRecord(Step(s, op).rows, u, m, d)
  {
    if op.Mark? {
      UpsertKeepsUnique(s.rows, op.record);
    } else {
      SweepsOnlyAppend(s, op);
      var i :| 0 <= i < |s.rows| && Matches(s.rows[i], u, m, d);
      assert Step(s, op).rows[i] == s.rows[i];
    }
  }

  lemma StepKeepsUnique(s: State, op: Op)
    requires Unique(s.rows)
    ensures Unique(Step(s, op).rows)
  {
    if op.Mark? {
      UpsertKeepsUnique(s.rows, op.record);
    } else if op.Write? && op.worker in s.workers && s.workers[op.worker].HasRead? {
      CreateManyExtends(s.rows, s.workers[op.worker].job, op.order);
    }
  }

  lemma StepKeepsInv(s: State, op: Op)
    requires Inv(s) && Faithful(s, op)
    ensures Inv(Step(s, op))
  {
    var s' := Step(s, op);
    StepKeepsUnique(s, op);
    forall u, m, d | HasRecord(s.rows, u, m, d) ensures HasRecord(s'.rows, u, m, d) {
      StepKeepsRecords(s, op, u, m, d);
    }
    if op.Write? && op.worker in s.workers && s.workers[op.worker].HasRead? {
      var k := s.workers[op.worker];
      forall u | u in k.eligible ensures HasRecord(s'.rows, u, k.job.mealId, k.job.date) {
        CreateManyFills(s.rows, k.job, op.order, u);
      }
    } else if op.Read? && op.worker in s.workers && s.workers[op.worker].Won? {
      var job := s.workers[op.worker].job;
      forall u | u in ExistingUsers(s.rows, job.mealId, job.date) ensures HasRecord(s.rows, u, job.mealId, job.date) {
        var i :| 0 <= i < |s.rows| && s.rows[i].mealId == job.mealId && s.rows[i].date == job.date
            && s.rows[i].userId == u;
        assert Matches(s.rows[i], u, job.mealId, job.date);
      }
    }
  }

  lemma {:induction false} RunKeepsInv(run: seq<Op>)
    requires FaithfulRun(EMPTY, run)
    ensures Inv(After(EMPTY, run))
  {
    if run != [] {
      RunKeepsInv(run[..|run| - 1]);
      StepKeepsInv(After(EMPTY, run[..|run| - 1]), run[|run| - 1]);
    }
  }

  /**
   * In every interleaving of marks and ticks: one record per (user, meal, date); one worker at most ever
   * wins a sweep's (meal, date), so it is written at most once; and once a System-SKIP worker has finished,
   * each active member it read has a record or is on vacation, then and ever after.
   */
  lemma SweepsAreSafe(run: seq<Op>, v: nat, w: nat, u: string)
    requires FaithfulRun(EMPTY, run)
    ensures var s := After(EMPTY, run);
            && (forall i, j :: 0 <= i < j < |s.rows| ==>
                  s.rows[i].userId != s.rows[j].userId || s.rows[i].mealId != s.rows[j].mealId
                  || s.rows[i].date != s.rows[j].date)
            && (v in s.workers && w in s.workers && !s.workers[v].Lost? && !s.workers[w].Lost?
                && s.workers[v].job.sweep == s.workers[w].job.sweep
                && s.workers[v].job.mealId == s.workers[w].job.mealId
                && s.workers[v].job.date == s.workers[w].job.date
                ==> v == w)
            && (w in s.workers && s.workers[w].Finished? && s.workers[w].job.status == Skipped
                && u in s.workers[w].members
                ==> u in s.workers[w].onVacation
                    || exists r :: (r in s.rows && r.userId == u && r.mealId == s.workers[w].job.mealId
                                    && r.date == s.workers[w].job.date))
  {
    RunKeepsInv(run);
    var s := After(EMPTY, run);
    forall i, j | 0 <= i < j < |s.rows| ensures !SameKey(s.rows[i], s.rows[j]) {}
    if w in s.workers && s.workers[w].Finished? {
      RecordMeans(s.rows, u, s.workers[w].job.mealId, s.workers[w].job.date);
    }
    if v in s.workers && w in s.workers && !s.workers[v].Lost? && !s.workers[w].Lost? {
      assert SameJob(s.workers[v], s.workers[w]) <==> KeyOf(s.workers[v].job) == KeyOf(s.workers[w].job);
    }
  }

  lemma RecordMeans(rows: seq<Record>, u: string, mealId: string, date: int)
    ensures HasRecord(rows, u, mealId, date)
       <==> exists r :: r in rows && r.userId == u && r.mealId == mealId && r.date == date
  {
    if HasRecord(rows, u, mealId, date) {
      var i :| 0 <= i < |rows| && Matches(rows[i], u, mealId, date);
      assert rows[i] in rows;
    }
    if r :| r in rows && r.userId == u && r.mealId == mealId && r.date == date {
      var i :| 0 <= i < |rows| && rows[i] == r;
      assert Matches(rows[i], u, mealId, date);
    }
  }

  // ----- what each step does -----

  /** A mark stands as the record of its member, meal and date; every other record is as it was. */
  lemma MarkStands(s: State, x: Record)
    requires Unique(s.rows)
    ensures forall y :: y in Step(s, Mark(x)).rows <==>
              y == x || (y in s.rows && !(y.userId == x.userId && y.mealId == x.mealId && y.date == x.date))
    ensures Step(s, Mark(x)) == s.(rows := Step(s, Mark(x)).rows)
  {
    var k, rows' := IndexOf(s.rows, x), Step(s, Mark(x)).rows;
    forall y | y in s.rows && !SameKey(y, x) ensures y in rows' {
      var i :| 0 <= i < |s.rows| && s.rows[i] == y;
      assert rows'[i] == y;
    }
    assert rows'[k] == x;
    forall y | y in rows' && y != x ensures y in s.rows && !SameKey(y, x) {
      var i :| 0 <= i < |rows'| && rows'[i] == y;
      assert i != k && s.rows[i] == y;
      if k == |s.rows| { assert !Matches(s.rows[i], x.userId, x.mealId, x.date); }
    }
  }

  /** A tick wins exactly when Redis answers and nobody has won its sweep, meal and date; it ticks once. */
  lemma TickWinsIff(s: State, w: nat, job: Job, redisOk: bool)
    ensures var s' := Step(s, Tick(w, job, redisOk));
            && s'.rows == s.rows
            && (w in s.workers ==> s' == s)
            && (w !in s.workers ==>
                  if redisOk && (job.sweep, job.mealId, job.date) !in s.once
                  then s'.workers == s.workers[w := Won(job)]
                       && s'.once == s.once + {(job.sweep, job.mealId, job.date)}
                  else s'.workers == s.workers[w := Lost] && s'.once == s.once)
  {
  }

  /** The winner finds the members allowed who have no record for the meal and date and are not on vacation. */
  lemma ReadFinds(s: State, w: nat, members: set<string>, onVacation: set<string>, allowed: set<string>, u: string)
    requires w in s.workers && s.workers[w].Won?
    ensures var job, s' := s.workers[w].job, Step(s, Read(w, members, onVacation, allowed));
            && w in s'.workers && s'.workers[w].HasRead? && s'.workers[w].job == job
            && s' == s.(workers := s.workers[w := s'.workers[w]])
            && s'.workers[w].members == members && s'.workers[w].onVacation == onVacation
            && (u in s'.workers[w].eligible
                <==> && u in members && u in allowed && u !in onVacation
                     && !exists r :: r in s.rows && r.userId == u && r.mealId == job.mealId && r.date == job.date)
  {
    var job := s.workers[w].job;
    if r :| r in s.rows && r.userId == u && r.mealId == job.mealId && r.date == job.date {
      var i :| 0 <= i < |s.rows| && s.rows[i] == r;
      assert u in ExistingUsers(s.rows, job.mealId, job.date);
    }
  }

  /** A member's mark made before the insert stands, whatever the sweep had read. */
  lemma MemberMarkWins(s: State, w: nat, order: seq<string>, i: nat)
    requires Inv(s) && i < |s.rows|
    ensures i < |Step(s, Write(w, order)).rows| && Step(s, Write(w, order)).rows[i] == s.rows[i]
    ensures forall j :: |s.rows| <= j < |Step(s, Write(w, order)).rows| ==>
            !SameKey(Step(s, Write(w, order)).rows[j], s.rows[i])
  {
    SweepsOnlyAppend(s, Write(w, order));
    StepKeepsUnique(s, Write(w, order));
  }

  // ----- what the close sweep decides for a meal -----

  /** `grace` and `floor` are minutes: past the close, and the shortest window that may default to Present. */
  datatype Group = Group(attendanceOnly: bool, optOut: bool, billSkipped: bool, plannerOn: bool, grace: int, floor: int)
  datatype MealRow = MealRow(isActive: bool, preferencesEnabled: Option<bool>, hasPreferenceGroups: bool,
                             open: Option<string>, close: Option<string>, price: Option<int>)

  predicate NeedsPreference(m: MealRow, entry: Option<PublishedDay.DayEntry>) {
    if entry.Some? && entry.value.configurationFrozen then
      entry.value.preference.Some? && entry.value.preference.value.enabled
    else
      var override := if entry.Some? then entry.value.preferencesEnabled else None;
      || (if override.Some? then override else m.preferencesEnabled) == Some(true)
      || (m.hasPreferenceGroups && override != Some(false))
  }

  // ----- the decision -----

  /** The meal's window that day: the day's own when it has an opening time. */
  function Window(m: MealRow, entry: Option<PublishedDay.DayEntry>): (Option<string>, Option<string>) {
    if entry.Some? && Truthy(entry.value.openTime) then (entry.value.openTime, entry.value.closeTime)
        else (m.open, m.close)
  }

  /** The published entry counts unless the group only takes attendance. */
  function EntryOf(g: Group, published: Option<PublishedDay.DayEntry>): Option<PublishedDay.DayEntry> {
    if g.attendanceOnly then None else published
  }

  function StatusOf(g: Group, m: MealRow, entry: Option<PublishedDay.DayEntry>): Status {
    if g.optOut && !NeedsPreference(m, entry) then Present else Skipped
  }

  /** Status and price of the rows to write at close, or nothing when the meal is left alone. */
  function Decision(g: Group, m: MealRow, published: Option<PublishedDay.DayEntry>,
                    now: Option<int>, clock: string -> Option<int>): Option<(Status, Option<int>)> {
    var entry := EntryOf(g, published);
    var plannerActive := !g.attendanceOnly && g.plannerOn;
    if !m.isActive && !plannerActive then None
    else if plannerActive && entry.None? then None
    else
      var status := StatusOf(g, m, entry);
      var (open, close) := Window(m, entry);
      if !Truthy(open) || !Truthy(close) then None
      else if GetWindowState(now, clock(open.value), clock(close.value), g.grace) != Closed then None
      else if status == Present && Earlier(WindowMinutes(clock(open.value), clock(close.value)), Some(g.floor)) then
          None
      else
        var free := g.attendanceOnly || (status == Skipped && !g.billSkipped);
        var dayPrice := if entry.Some? then entry.value.price else None;
        Some((status, if free then None else if dayPrice.Some? then dayPrice else m.price))
  }

  /**
   * On a window within one day, nobody is recorded before the window and its grace have passed, nobody is
   * guessed to have eaten with less time to opt out than the floor, and nobody is charged for a meal the
   * group does not bill.
   */
  lemma DecisionIsFair(g: Group, m: MealRow, published: Option<PublishedDay.DayEntry>, now: int,
                       clock: string -> Option<int>)
    requires Decision(g, m, published, Some(now), clock).Some? && TimeOfDay(now)
    requires WithinOneDay(Window(m, EntryOf(g, published)), clock)
    ensures var (status, price) := Decision(g, m, published, Some(now), clock).value;
            var (open, close) := Window(m, EntryOf(g, published));
            && open.Some? && close.Some?
            && now >= clock(close.value).value + Max(0, g.grace)
            && (status == Present ==> now - clock(open.value).value >= g.floor)
            && (status == Present ==> g.optOut && !NeedsPreference(m, EntryOf(g, published)))
            && (price.Some? ==> !g.attendanceOnly && (status == Skipped ==> g.billSkipped))
            && (g.plannerOn && !g.attendanceOnly ==> published.Some?)
  {
    var (open, close) := Window(m, EntryOf(g, published));
    FullChanceIff(clock(open.value).value, clock(close.value).value, g.grace);
  }

  /**
   * When a meal is decided, how and at what price. The day's entry counts unless the group only takes
   * attendance, and its own opening time brings its closing time with it. The meal must be on offer and
   * its window found closed: a clock that does not parse stops nothing. Members are taken as present only in
   * an opt-out group, when no preference is needed and the window is no shorter than the floor. A row that
   * bills carries the day's price, else the meal's; any other carries none.
   */
  lemma DecisionMeans(g: Group, m: MealRow, published: Option<PublishedDay.DayEntry>, now: int, o: string, c: string,
                      clock: string -> Option<int>)
    requires var own := !g.attendanceOnly && published.Some? && Truthy(published.value.openTime);
             && (if own then published.value.openTime else m.open) == Some(o) && o != ""
             && (if own then published.value.closeTime else m.close) == Some(c) && c != ""
    ensures var d := Decision(g, m, published, Some(now), clock);
            var (open, close) := (clock(o), clock(c));
            var grace := if g.grace > 0 then g.grace else 0;
            var taken := g.optOut && !PreferenceAsked(g, m, published);
            && (d.Some? <==>
                  && (if g.attendanceOnly || !g.plannerOn then m.isActive else published.Some?)
                  && (open.Some? ==> open.value <= now) && (close.Some? ==> close.value + grace <= now)
                  && (taken && open.Some? && close.Some? ==>
                        g.floor <= (if open.value <= close.value then close.value - open.value
                                    else 1440 - open.value + close.value)))
            && (d.Some? ==>
                  && d.value.0 == (if taken then Present else Skipped)
                  && d.value.1 == if g.attendanceOnly || (!taken && !g.billSkipped) then None
                     else if published.Some? && published.value.price.Some? then published.value.price
                     else m.price)
  {
    PreferenceAskedIs(g, m, published);
  }

  /** A frozen day asks for a preference by its own block, any other by its switch, else by the meal. */
  predicate PreferenceAsked(g: Group, m: MealRow, published: Option<PublishedDay.DayEntry>) {
    if g.attendanceOnly || published == None then m.preferencesEnabled == Some(true) || m.hasPreferenceGroups
    else
      var e := published.value;
      if e.configurationFrozen then (match e.preference case None => false case Some(p) => p.enabled)
      else match e.preferencesEnabled
           case Some(asked) => asked
           case None => m.preferencesEnabled == Some(true) || m.hasPreferenceGroups
  }

  lemma PreferenceAskedIs(g: Group, m: MealRow, published: Option<PublishedDay.DayEntry>)
    ensures PreferenceAsked(g, m, published) <==> NeedsPreference(m, EntryOf(g, published))
  {
  }

  /** With no opening or closing time, or one of them empty, the meal is never decided. */
  lemma NoWindowNoDecision(g: Group, m: MealRow, published: Option<PublishedDay.DayEntry>, now: Option<int>,
                           clock: string -> Option<int>)
    requires var own := !g.attendanceOnly && published.Some? && Truthy(published.value.openTime);
             || (if own then published.value.openTime else m.open) in {None, Some("")}
             || (if own then published.value.closeTime else m.close) in {None, Some("")}
    ensures Decision(g, m, published, now, clock) == None
  {
  }

  /**
   * Every window the write paths accept is such a window: the meal's own was accepted, and so was the day's
   * entry against whatever the meal's window was when the entry was saved.
   */
  lemma AcceptedWindowsAreFair(g: Group, m: MealRow, published: Option<PublishedDay.DayEntry>, saved: MealRow,
                               clock: string -> Option<int>)
    requires Accepted(RefOf(m, None)) && ReadsClocks(clock)
    requires EntryOf(g, published).Some? ==> Accepted(RefOf(saved, EntryOf(g, published)))
    ensures WithinOneDay(Window(m, EntryOf(g, published)), clock)
    ensures var (open, close) := Window(m, EntryOf(g, published));
            open.Some? && close.Some? ==>
              FullChance(clock(open.value).value, clock(close.value).value, g.grace)
  {
    var entry := EntryOf(g, published);
    AcceptedMeans(RefOf(m, None));
    if entry.Some? { AcceptedMeans(RefOf(saved, entry)); }
    var (open, close) := Window(m, entry);
    if open.Some? && close.Some? {
      WindowIsAccepted(m, saved, entry);
      FullChanceIff(Minutes(open), Minutes(close), g.grace);
    }
  }

  /** What the validator is given for a day's entry: each time falls back to the meal's on its own. */
  function RefOf(m: MealRow, entry: Option<PublishedDay.DayEntry>): MealWindow {
    if entry.None? then MealWindow(None, m.open, m.close)
    else MealWindow(None, if entry.value.openTime.Some? then entry.value.openTime else m.open,
                    if entry.value.closeTime.Some? then entry.value.closeTime else m.close)
  }

  /** What the validator judges: each of a day's times on its own falls back to the meal's. */
  lemma EntryIsJudgedWithFallback(m: MealRow, entry: Option<PublishedDay.DayEntry>)
    ensures Accepted(RefOf(m, entry)) <==>
              var open := if entry.Some? && entry.value.openTime != None then entry.value.openTime else m.open;
              var close := if entry.Some? && entry.value.closeTime != None then entry.value.closeTime else m.close;
              Minutes(open) < Minutes(close) < 1440
  {
    AcceptedMeans(RefOf(m, entry));
  }

  /** A window with both times is the meal's own, or the one the entry was accepted with. */
  lemma WindowIsAccepted(m: MealRow, saved: MealRow, entry: Option<PublishedDay.DayEntry>)
    requires Accepted(RefOf(m, None)) && (entry.Some? ==> Accepted(RefOf(saved, entry)))
    requires Window(m, entry).0.Some? && Window(m, entry).1.Some?
    ensures Accepted(MealWindow(None, Window(m, entry).0, Window(m, entry).1))
  {
  }

  /**
   * The validator and the sweep disagree about a day that overrides only the opening time: it is accepted
   * with the meal's closing time, and then has none, so nobody is ever recorded for it.
   */
  lemma OpenOnlyOverrideIsNeverSwept(g: Group, m: MealRow, published: Option<PublishedDay.DayEntry>,
                                     now: Option<int>, clock: string -> Option<int>)
    requires EntryOf(g, published).Some? && Truthy(published.value.openTime) && published.value.closeTime.None?
    ensures Decision(g, m, published, now, clock).None?
    ensures Accepted(RefOf(m, published)) <==>
              Minutes(published.value.openTime) < Minutes(m.close) < DAY
  {
    AcceptedMeans(RefOf(m, published));
  }

  /**
   * A row stored before the validator existed may hold a window past midnight. It is judged the other way
   * round: at the minute it opens, with no grace to speak of, everyone who has not answered is recorded.
   */
  lemma OvernightIsClosedAtOpening(g: Group, m: MealRow, now: int, clock: string -> Option<int>)
    requires m.isActive && !g.plannerOn && Truthy(m.open) && Truthy(m.close)
    requires clock(m.open.value) == Some(now) && TimeOfDay(now) && clock(m.close.value).Some?
    requires 0 <= clock(m.close.value).value && clock(m.close.value).value + Max(0, g.grace) <= now
    requires clock(m.close.value).value < now && g.floor <= DAY - now
    ensures Decision(g, m, None, Some(now), clock).Some?
    ensures Decision(g, m, None, Some(now), clock).value.0 == StatusOf(g, m, None)
  {
  }

  // ----- the worker object -----

  datatype MemberRow = MemberRow(userId: string, memberFlag: Option<bool>, userFlag: bool, remindersEnabled: bool)

  /** After the insert exactly the listed users, and those who had one, have a record of the job. */
  lemma RecordsAfter(rows: seq<Record>, j: Job, users: seq<string>)
    ensures forall u :: HasRecord(CreateMany(rows, j, users), u, j.mealId, j.date) <==>
              HasRecord(rows, u, j.mealId, j.date) || u in users
  {
    var rows' := CreateMany(rows, j, users);
    CreateManyExtends(rows, j, users);
    forall u | HasRecord(rows, u, j.mealId, j.date) ensures HasRecord(rows', u, j.mealId, j.date) {
      var i :| 0 <= i < |rows| && Matches(rows[i], u, j.mealId, j.date);
      assert rows'[i] == rows[i];
    }
    forall u | u in users ensures HasRecord(rows', u, j.mealId, j.date) {
      CreateManyFills(rows, j, users, u);
    }
    assert forall i :: 0 <= i < |rows| ==> rows'[i] == rows[i];
    forall u | HasRecord(rows', u, j.mealId, j.date) && !HasRecord(rows, u, j.mealId, j.date) ensures u in users {
      var i :| 0 <= i < |rows'| && Matches(rows'[i], u, j.mealId, j.date);
      CreateManyAddsOnly(rows, j, users, i);
    }
  }

  /** A member's vacation flag is the membership's, else the account's. */
  function AsCandidate(m: MemberRow): VacationCoverage.Candidate {
    VacationCoverage.Candidate(m.userId, if m.memberFlag.Some? then m.memberFlag.value else m.userFlag)
  }

  class Store {
    var rows: seq<Record>
    var once: set<OnceKey>

    method SetDedup(key: OnceKey, redisOk: bool) returns (first: bool)
      modifies this`once
      ensures first <==> redisOk && key !in old(once)
      ensures once == if first then old(once) + {key} else old(once)
    {
      first := redisOk && key !in once;
      if first { once := once + {key}; }
    }

    method CreateManySkipDuplicates(job: Job, users: seq<string>)
      modifies this`rows
      ensures rows == CreateMany(old(rows), job, users)
    {
      for i := 0 to |users|
        invariant rows == CreateMany(old(rows), job, users[..i])
      {
        assert users[..i + 1][..i] == users[..i];
        if !HasRecord(rows, users[i], job.mealId, job.date) {
          rows := rows + [SystemRecord(job, users[i])];
        }
      }
      assert users[..|users|] == users;
    }

    /**
     * One undisturbed tick: the three steps in a row, with the vacation resolver's answer. It says who is on
     * vacation, who ends up with a record, and what each new record is.
     */
    method MaterializeMeal(job: Job, redisOk: bool, reminderSent: bool, members: seq<MemberRow>,
                           requests: seq<VacationCoverage.VacationRow>, meals: seq<VacationCoverage.SlotMeal>,
                           day: map<string, PublishedDay.DayEntry>, groupId: string,
                           openTime: Option<string>, slotKey: Option<string>)
      returns (ghost onVacation: set<string>)
      modifies this
      ensures once == if redisOk then old(once) + {KeyOf(job)} else old(once)
      ensures !redisOk || KeyOf(job) in old(once) ==> rows == old(rows)
      ensures redisOk && KeyOf(job) !in old(once) ==>
                && (forall u :: u in onVacation <==>
                      exists m :: (m in members && m.userId == u
                                   && VacationCoverage.CoveredBySpec(
                                        requests, meals, day, groupId, job.date,
                                        VacationCoverage.HhmmToMinutes(openTime), slotKey,
                                        VacationCoverage.Candidate(u, if m.memberFlag == None then m.userFlag
                                                                      else m.memberFlag.value))))
                && (forall u :: HasRecord(rows, u, job.mealId, job.date) <==>
                      || HasRecord(old(rows), u, job.mealId, job.date)
                      || exists m :: (m in members && m.userId == u && u !in onVacation
                                      && (job.status == Skipped || reminderSent || !m.remindersEnabled)))
                && Extends(old(rows), rows)
                && (forall k :: |old(rows)| <= k < |rows| ==>
                      rows[k] == Record(rows[k].userId, job.mealId, job.date, job.status, job.price, true))
    {
      onVacation := {};
      var first := SetDedup(KeyOf(job), redisOk);
      if !first {
        return;
      }
      var candidates := seq(|members|, i requires 0 <= i < |members| => AsCandidate(members[i]));
      var vacationing := VacationCoverage.GetVacationCoveredUserIds(requests, meals, day, groupId, job.date, openTime,
          slotKey, candidates);
      forall m | m in members ensures AsCandidate(m) in candidates {
        var i :| 0 <= i < |members| && members[i] == m;
        assert candidates[i] == AsCandidate(m);
      }
      var users := Eligible(job, members, vacationing, job.status == Skipped || reminderSent);
      onVacation := vacationing;
      ghost var before := rows;
      CreateManySkipDuplicates(job, users);
      CreateManyExtends(before, job, users);
      RecordsAfter(before, job, users);
      forall k | |before| <= k < |rows| ensures rows[k] == SystemRecord(job, rows[k].userId) {
        CreateManyAddsOnly(before, job, users, k);
      }
    }

    /** No record yet, not on vacation, and reminded or not wanting reminders. */
    predicate Owed(job: Job, m: MemberRow, onVacation: set<string>, reminderSent: bool)
      reads this
    {
      && !HasRecord(rows, m.userId, job.mealId, job.date) && m.userId !in onVacation
      && (reminderSent || !m.remindersEnabled)
    }

    method Eligible(job: Job, members: seq<MemberRow>, onVacation: set<string>,
                    reminderSent: bool) returns (users: seq<string>)
      ensures forall u ::
                u in users <==> exists m :: m in members && m.userId == u && Owed(job, m, onVacation, reminderSent)
    {
      users := [];
      for i := 0 to |members|
        invariant forall u ::
                    u in users <==>
                      exists m :: m in members[..i] && m.userId == u && Owed(job, m, onVacation, reminderSent)
      {
        var m := members[i];
        assert members[..i + 1] == members[..i] + [m];
        if Owed(job, m, onVacation, reminderSent) {
          users := users + [m.userId];
        }
      }
      assert members[..|members|] == members;
    }
  }
}
