/**
 * The daily sweep that switches vacation flags on and off. Requests for all groups drive the
 * account flag; requests for one group drive that membership's flag and nothing else.
 */
module VacationSweep {
  import opened Prelude

  const DAY_MS := 86400000

  /** `groupId` is absent for a request that governs every group. */
  datatype Request = Request(
    userId: string, organizationId: string, groupId: Option<string>, startDate: int, endDate: int,
    approved: bool, deleted: bool)

  datatype User = User(isVacationMode: bool, organizationId: Option<string>)

  /** A membership flag may be absent, which means inherit the account's. */
  type Members = map<(string, string), Option<bool>>
  type Users = map<string, User>

  /** One tick: the instant, and each organisation's business day. */
  datatype Tick = Tick(now: int, today: map<string, int>)

  predicate Active(r: Request, k: Tick) {
    r.approved && !r.deleted && r.startDate <= k.now + 2 * DAY_MS && r.endDate >= k.now - 2 * DAY_MS
  }

  predicate CoversToday(r: Request, k: Tick) {
    r.organizationId in k.today && r.startDate <= k.today[r.organizationId] <= r.endDate
  }

  predicate Ended(r: Request, k: Tick) {
    r.organizationId in k.today && r.endDate < k.today[r.organizationId]
  }

  // ----- what one sweep decides, flag by flag -----

  /** A request of `u` for exactly this scope is active and covers today, or has just ended. */
  ghost predicate Covered(rs: seq<Request>, k: Tick, u: string, scope: Option<string>) {
    exists r :: r in rs && Active(r, k) && r.userId == u && r.groupId == scope && CoversToday(r, k)
  }

  ghost predicate JustEnded(rs: seq<Request>, k: Tick, u: string, scope: Option<string>) {
    exists r :: r in rs && Active(r, k) && r.userId == u && r.groupId == scope && Ended(r, k)
  }

  ghost function AccountFlag(rs: seq<Request>, k: Tick, u: string, row: User): bool {
    if !row.isVacationMode then Covered(rs, k, u, None)
    else !(Truthy(row.organizationId) && !Covered(rs, k, u, None) && JustEnded(rs, k, u, None))
  }

  /** `nullMatches` is whether the database lets an absent flag satisfy "not true". */
  ghost function MemberFlag(rs: seq<Request>, k: Tick, nullMatches: bool, u: string, g: string,
                            flag: Option<bool>): Option<bool> {
    if flag == Some(true) then
      if !Covered(rs, k, u, Some(g)) && JustEnded(rs, k, u, Some(g)) then None else flag
    else if Covered(rs, k, u, Some(g)) && (flag.Some? || nullMatches) then Some(true) else flag
  }

  ghost function SweepUsers(rs: seq<Request>, k: Tick, users: Users): Users {
    map u | u in users :: users[u].(isVacationMode := AccountFlag(rs, k, u, users[u]))
  }

  ghost function SweepMembers(rs: seq<Request>, k: Tick, nullMatches: bool, members: Members): Members {
    map m | m in members :: MemberFlag(rs, k, nullMatches, m.0, m.1, members[m])
  }

  // ----- the sweep as the worker runs it -----

  type Nested = map<string, map<string, string>>

  predicate Has(m: Nested, g: string, u: string) {
    g in m && u in m[g]
  }

  function Put(m: Nested, g: string, u: string, org: string): (m': Nested)
    ensures forall h, v :: Has(m', h, v) <==> Has(m, h, v) || (h == g && v == u)
  {
    m[g := (if g in m then m[g] else map[])[u := org]]
  }

  method ActiveRequests(rs: seq<Request>, k: Tick) returns (active: seq<Request>)
    ensures forall r :: r in active <==> r in rs && Active(r, k)
  {
    active := [];
    for i := 0 to |rs|
      invariant forall r :: r in active <==> r in rs[..i] && Active(r, k)
    {
      assert rs[..i + 1] == rs[..i] + [rs[i]];
      if Active(rs[i], k) { active := active + [rs[i]]; }
    }
    assert rs[..|rs|] == rs;
  }

  method Activations(active: seq<Request>, k: Tick, flagged: set<string>, flaggedMembers: set<(string, string)>)
    returns (toActivate: map<string, string>, memberActivate: Nested)
    ensures forall u :: u in toActivate <==>
              u !in flagged && exists r :: r in active && CoversToday(r, k) && r.groupId.None? && r.userId == u
    ensures forall g, u :: Has(memberActivate, g, u) <==>
              && (u, g) !in flaggedMembers
              && exists r :: r in active && CoversToday(r, k) && r.groupId == Some(g) && r.userId == u
  {
    toActivate, memberActivate := map[], map[];
    for i := 0 to |active|
      invariant forall u :: u in toActivate <==>
                  u !in flagged && exists r :: r in active[..i] && CoversToday(r, k) && r.groupId.None? && r.userId == u
      invariant forall g, u :: Has(memberActivate, g, u) <==>
                  && (u, g) !in flaggedMembers
                  && exists r :: r in active[..i] && CoversToday(r, k) && r.groupId == Some(g) && r.userId == u
    {
      var r := active[i];
      assert active[..i + 1] == active[..i] + [r];
      if CoversToday(r, k) {
        if r.groupId.None? {
          if r.userId !in flagged { toActivate := toActivate[r.userId := r.organizationId]; }
        } else if (r.userId, r.groupId.value) !in flaggedMembers {
          memberActivate := Put(memberActivate, r.groupId.value, r.userId, r.organizationId);
        }
      }
    }
    assert active[..|active|] == active;
  }

  method MemberResumes(active: seq<Request>, k: Tick, flaggedMembers: set<(string, string)>,
                       coveredPairs: set<(string, string)>)
    returns (memberResume: Nested)
    ensures forall g, u :: Has(memberResume, g, u) <==>
              (u, g) in flaggedMembers && (u, g) !in coveredPairs
              && exists r :: r in active && Ended(r, k) && r.groupId == Some(g) && r.userId == u
  {
    memberResume := map[];
    for i := 0 to |active|
      invariant forall g, u :: Has(memberResume, g, u) <==>
                  (u, g) in flaggedMembers && (u, g) !in coveredPairs
                  && exists r :: r in active[..i] && Ended(r, k) && r.groupId == Some(g) && r.userId == u
    {
      var r := active[i];
      assert active[..i + 1] == active[..i] + [r];
      if r.groupId.Some? && Ended(r, k) {
        var pair := (r.userId, r.groupId.value);
        if pair !in coveredPairs && pair in flaggedMembers {
          memberResume := Put(memberResume, r.groupId.value, r.userId, r.organizationId);
        }
      }
    }
    assert active[..|active|] == active;
  }

  lemma ActiveDecides(rs: seq<Request>, active: seq<Request>, k: Tick)
    requires forall r :: r in active <==> r in rs && Active(r, k)
    ensures forall u, scope :: Covered(rs, k, u, scope) <==>
              exists r :: r in active && CoversToday(r, k) && r.groupId == scope && r.userId == u
    ensures forall u, scope :: JustEnded(rs, k, u, scope) <==>
              exists r :: r in active && Ended(r, k) && r.groupId == scope && r.userId == u
  {
  }

  /** Users to switch on and off. */
  ghost predicate UsersDecided(rs: seq<Request>, k: Tick, users: Users, on: set<string>, off: set<string>) {
    forall u :: u in users ==>
      && (u in on <==> !users[u].isVacationMode && Covered(rs, k, u, None))
      && (u in off <==> && users[u].isVacationMode && Truthy(users[u].organizationId)
                        && !Covered(rs, k, u, None) && JustEnded(rs, k, u, None))
  }

  /** Memberships to switch on, and to hand back to the account flag. */
  ghost predicate MembersDecided(rs: seq<Request>, k: Tick, members: Members, on: Nested, off: Nested) {
    forall p: (string, string) :: p in members ==>
      && (Has(on, p.1, p.0) <==> members[p] != Some(true) && Covered(rs, k, p.0, Some(p.1)))
      && (Has(off, p.1, p.0) <==> && members[p] == Some(true)
                                  && !Covered(rs, k, p.0, Some(p.1)) && JustEnded(rs, k, p.0, Some(p.1)))
  }

  /** Users and pairs to switch, read off the active requests before anything is written. */
  method Decide(rs: seq<Request>, active: seq<Request>, k: Tick, users: Users, members: Members)
    returns (toActivate: map<string, string>, toResume: set<string>, memberActivate: Nested, memberResume: Nested)
    requires forall r :: r in active <==> r in rs && Active(r, k)
    ensures UsersDecided(rs, k, users, toActivate.Keys, toResume)
    ensures MembersDecided(rs, k, members, memberActivate, memberResume)
  {
    var flagged := set u | u in users && users[u].isVacationMode;
    var flaggedMembers := set m | m in members && members[m] == Some(true);
    toActivate, memberActivate := Activations(active, k, flagged, flaggedMembers);
    var coveredNow := set r | r in active && r.groupId.None? && CoversToday(r, k) :: r.userId;
    var recentlyEnded := set r | r in active && r.groupId.None? && Ended(r, k) :: r.userId;
    toResume := set u | u in flagged && Truthy(users[u].organizationId) && u !in coveredNow
                        && u !in toActivate && u in recentlyEnded;
    var coveredPairs := set r | r in active && r.groupId.Some? && CoversToday(r, k) :: (r.userId, r.groupId.value);
    memberResume := MemberResumes(active, k, flaggedMembers, coveredPairs);
    ActiveDecides(rs, active, k);
    forall u | u in users
      ensures u in toActivate <==> !users[u].isVacationMode && Covered(rs, k, u, None)
      ensures u in coveredNow <==> Covered(rs, k, u, None)
      ensures u in recentlyEnded <==> JustEnded(rs, k, u, None)
    {}
    forall p: (string, string) | p in members
      ensures p in coveredPairs <==> Covered(rs, k, p.0, Some(p.1))
      ensures Has(memberActivate, p.1, p.0) <==> members[p] != Some(true) && Covered(rs, k, p.0, Some(p.1))
      ensures (exists r :: r in active && Ended(r, k) && r.groupId == Some(p.1) && r.userId == p.0)
         <==> JustEnded(rs, k, p.0, Some(p.1))
    {
      assert p == (p.0, p.1);
    }
  }

  class Flags {
    var users: Users
    var members: Members

    method VacationSweep(rs: seq<Request>, k: Tick, nullMatches: bool)
      modifies this
      ensures users == SweepUsers(rs, k, old(users))
      ensures members == SweepMembers(rs, k, nullMatches, old(members))
    {
      var active := ActiveRequests(rs, k);
      if (forall u :: u in users ==> !users[u].isVacationMode) && active == [] {
        NothingActive(rs, k, nullMatches, users, members);
        return;
      }
      var toActivate, toResume, memberActivate, memberResume := Decide(rs, active, k, users, members);
      WriteMembers(rs, k, nullMatches, memberActivate, memberResume);
      WriteUsers(rs, k, toActivate.Keys, toResume);
    }

    /** Both updates restate the current value in their condition, so unchanged rows are not touched. */
    method WriteMembers(ghost rs: seq<Request>, ghost k: Tick, nullMatches: bool, on: Nested, off: Nested)
      requires MembersDecided(rs, k, members, on, off)
      modifies this`members
      ensures members == SweepMembers(rs, k, nullMatches, old(members))
    {
      members := map m | m in members ::
        if Has(on, m.1, m.0) && (members[m].Some? || nullMatches) then Some(true)
        else if Has(off, m.1, m.0) && members[m] == Some(true) then None
        else members[m];
    }

    method WriteUsers(ghost rs: seq<Request>, ghost k: Tick, on: set<string>, off: set<string>)
      requires UsersDecided(rs, k, users, on, off)
      modifies this`users
      ensures users == SweepUsers(rs, k, old(users))
    {
      users := map u | u in users ::
        if u in on then users[u].(isVacationMode := true)
        else if u in off then users[u].(isVacationMode := false)
        else users[u];
    }
  }

  /** The early return is right: with nothing active no flag would change. */
  lemma NothingActive(rs: seq<Request>, k: Tick, nullMatches: bool, users: Users, members: Members)
    requires forall r :: r in rs ==> !Active(r, k)
    ensures SweepUsers(rs, k, users) == users && SweepMembers(rs, k, nullMatches, members) == members
  {
  }

  /** Approved, not deleted, and within two days of the instant; and where the organisation's day stands to it. */
  datatype Standing = Ignored | CoversDay | EndedBefore

  function StandingOf(r: Request, k: Tick): Standing {
    if !r.approved || r.deleted || k.now + 172800000 < r.startDate || r.endDate < k.now - 172800000 then Ignored
    else if r.organizationId !in k.today then Ignored
    else
      var today := k.today[r.organizationId];
      if today < r.startDate then Ignored else if r.endDate < today then EndedBefore else CoversDay
  }

  /**
   * One sweep and a member's only request. For every group: covering the day it switches the account flag on,
   * ended it switches it off when the account has an organisation. For one group: covering the day it switches
   * that membership's flag on, where an absent flag needs a database that matches it; ended it makes a flag
   * that is on absent. Nothing else of the member's changes.
   */
  lemma OnlyRequestDecides(rs: seq<Request>, k: Tick, nullMatches: bool, users: Users, members: Members, r: Request,
                           g: string)
    requires r in rs && forall x :: x in rs && x.userId == r.userId ==> x == r
    requires r.startDate <= r.endDate && r.userId in users && (r.userId, g) in members
    ensures SweepUsers(rs, k, users).Keys == users.Keys
    ensures var (before, after) := (users[r.userId], SweepUsers(rs, k, users)[r.userId]);
            && after.organizationId == before.organizationId
            && after.isVacationMode ==
               if r.groupId == None && StandingOf(r, k) == CoversDay then true
               else if r.groupId == None && StandingOf(r, k) == EndedBefore
                       && before.organizationId !in {None, Some("")} then false
               else before.isVacationMode
    ensures SweepMembers(rs, k, nullMatches, members).Keys == members.Keys
    ensures var (before, after) := (members[(r.userId, g)], SweepMembers(rs, k, nullMatches, members)[(r.userId, g)]);
            after ==
            if r.groupId == Some(g) && StandingOf(r, k) == CoversDay && (before != None || nullMatches) then Some(true)
            else if r.groupId == Some(g) && StandingOf(r, k) == EndedBefore && before == Some(true) then None
            else before
  {
    var u := r.userId;
    forall scope: Option<string>
      ensures Covered(rs, k, u, scope) <==> scope == r.groupId && StandingOf(r, k) == CoversDay
      ensures JustEnded(rs, k, u, scope) <==> scope == r.groupId && StandingOf(r, k) == EndedBefore
    {
      OnlyStanding(rs, k, r, scope);
    }
  }

  lemma OnlyStanding(rs: seq<Request>, k: Tick, r: Request, scope: Option<string>)
    requires r in rs && r.startDate <= r.endDate && forall x :: x in rs && x.userId == r.userId ==> x == r
    ensures Covered(rs, k, r.userId, scope) <==> scope == r.groupId && StandingOf(r, k) == CoversDay
    ensures JustEnded(rs, k, r.userId, scope) <==> scope == r.groupId && StandingOf(r, k) == EndedBefore
  {
  }

  // ----- many sweeps -----

  datatype Day = Day(requests: seq<Request>, tick: Tick)

  ghost function UsersAfter(days: seq<Day>, users: Users): Users {
    if days == [] then users else
      var d := days[|days| - 1];
      SweepUsers(d.requests, d.tick, UsersAfter(days[..|days| - 1], users))
  }

  ghost function MembersAfter(days: seq<Day>, nullMatches: bool, members: Members): Members {
    if days == [] then members else
      var d := days[|days| - 1];
      SweepMembers(d.requests, d.tick, nullMatches, MembersAfter(days[..|days| - 1], nullMatches, members))
  }

  /** The same requests, except those scoped to group `g`. */
  predicate SameOutside(rs: seq<Request>, rs': seq<Request>, g: string) {
    && (forall r :: r in rs && r.groupId != Some(g) ==> r in rs')
    && (forall r :: r in rs' && r.groupId != Some(g) ==> r in rs)
  }

  predicate DaysSameOutside(days: seq<Day>, days': seq<Day>, g: string) {
    |days| == |days'| && forall i :: 0 <= i < |days| ==>
      days[i].tick == days'[i].tick && SameOutside(days[i].requests, days'[i].requests, g)
  }

  lemma ScopeUnaffected(rs: seq<Request>, rs': seq<Request>, g: string, k: Tick, u: string, scope: Option<string>)
    requires SameOutside(rs, rs', g) && scope != Some(g)
    ensures Covered(rs, k, u, scope) <==> Covered(rs', k, u, scope)
    ensures JustEnded(rs, k, u, scope) <==> JustEnded(rs', k, u, scope)
  {
  }

  lemma SweepUsersUnaffected(rs: seq<Request>, rs': seq<Request>, g: string, k: Tick, users: Users)
    requires SameOutside(rs, rs', g)
    ensures SweepUsers(rs, k, users) == SweepUsers(rs', k, users)
  {
    forall u | u in users ensures AccountFlag(rs, k, u, users[u]) == AccountFlag(rs', k, u, users[u]) {
      ScopeUnaffected(rs, rs', g, k, u, None);
    }
  }

  /** The same membership flags outside group `g`. */
  predicate MembersSameOutside(m: Members, m': Members, g: string) {
    m.Keys == m'.Keys && forall p :: p in m && p.1 != g ==> m[p] == m'[p]
  }

  lemma SweepMembersUnaffected(rs: seq<Request>, rs': seq<Request>, g: string, k: Tick, nullMatches: bool, m: Members,
                               m': Members)
    requires SameOutside(rs, rs', g) && MembersSameOutside(m, m', g)
    ensures MembersSameOutside(SweepMembers(rs, k, nullMatches, m), SweepMembers(rs', k, nullMatches, m'), g)
  {
    forall p | p in m && p.1 != g
      ensures MemberFlag(rs, k, nullMatches, p.0, p.1, m[p]) == MemberFlag(rs', k, nullMatches, p.0, p.1, m'[p])
    {
      ScopeUnaffected(rs, rs', g, k, p.0, Some(p.1));
    }
  }

  /**
   * Whatever requests scoped to `g` are added or removed, on any number of days, no account flag
   * and no membership flag of another group changes.
   */
  lemma {:induction false} GroupRequestsDoNotSpill(days: seq<Day>, days': seq<Day>, g: string, nullMatches: bool,
                                                   users: Users, members: Members)
    requires DaysSameOutside(days, days', g)
    ensures UsersAfter(days, users) == UsersAfter(days', users)
    ensures MembersSameOutside(MembersAfter(days, nullMatches, members), MembersAfter(days', nullMatches, members), g)
  {
    if days != [] {
      var n := |days| - 1;
      GroupRequestsDoNotSpill(days[..n], days'[..n], g, nullMatches, users, members);
      SweepUsersUnaffected(days[n].requests, days'[n].requests, g, days[n].tick, UsersAfter(days[..n], users));
      SweepMembersUnaffected(days[n].requests, days'[n].requests, g, days[n].tick, nullMatches,
                             MembersAfter(days[..n], nullMatches, members),
                             MembersAfter(days'[..n], nullMatches, members));
    }
  }

  /** A member with no all-groups request near today keeps the account flag, day after day. */
  lemma {:induction false} ToggleIsLeftAlone(days: seq<Day>, users: Users, u: string)
    requires u in users
    requires forall i, r :: 0 <= i < |days| && r in days[i].requests && Active(r, days[i].tick) && r.userId == u ==>
             r.groupId.Some?
    ensures u in UsersAfter(days, users) && UsersAfter(days, users)[u] == users[u]
  {
    if days != [] {
      ToggleIsLeftAlone(days[..|days| - 1], users, u);
    }
  }

  /** The business days lie well inside the window of active requests. */
  predicate TodayIsNear(k: Tick) {
    forall o :: o in k.today ==> k.now - 2 * DAY_MS <= k.today[o] <= k.now + 2 * DAY_MS
  }

  lemma LaterSameDay(rs: seq<Request>, k: Tick, k': Tick, u: string, scope: Option<string>)
    requires forall r :: r in rs ==> r.startDate <= r.endDate
    requires k'.today == k.today && k.now <= k'.now && TodayIsNear(k) && TodayIsNear(k')
    ensures Covered(rs, k', u, scope) <==> Covered(rs, k, u, scope)
    ensures JustEnded(rs, k', u, scope) ==> JustEnded(rs, k, u, scope)
  {
  }

  /** A second sweep later the same day changes no flag. */
  lemma SecondSweepChangesNothing(rs: seq<Request>, k: Tick, k': Tick, nullMatches: bool, users: Users,
                                  members: Members)
    requires forall r :: r in rs ==> r.startDate <= r.endDate
    requires k'.today == k.today && k.now <= k'.now && TodayIsNear(k) && TodayIsNear(k')
    ensures var users1, members1 := SweepUsers(rs, k, users), SweepMembers(rs, k, nullMatches, members);
            && SweepUsers(rs, k', users1) == users1
            && SweepMembers(rs, k', nullMatches, members1) == members1
  {
    forall u, scope: Option<string>
      ensures Covered(rs, k', u, scope) <==> Covered(rs, k, u, scope)
      ensures JustEnded(rs, k', u, scope) ==> JustEnded(rs, k, u, scope)
    {
      LaterSameDay(rs, k, k', u, scope);
    }
  }

  /** On this day's sweep `r` is the only all-groups request near for `u`. */
  predicate OnlyRequest(d: Day, u: string, r: Request) {
    && r in d.requests && r.userId == u && r.groupId.None?
    && forall x :: x in d.requests && Active(x, d.tick) && x.userId == u && x.groupId.None? ==> x == r
  }

  /**
   * After a vacation has ended the account flag is switched off by some sweep exactly when a sweep still
   * sees the request, which is within two days of its end; if none runs then, it stays on for ever.
   */
  lemma {:induction false} AccountFlagClearsIff(days: seq<Day>, users: Users, u: string, r: Request)
    requires u in users && users[u].isVacationMode && Truthy(users[u].organizationId)
    requires forall i :: 0 <= i < |days| ==> OnlyRequest(days[i], u, r) && Ended(r, days[i].tick)
    ensures u in UsersAfter(days, users) && UsersAfter(days, users)[u].organizationId == users[u].organizationId
    ensures UsersAfter(days, users)[u].isVacationMode <==> forall i :: 0 <= i < |days| ==> !Active(r, days[i].tick)
  {
    if days != [] {
      var n := |days| - 1;
      AccountFlagClearsIff(days[..n], users, u, r);
      assert !Covered(days[n].requests, days[n].tick, u, None);
      assert JustEnded(days[n].requests, days[n].tick, u, None) <==> Active(r, days[n].tick);
    }
  }

  /** The flag is on after a sweep the vacation covers, whatever happened on the days before. */
  lemma CoveredAccountIsOn(days: seq<Day>, users: Users, u: string, r: Request)
    requires u in users && days != [] && OnlyRequest(days[|days| - 1], u, r)
    requires Active(r, days[|days| - 1].tick) && CoversToday(r, days[|days| - 1].tick)
    ensures u in UsersAfter(days, users) && UsersAfter(days, users)[u].isVacationMode
  {
    SweptUsersStay(days[..|days| - 1], users);
    assert Covered(days[|days| - 1].requests, days[|days| - 1].tick, u, None);
  }

  lemma {:induction false} SweptUsersStay(days: seq<Day>, users: Users)
    ensures UsersAfter(days, users).Keys == users.Keys
  {
    if days != [] { SweptUsersStay(days[..|days| - 1], users); }
  }

  /** A membership no request of its group is near keeps its flag, day after day. */
  lemma {:induction false} MembershipIsLeftAlone(days: seq<Day>, nullMatches: bool, members: Members, u: string,
                                                 g: string)
    requires (u, g) in members
    requires forall i, r :: 0 <= i < |days| && r in days[i].requests && Active(r, days[i].tick) && r.userId == u ==>
               r.groupId != Some(g)
    ensures (u, g) in MembersAfter(days, nullMatches, members)
            && MembersAfter(days, nullMatches, members)[(u, g)] == members[(u, g)]
  {
    if days != [] {
      MembershipIsLeftAlone(days[..|days| - 1], nullMatches, members, u, g);
    }
  }

  /** On this day's sweep `r` is the only request of `u` near for group `g`. */
  predicate OnlyGroupRequest(d: Day, u: string, g: string, r: Request) {
    && r in d.requests && r.userId == u && r.groupId == Some(g)
    && forall x :: x in d.requests && Active(x, d.tick) && x.userId == u && x.groupId == Some(g) ==> x == r
  }

  lemma EndedMembershipStep(d: Day, nullMatches: bool, u: string, g: string, r: Request, flag: Option<bool>)
    requires OnlyGroupRequest(d, u, g, r) && Ended(r, d.tick) && (flag == None || flag == Some(true))
    ensures MemberFlag(d.requests, d.tick, nullMatches, u, g, flag) == if Active(r, d.tick) then None else flag
  {
    assert !Covered(d.requests, d.tick, u, Some(g));
    assert JustEnded(d.requests, d.tick, u, Some(g)) <==> Active(r, d.tick);
  }

  /**
   * After a group vacation has ended the membership flag is handed back to the account's by some sweep, and
   * stays so, exactly when a sweep still sees the request; if none runs then, it stays on for ever.
   */
  lemma {:induction false} MembershipFlagClearsIff(days: seq<Day>, nullMatches: bool, members: Members, u: string,
                                                   g: string, r: Request)
    requires (u, g) in members && members[(u, g)] == Some(true)
    requires forall i :: 0 <= i < |days| ==> OnlyGroupRequest(days[i], u, g, r) && Ended(r, days[i].tick)
    ensures (u, g) in MembersAfter(days, nullMatches, members)
    ensures MembersAfter(days, nullMatches, members)[(u, g)]
            == if (forall i :: 0 <= i < |days| ==> !Active(r, days[i].tick)) then Some(true) else None
  {
    if days != [] {
      var n := |days| - 1;
      var before := MembersAfter(days[..n], nullMatches, members);
      MembershipFlagClearsIff(days[..n], nullMatches, members, u, g, r);
      EndedMembershipStep(days[n], nullMatches, u, g, r, before[(u, g)]);
      assert forall i :: 0 <= i < n ==> days[..n][i] == days[i];
    }
  }

  /** A covered membership is switched on unless its flag was absent and the database skips absent flags. */
  lemma CoveredMembershipIsOnIff(rs: seq<Request>, k: Tick, nullMatches: bool, members: Members, u: string, g: string)
    requires (u, g) in members && Covered(rs, k, u, Some(g))
    ensures SweepMembers(rs, k, nullMatches, members)[(u, g)] == Some(true) <==> members[(u, g)].Some? || nullMatches
  {
  }
}
