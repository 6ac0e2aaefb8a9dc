/**
 * Is a member on vacation for a (date, meal)? Dates are milliseconds at midnight,
 * clocks are minutes; a slot bound trims the first and last day of a request.
 */
module VacationCoverage {
  import opened Prelude
  import opened Text
  import opened AttendanceWindows
  import PublishedDay

  datatype Request = Request(
    groupId: Option<string>, startDate: int, endDate: int, startSlot: Option<string>, endSlot: Option<string>)

  /** One or two digits, a colon, two digits; anything else has no clock. */
  function HhmmToMinutes(t: Option<string>): Option<int> {
    if !Truthy(t) then None else
      var s := t.value;
      if |s| == 4 && IsDigit(s[0]) && s[1] == ':' && IsDigit(s[2]) && IsDigit(s[3]) then
        Some(Digit(s[0]) * 60 + Digit(s[2]) * 10 + Digit(s[3]))
      else if |s| == 5 && IsDigit(s[0]) && IsDigit(s[1]) && s[2] == ':' && IsDigit(s[3]) && IsDigit(s[4]) then
        Some((Digit(s[0]) * 10 + Digit(s[1])) * 60 + Digit(s[3]) * 10 + Digit(s[4]))
      else None
  }

  /** Hours and minutes of one or two digits and of two read as sixty minutes an hour; no other text reads. */
  lemma ClockTextReads(h: nat, m: nat)
    requires h < 100 && m < 100
    ensures HhmmToMinutes(Some(TwoDigits(h) + ":" + TwoDigits(m))) == Some(60 * h + m)
    ensures h < 10 ==> HhmmToMinutes(Some(TwoDigits(h)[1..] + ":" + TwoDigits(m))) == Some(60 * h + m)
  {
    var s := TwoDigits(h) + ":" + TwoDigits(m);
    assert s[..2] == TwoDigits(h) && s[2] == ':' && s[3..] == TwoDigits(m);
    DigitsRead(s[0], s[1], h);
    DigitsRead(s[3], s[4], m);
    if h < 10 {
      var u := TwoDigits(h)[1..] + ":" + TwoDigits(m);
      assert u[0] == s[1] && u[1] == ':' && u[2] == s[3] && u[3] == s[4];
    }
  }

  lemma OnlyClockTextReads(t: Option<string>)
    requires HhmmToMinutes(t).Some?
    ensures t.Some? && exists h: nat, m: nat :: h < 100 && m < 100 && IsClock(t.value, h, m)
  {
    var s := t.value;
    if |s| == 4 {
      var h, m := Digit(s[0]), 10 * Digit(s[2]) + Digit(s[3]);
      DigitsRead('0', s[0], h);
      DigitsRead(s[2], s[3], m);
      assert s == [s[0]] + [':'] + [s[2], s[3]];
      assert ['0', s[0]][1..] == [s[0]];
      assert IsClock(s, h, m);
    } else {
      var h, m := 10 * Digit(s[0]) + Digit(s[1]), 10 * Digit(s[3]) + Digit(s[4]);
      DigitsRead(s[0], s[1], h);
      DigitsRead(s[3], s[4], m);
      assert s == [s[0], s[1]] + [':'] + [s[3], s[4]];
      assert IsClock(s, h, m);
    }
  }

  predicate IsClock(s: string, h: nat, m: nat)
    requires h < 100 && m < 100
  {
    s == TwoDigits(h) + ":" + TwoDigits(m) || (h < 10 && s == TwoDigits(h)[1..] + ":" + TwoDigits(m))
  }

  /** Does an approved request cover the meal? */
  function RequestCoversMeal(req: Request, t: int, mealOpen: Option<int>, slotOpen: string -> Option<int>,
                             mealSlot: Option<string>): bool {
    if t < req.startDate || t > req.endDate then false else
      var isStartDay := t == req.startDate;
      var isEndDay := t == req.endDate;
      if (!isStartDay || !Truthy(req.startSlot)) && (!isEndDay || !Truthy(req.endSlot)) then true
      else
        var startIdentity := isStartDay && req.startSlot == mealSlot;
        var endIdentity := isEndDay && req.endSlot == mealSlot;
        if Truthy(mealSlot) && startIdentity && (!isEndDay || !Truthy(req.endSlot) || endIdentity) then true
        else if Truthy(mealSlot) && endIdentity && (!isStartDay || !Truthy(req.startSlot) || startIdentity) then true
        else if mealOpen.None? then true
        else
          var start := if isStartDay && Truthy(req.startSlot) then slotOpen(req.startSlot.value) else None;
          var end := if isEndDay && Truthy(req.endSlot) then slotOpen(req.endSlot.value) else None;
          !(start.Some? && mealOpen.value < start.value) && !(end.Some? && mealOpen.value > end.value)
  }

  // ----- coverage is an interval -----

  predicate NotAfter(day1: int, clock1: int, day2: int, clock2: int) {
    day1 < day2 || (day1 == day2 && clock1 <= clock2)
  }

  /** (day, clock) is on or after the start bound; without a slot the whole first day is. */
  predicate FromStart(req: Request, t: int, clock: int, slotOpen: string -> Option<int>)
    requires Truthy(req.startSlot) ==> slotOpen(req.startSlot.value).Some?
  {
    if Truthy(req.startSlot) then NotAfter(req.startDate, slotOpen(req.startSlot.value).value, t, clock)
    else req.startDate <= t
  }

  predicate ToEnd(req: Request, t: int, clock: int, slotOpen: string -> Option<int>)
    requires Truthy(req.endSlot) ==> slotOpen(req.endSlot.value).Some?
  {
    if Truthy(req.endSlot) then NotAfter(t, clock, req.endDate, slotOpen(req.endSlot.value).value)
    else t <= req.endDate
  }

  /** With known clocks, and the meal opening at its slot's clock, coverage is exactly a (day, clock) interval. */
  lemma CoverageIsInterval(req: Request, t: int, clock: int, slotOpen: string -> Option<int>, mealSlot: Option<string>)
    requires Truthy(req.startSlot) ==> slotOpen(req.startSlot.value).Some?
    requires Truthy(req.endSlot) ==> slotOpen(req.endSlot.value).Some?
    requires Truthy(mealSlot) ==> slotOpen(mealSlot.value) == Some(clock)
    ensures RequestCoversMeal(req, t, Some(clock), slotOpen, mealSlot)
       <==> FromStart(req, t, clock, slotOpen) && ToEnd(req, t, clock, slotOpen)
  {
  }

  /**
   * The boundary meals are covered whatever the clocks say: the start meal unless the request also ends that
   * day with another meal, and the end meal unless it also starts that day with another.
   */
  lemma BoundaryMealsCovered(req: Request, mealOpen: Option<int>, slotOpen: string -> Option<int>)
    requires req.startDate <= req.endDate
    ensures Truthy(req.startSlot)
            && (req.startDate < req.endDate || req.endSlot in {None, Some(""), req.startSlot})
            ==> RequestCoversMeal(req, req.startDate, mealOpen, slotOpen, req.startSlot)
    ensures Truthy(req.endSlot)
            && (req.startDate < req.endDate || req.startSlot in {None, Some(""), req.endSlot})
            ==> RequestCoversMeal(req, req.endDate, mealOpen, slotOpen, req.endSlot)
  {
  }

  /**
   * Any other meal of the request's days goes by its clock: it is covered unless it is known to open before
   * the start slot on the first day, or after the end slot on the last.
   */
  lemma OtherMealsGoByClock(req: Request, t: int, open: Option<int>, slotOpen: string -> Option<int>,
                            mealSlot: Option<string>)
    requires t == req.startDate && Truthy(req.startSlot) && mealSlot == req.startSlot ==>
               t == req.endDate && Truthy(req.endSlot) && mealSlot != req.endSlot
    requires t == req.endDate && Truthy(req.endSlot) && mealSlot == req.endSlot ==>
               t == req.startDate && Truthy(req.startSlot) && mealSlot != req.startSlot
    ensures RequestCoversMeal(req, t, open, slotOpen, mealSlot)
       <==> && req.startDate <= t <= req.endDate
            && !(t == req.startDate && Truthy(req.startSlot) && Earlier(open, slotOpen(req.startSlot.value)))
            && !(t == req.endDate && Truthy(req.endSlot) && Earlier(slotOpen(req.endSlot.value), open))
  {
  }

  /** Forgetting clocks never uncovers a meal. */
  lemma UnknownClocksEnlarge(req: Request, t: int, open: Option<int>, known: string -> Option<int>,
                             open': Option<int>, less: string -> Option<int>, mealSlot: Option<string>)
    requires open' == open || open'.None?
    requires forall k :: less(k) == known(k) || less(k).None?
    requires RequestCoversMeal(req, t, open, known, mealSlot)
    ensures RequestCoversMeal(req, t, open', less, mealSlot)
  {
    assert Truthy(req.startSlot) ==>
        less(req.startSlot.value) == known(req.startSlot.value) || less(req.startSlot.value).None?;
    assert Truthy(req.endSlot) ==> less(req.endSlot.value) == known(req.endSlot.value) || less(req.endSlot.value).None?;
  }

  /** Coverage consults only the clocks of the bounds that fall on the day. */
  lemma OnlyBoundaryClocksMatter(req: Request, t: int, open: Option<int>, f: string -> Option<int>,
                                 g: string -> Option<int>,
                                 mealSlot: Option<string>)
    requires t == req.startDate && Truthy(req.startSlot) ==> f(req.startSlot.value) == g(req.startSlot.value)
    requires t == req.endDate && Truthy(req.endSlot) ==> f(req.endSlot.value) == g(req.endSlot.value)
    ensures RequestCoversMeal(req, t, open, f, mealSlot) == RequestCoversMeal(req, t, open, g, mealSlot)
  {
  }

  // ----- where a vacation is recorded -----

  /** The account flag for requests of every group; memberships for requests of one group. */
  method SplitVacationTargets(covering: seq<Request>) returns (orgLevel: bool, groupIds: set<string>)
    ensures orgLevel <==> exists r :: r in covering && r.groupId.None?
    ensures forall g :: g in groupIds <==> exists r :: r in covering && r.groupId == Some(g)
  {
    orgLevel, groupIds := false, {};
    for i := 0 to |covering|
      invariant orgLevel <==> exists r :: r in covering[..i] && r.groupId.None?
      invariant forall g :: g in groupIds <==> exists r :: r in covering[..i] && r.groupId == Some(g)
    {
      var r := covering[i];
      assert covering[..i + 1] == covering[..i] + [r];
      if r.groupId.None? {
        orgLevel := true;
      } else {
        groupIds := groupIds + {r.groupId.value};
      }
    }
    assert covering[..|covering|] == covering;
  }

  /** The scope shown to clients: no list when nothing covers today or something covers every group. */
  method ResolveVacationScope(requests: seq<Request>, today: int) returns (scope: Option<set<string>>)
    ensures scope.None? <==>
              || (forall r :: r in requests ==> !(r.startDate <= today <= r.endDate))
              || (exists r :: r in requests && r.startDate <= today <= r.endDate && r.groupId.None?)
    ensures scope.Some? ==> forall g :: g in scope.value <==>
              exists r :: r in requests && r.startDate <= today <= r.endDate && r.groupId == Some(g)
  {
    var covering: seq<Request> := [];
    for i := 0 to |requests|
      invariant forall r :: r in covering <==> r in requests[..i] && r.startDate <= today <= r.endDate
    {
      assert requests[..i + 1] == requests[..i] + [requests[i]];
      if requests[i].startDate <= today <= requests[i].endDate { covering := covering + [requests[i]]; }
    }
    assert requests[..|requests|] == requests;
    var orgLevel, groupIds := SplitVacationTargets(covering);
    if covering == [] || orgLevel {
      scope := None;
    } else {
      assert covering[0] in covering;
      scope := Some(groupIds);
    }
  }

  // ----- meals already taken today -----

  datatype TakenMeal = TakenMeal(id: string, groupId: string, slotKey: string, window: Option<string>)

  function MasterClock(meals: seq<TakenMeal>, groupId: string, slotKey: string): Option<int> {
    if meals == [] then None
    else if meals[0].groupId == groupId && meals[0].slotKey == slotKey then HhmmToMinutes(meals[0].window)
    else MasterClock(meals[1..], groupId, slotKey)
  }

  /** The clock is that of the first meal of the group with the slot, if it has one. */
  lemma {:induction false} MasterClockIs(meals: seq<TakenMeal>, groupId: string, slotKey: string, i: nat)
    requires i <= |meals|
    requires forall j :: 0 <= j < i ==> meals[j].groupId != groupId || meals[j].slotKey != slotKey
    requires i < |meals| ==> meals[i].groupId == groupId && meals[i].slotKey == slotKey
    ensures MasterClock(meals, groupId, slotKey)
         == if i < |meals| then HhmmToMinutes(meals[i].window) else None
  {
    if i > 0 {
      assert meals[0].groupId != groupId || meals[0].slotKey != slotKey;
      assert forall j :: 0 <= j < |meals[1..]| ==> meals[1..][j] == meals[j + 1];
      MasterClockIs(meals[1..], groupId, slotKey, i - 1);
    }
  }

  predicate CoversTaken(req: Request, t: int, m: TakenMeal, groupMeals: seq<TakenMeal>) {
    RequestCoversMeal(req, t, HhmmToMinutes(m.window), (k: string) => MasterClock(groupMeals, m.groupId, k),
        Some(m.slotKey))
  }

  /** The first taken meal the request would cover, or nothing exactly when it covers none. */
  method FindCoveredTakenMeal(req: Request, t: int, taken: seq<TakenMeal>, groupMeals: seq<TakenMeal>)
    returns (r: Option<TakenMeal>)
    ensures r.None? <==> forall i :: 0 <= i < |taken| ==> !CoversTaken(req, t, taken[i], groupMeals)
    ensures r.Some? ==> exists i :: 0 <= i < |taken| && taken[i] == r.value && CoversTaken(req, t, taken[i], groupMeals)
                          && forall j :: 0 <= j < i ==> !CoversTaken(req, t, taken[j], groupMeals)
  {
    for i := 0 to |taken|
      invariant forall j :: 0 <= j < i ==> !CoversTaken(req, t, taken[j], groupMeals)
    {
      if CoversTaken(req, t, taken[i], groupMeals) {
        return Some(taken[i]);
      }
    }
    return None;
  }

  // ----- which candidates are covered -----

  datatype VacationRow = VacationRow(userId: string, approved: bool, deleted: bool, req: Request)
  datatype Candidate = Candidate(userId: string, isVacationMode: bool)
  datatype SlotMeal = SlotMeal(id: string, slotKey: string, window: Option<string>)

  predicate Governs(r: VacationRow, t: int) {
    r.approved && !r.deleted && r.req.startDate <= t <= r.req.endDate
  }

  predicate ForGroup(r: VacationRow, groupId: string) {
    !Truthy(r.req.groupId) || r.req.groupId == Some(groupId)
  }

  /** The clock members see for a slot: the published day's, its frozen master's, or the live master's. */
  function EffectiveClock(m: SlotMeal, day: map<string, PublishedDay.DayEntry>): Option<int> {
    var open :=
      if m.id !in day then m.window
      else
        var de := day[m.id];
        if de.openTime.Some? then de.openTime
        else if de.configurationFrozen && de.meal.Some? && de.meal.value.windowOpen.Some? then de.meal.value.windowOpen
        else m.window;
    HhmmToMinutes(open)
  }

  /** Clock of a slot of the group; a later meal of the same slot replaces an earlier one. */
  function SlotClock(meals: seq<SlotMeal>, day: map<string, PublishedDay.DayEntry>, k: string): Option<int> {
    if meals == [] then None
    else if meals[|meals| - 1].slotKey == k then EffectiveClock(meals[|meals| - 1], day)
    else SlotClock(meals[..|meals| - 1], day, k)
  }

  /**
   * The clock of a slot is that of its last meal: the published day's own opening time, else the opening time
   * frozen with the day's configuration, else the meal's.
   */
  lemma {:induction false} SlotClockIs(meals: seq<SlotMeal>, day: map<string, PublishedDay.DayEntry>, k: string, i: int)
    requires -1 <= i < |meals|
    requires forall j :: i < j < |meals| ==> meals[j].slotKey != k
    requires 0 <= i ==> meals[i].slotKey == k
    ensures i == -1 ==> SlotClock(meals, day, k) == None
    ensures 0 <= i && meals[i].id !in day ==> SlotClock(meals, day, k) == HhmmToMinutes(meals[i].window)
    ensures 0 <= i && meals[i].id in day ==>
              var e := day[meals[i].id];
              SlotClock(meals, day, k)
              == if e.openTime != None then HhmmToMinutes(e.openTime)
                 else if !e.configurationFrozen || e.meal == None || e.meal.value.windowOpen == None
                 then HhmmToMinutes(meals[i].window)
                 else HhmmToMinutes(e.meal.value.windowOpen)
  {
    if i < |meals| - 1 {
      assert meals[|meals| - 1].slotKey != k;
      SlotClockIs(meals[..|meals| - 1], day, k, i);
    }
  }

  /** What decides one candidate: a governing request of this group or of all groups, else the flag. */
  ghost predicate CoveredBySpec(rows: seq<VacationRow>, meals: seq<SlotMeal>, day: map<string, PublishedDay.DayEntry>,
                                groupId: string, t: int, open: Option<int>, mealSlot: Option<string>, c: Candidate) {
    if exists r :: r in rows && Governs(r, t) && ForGroup(r, groupId) && r.userId == c.userId then
      exists r :: r in rows && Governs(r, t) && ForGroup(r, groupId) && r.userId == c.userId
                  && RequestCoversMeal(r.req, t, open, (k: string) => SlotClock(meals, day, k), mealSlot)
    else c.isVacationMode
  }

  method BoundarySlots(rows: seq<VacationRow>, t: int) returns (keys: set<string>)
    ensures forall r :: r in rows && Truthy(r.req.startSlot) && r.req.startDate == t ==> r.req.startSlot.value in keys
    ensures forall r :: r in rows && Truthy(r.req.endSlot) && r.req.endDate == t ==> r.req.endSlot.value in keys
  {
    keys := {};
    for i := 0 to |rows|
      invariant forall r :: r in rows[..i] && Truthy(r.req.startSlot) && r.req.startDate == t ==>
                r.req.startSlot.value in keys
      invariant forall r :: r in rows[..i] && Truthy(r.req.endSlot) && r.req.endDate == t ==>
                r.req.endSlot.value in keys
    {
      var r := rows[i];
      assert rows[..i + 1] == rows[..i] + [r];
      if Truthy(r.req.startSlot) && r.req.startDate == t { keys := keys + {r.req.startSlot.value}; }
      if Truthy(r.req.endSlot) && r.req.endDate == t { keys := keys + {r.req.endSlot.value}; }
    }
    assert rows[..|rows|] == rows;
  }

  /** Clocks of the wanted slots only. */
  method SlotOpens(meals: seq<SlotMeal>, day: map<string, PublishedDay.DayEntry>, keys: set<string>)
    returns (opens: map<string, Option<int>>)
    ensures forall k :: k in keys ==> (if k in opens then opens[k] else None) == SlotClock(meals, day, k)
  {
    opens := map[];
    for i := 0 to |meals|
      invariant forall k :: k in keys ==> (if k in opens then opens[k] else None) == SlotClock(meals[..i], day, k)
    {
      assert meals[..i + 1][..i] == meals[..i];
      if meals[i].slotKey in keys {
        opens := opens[meals[i].slotKey := EffectiveClock(meals[i], day)];
      }
    }
    assert meals[..|meals|] == meals;
  }

  method ByUser(rows: seq<VacationRow>, groupId: string) returns (byUser: map<string, seq<VacationRow>>)
    ensures forall u, r :: u in byUser && r in byUser[u] <==> r in rows && ForGroup(r, groupId) && r.userId == u
    ensures forall u :: u in byUser ==> byUser[u] != []
  {
    byUser := map[];
    for i := 0 to |rows|
      invariant forall u, r ::
                  u in byUser && r in byUser[u] <==> r in rows[..i] && ForGroup(r, groupId) && r.userId == u
      invariant forall u :: u in byUser ==> byUser[u] != []
    {
      var r := rows[i];
      assert rows[..i + 1] == rows[..i] + [r];
      if ForGroup(r, groupId) {
        var list := if r.userId in byUser then byUser[r.userId] else [];
        byUser := byUser[r.userId := list + [r]];
      }
    }
    assert rows[..|rows|] == rows;
  }

  function Governing(rows: seq<VacationRow>, t: int, users: set<string>): (r: seq<VacationRow>)
    ensures forall x :: x in r <==> x in rows && Governs(x, t) && x.userId in users
  {
    if rows == [] then [] else
      (if Governs(rows[0], t) && rows[0].userId in users then [rows[0]] else []) + Governing(rows[1..], t, users)
  }

  /** The batch resolver. The boundary clocks are looked up before requests of other groups are dropped. */
  method GetVacationCoveredUserIds(rows: seq<VacationRow>, meals: seq<SlotMeal>,
                                   day: map<string, PublishedDay.DayEntry>,
                                   groupId: string, t: int, mealOpenTime: Option<string>, mealSlot: Option<string>,
                                   candidates: seq<Candidate>) returns (covered: set<string>)
    ensures forall u :: u in covered <==>
              exists c :: c in candidates && c.userId == u
                && CoveredBySpec(rows, meals, day, groupId, t, HhmmToMinutes(mealOpenTime), mealSlot, c)
  {
    if candidates == [] {
      return {};
    }
    var users := set i | 0 <= i < |candidates| :: candidates[i].userId;
    var requests := Governing(rows, t, users);
    var keys := BoundarySlots(requests, t);
    var opens: map<string, Option<int>> := map[];
    if keys != {} {
      opens := SlotOpens(meals, day, keys);
    }
    var lookup := (k: string) => if k in opens then opens[k] else None;
    var open := HhmmToMinutes(mealOpenTime);
    var byUser := ByUser(requests, groupId);
    forall r | r in requests
      ensures RequestCoversMeal(r.req, t, open, lookup, mealSlot)
           == RequestCoversMeal(r.req, t, open, (k: string) => SlotClock(meals, day, k), mealSlot)
    {
      OnlyBoundaryClocksMatter(r.req, t, open, lookup, (k: string) => SlotClock(meals, day, k), mealSlot);
    }
    covered := {};
    for i := 0 to |candidates|
      invariant forall u :: u in covered <==>
                  exists c :: c in candidates[..i] && c.userId == u
                    && CoveredBySpec(rows, meals, day, groupId, t, open, mealSlot, c)
    {
      var c := candidates[i];
      assert candidates[..i + 1] == candidates[..i] + [c];
      assert c.userId in users;
      var isCovered := c.isVacationMode;
      if c.userId in byUser {
        var list := byUser[c.userId];
        isCovered := exists j :: 0 <= j < |list| && RequestCoversMeal(list[j].req, t, open, lookup, mealSlot);
        assert list[0] in list;
      }
      assert isCovered <==> CoveredBySpec(rows, meals, day, groupId, t, open, mealSlot, c);
      if isCovered {
        covered := covered + {c.userId};
      }
    }
    assert candidates[..|candidates|] == candidates;
  }

  /**
   * Row by row: with no request the flag decides; one more request decides nothing when it is not approved,
   * deleted, for other days, another group or another member; any other beats the flag, and the candidate is
   * covered when it covers the meal or an earlier one did.
   */
  lemma OneMoreRequest(rows: seq<VacationRow>, x: VacationRow, meals: seq<SlotMeal>,
                       day: map<string, PublishedDay.DayEntry>, groupId: string, t: int, open: Option<int>,
                       mealSlot: Option<string>, c: Candidate)
    ensures CoveredBySpec([], meals, day, groupId, t, open, mealSlot, c) == c.isVacationMode
    ensures CoveredBySpec(rows + [x], meals, day, groupId, t, open, mealSlot, c)
         <==> if !x.approved || x.deleted || t < x.req.startDate || x.req.endDate < t
                 || x.req.groupId !in {None, Some(""), Some(groupId)} || x.userId != c.userId
              then CoveredBySpec(rows, meals, day, groupId, t, open, mealSlot, c)
              else || RequestCoversMeal(x.req, t, open, (k: string) => SlotClock(meals, day, k), mealSlot)
                   || CoveredBySpec(rows, meals, day, groupId, t, open, mealSlot, c.(isVacationMode := false))
  {
    var all := rows + [x];
    assert forall r :: r in all <==> r in rows || r == x;
    assert Governs(x, t) && ForGroup(x, groupId)
        <==> !(!x.approved || x.deleted || t < x.req.startDate || x.req.endDate < t
               || x.req.groupId !in {None, Some(""), Some(groupId)});
  }

  /** Requests scoped to another group decide nothing here. */
  lemma OtherGroupsDoNotSpill(rows: seq<VacationRow>, rows': seq<VacationRow>, g: string, h: string,
                              meals: seq<SlotMeal>, day: map<string, PublishedDay.DayEntry>,
                              t: int, open: Option<int>, mealSlot: Option<string>, c: Candidate)
    requires g != "" && h != g
    requires forall r: VacationRow :: r.req.groupId != Some(g) ==> (r in rows <==> r in rows')
    ensures CoveredBySpec(rows, meals, day, h, t, open, mealSlot, c)
       <==> CoveredBySpec(rows', meals, day, h, t, open, mealSlot, c)
  {
    forall r: VacationRow | ForGroup(r, h) ensures r in rows <==> r in rows' {
      assert r.req.groupId != Some(g);
    }
  }
}
