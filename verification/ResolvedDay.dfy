/**
 * What a published day shows, said in terms of the stored rows alone: the exact day if the date's own week
 * has it, else the weekday of the latest published week, else the day carried forward.
 */
module ResolvedDay {
  import opened Prelude
  import opened PublishedDay

  // ----- reading stored rows -----

  /** The rows a published week shows: its frozen ones, or the live ones when nothing was ever frozen. */
  function Shown(row: Schedule): seq<Raw> {
    match row.snapshot
    case None => row.entries
    case Some(frozen) => if frozen == [] then row.entries else frozen
  }

  predicate Dated(r: Raw, ms: int) {
    r.date == DateObject(ms) || r.date == IsoText(ms)
  }

  function DatedOn(ms: int): Raw -> bool {
    (r: Raw) => Dated(r, ms)
  }

  function OfWeekday(dow: int): Raw -> bool {
    (r: Raw) => r.dayOfWeek == Some(dow)
  }

  /** The reader's entry shows the stored row, field by field; absent lists are empty. */
  predicate Shows(d: DayEntry, r: Raw) {
    && d.mealId == r.mealId && d.openTime == r.openTime && d.closeTime == r.closeTime
    && d.mealName == r.mealName && d.description == r.description && d.imageUrl == r.imageUrl
    && d.price == r.price && d.preferencesEnabled == r.preferencesEnabled && d.preference == r.preference
    && (d.configurationFrozen <==> r.configurationFrozen == Some(true) && r.preference != None)
    && (d.plannerMode == Some(Weekly) <==> r.plannerMode == Some("WEEKLY"))
    && (d.plannerMode == Some(DayWise) <==> r.plannerMode == Some("DAY_WISE"))
    && ListShown(d.enabledPreferences, r.enabledPreferences)
    && ListShown(d.enabledPreferenceGroupIds, r.enabledPreferenceGroupIds)
    && ListShown(d.menuItems, r.menuItems)
    && (d.meal == None <==> r.meal == None)
    && (d.meal.Some? && r.meal.Some? ==> MealShown(d.meal.value, r.meal.value))
  }

  predicate ListShown(shown: seq<string>, stored: Option<seq<string>>) {
    stored == Some(shown) || (stored == None && shown == [])
  }

  predicate MealShown(m: Meal, r: RawMeal) {
    && m.slotKey == r.slotKey && m.name == r.name && m.displayName == r.displayName
    && m.imageUrl == r.imageUrl && m.description == r.description && m.price == r.price
    && m.windowOpen == r.windowOpen && m.windowClose == r.windowClose
    && (r.order == Some(m.order) || (r.order == None && m.order == 0))
    && ListShown(m.menuItems, r.menuItems)
  }

  predicate KnownMode(r: Raw) {
    r.plannerMode == Some("WEEKLY") || r.plannerMode == Some("DAY_WISE")
  }

  /** Row `k` is the last one picked for its meal, so the one a reader's map keeps. */
  predicate LastPick(raws: seq<Raw>, picks: Raw -> bool, k: nat) {
    && k < |raws| && picks(raws[k])
    && forall j :: k < j < |raws| && picks(raws[j]) ==> raws[j].mealId != raws[k].mealId
  }

  /** Row `k` is the first picked row that records a mode. */
  predicate FirstKnown(raws: seq<Raw>, picks: Raw -> bool, k: nat) {
    && k < |raws| && picks(raws[k]) && KnownMode(raws[k])
    && forall j :: 0 <= j < k && picks(raws[j]) ==> !KnownMode(raws[j])
  }

  predicate NoneKnown(raws: seq<Raw>, picks: Raw -> bool) {
    forall r :: r in raws && picks(r) ==> !KnownMode(r)
  }

  predicate ShowsLast(day: map<string, DayEntry>, raws: seq<Raw>, picks: Raw -> bool, m: string, k: nat) {
    m in day && LastPick(raws, picks, k) && raws[k].mealId == m && Shows(day[m], raws[k])
  }

  /** The day holds the meals of the picked rows and no others, each as its last picked row stores it. */
  ghost predicate DayIs(day: map<string, DayEntry>, raws: seq<Raw>, picks: Raw -> bool) {
    && (forall r :: r in raws && picks(r) ==> r.mealId in day)
    && (forall m :: m in day ==> exists k :: ShowsLast(day, raws, picks, m, k))
  }

  // ----- the two rows the resolver finds -----

  /** The week's own published row is the one found, when no other published row is of that week. */
  lemma {:induction false} WeekRowIs(rows: seq<Schedule>, i: nat)
    requires i < |rows| && rows[i].published
    requires forall j :: 0 <= j < |rows| && rows[j].published && j != i ==> rows[j].weekStart != rows[i].weekStart
    ensures WeekRow(rows, rows[i].weekStart) == Some(rows[i])
  {
    if i > 0 {
      assert rows[0].published ==> rows[0].weekStart != rows[i].weekStart;
      assert forall j :: 0 <= j < |rows[1..]| ==> rows[1..][j] == rows[j + 1];
      WeekRowIs(rows[1..], i - 1);
    }
  }

  lemma {:induction false} NoWeekRow(rows: seq<Schedule>, weekStart: int)
    requires forall r :: r in rows && r.published ==> r.weekStart != weekStart
    ensures WeekRow(rows, weekStart) == None
  {
    if rows != [] { NoWeekRow(rows[1..], weekStart); }
  }

  lemma {:induction false} LatestRowIs(rows: seq<Schedule>, i: nat)
    requires i < |rows| && rows[i].published
    requires forall j :: 0 <= j < |rows| && rows[j].published && j != i ==> rows[j].weekStart < rows[i].weekStart
    ensures LatestRow(rows) == Some(rows[i])
  {
    assert forall j :: 0 <= j < |rows[1..]| ==> rows[1..][j] == rows[j + 1];
    if i > 0 {
      LatestRowIs(rows[1..], i - 1);
    } else {
      LatestIsPublished(rows[1..]);
    }
  }

  lemma {:induction false} LatestIsPublished(rows: seq<Schedule>)
    ensures LatestRow(rows).Some? ==>
              exists j :: 0 <= j < |rows| && rows[j].published && LatestRow(rows) == Some(rows[j])
    ensures LatestRow(rows).None? ==> forall r :: r in rows ==> !r.published
  {
    if rows != [] {
      LatestIsPublished(rows[1..]);
      assert forall j :: 0 <= j < |rows[1..]| ==> rows[1..][j] == rows[j + 1];
    }
  }

  // ----- a day of picked rows -----

  lemma NormalizedNext(raws: seq<Raw>, r: Raw)
    ensures Normalized(raws + [r]) == Normalized(raws) + [NormalizeEntry(r)]
  {
  }

  lemma KeptLast(rest: seq<Raw>, r: Raw, p: Entry -> bool)
    ensures ByMeal(Keep(Normalized(rest + [r]), p))
         == var day := ByMeal(Keep(Normalized(rest), p));
            if p(NormalizeEntry(r)) then day[r.mealId := NormalizeEntry(r).day] else day
  {
    var kept, e := Keep(Normalized(rest), p), NormalizeEntry(r);
    NormalizedNext(rest, r);
    KeepConcat(Normalized(rest), [e], p);
    if p(e) {
      KeepOne(e, p);
      assert (kept + [e])[..|kept|] == kept;
    } else {
      assert Keep([e], p) == [];
      assert kept + [] == kept;
    }
  }

  function KeptDay(raws: seq<Raw>, p: Entry -> bool): map<string, DayEntry> {
    ByMeal(Keep(Normalized(raws), p))
  }

  lemma KeptDayNext(rest: seq<Raw>, r: Raw, p: Entry -> bool, picks: Raw -> bool)
    requires DayIs(KeptDay(rest, p), rest, picks) && (p(NormalizeEntry(r)) <==> picks(r))
    ensures DayIs(KeptDay(rest + [r], p), rest + [r], picks)
  {
    KeptLast(rest, r, p);
    DayNext(KeptDay(rest, p), rest, r, picks);
  }

  /** The map of the kept entries is the day of the picked rows. */
  lemma {:induction false} KeptDayIs(raws: seq<Raw>, p: Entry -> bool, picks: Raw -> bool)
    requires forall r :: p(NormalizeEntry(r)) <==> picks(r)
    ensures DayIs(KeptDay(raws, p), raws, picks)
  {
    if raws != [] {
      var n := |raws| - 1;
      KeptDayIs(raws[..n], p, picks);
      KeptDayNext(raws[..n], raws[n], p, picks);
      assert raws == raws[..n] + [raws[n]];
    }
  }

  lemma StaysLast(day: map<string, DayEntry>, day': map<string, DayEntry>, rest: seq<Raw>, r: Raw, picks: Raw -> bool,
                  m: string, k: nat)
    requires ShowsLast(day, rest, picks, m, k) && (picks(r) ==> r.mealId != m) && m in day' && day'[m] == day[m]
    ensures ShowsLast(day', rest + [r], picks, m, k)
  {
    var raws := rest + [r];
    assert raws[|rest|] == r && forall j :: 0 <= j < |rest| ==> raws[j] == rest[j];
  }

  /** One more row: a picked one replaces its meal's entry. */
  lemma DayNext(day: map<string, DayEntry>, rest: seq<Raw>, r: Raw, picks: Raw -> bool)
    requires DayIs(day, rest, picks)
    ensures DayIs(if picks(r) then day[r.mealId := NormalizeEntry(r).day] else day, rest + [r], picks)
  {
    var raws := rest + [r];
    var day' := if picks(r) then day[r.mealId := NormalizeEntry(r).day] else day;
    assert raws[|rest|] == r;
    NormalizedShows(r);
    forall m | m in day' ensures exists k :: ShowsLast(day', raws, picks, m, k) {
      if picks(r) && m == r.mealId {
        assert ShowsLast(day', raws, picks, m, |rest|);
      } else {
        var k :| ShowsLast(day, rest, picks, m, k);
        StaysLast(day, day', rest, r, picks, m, k);
      }
    }
  }

  lemma NormalizedShows(r: Raw)
    ensures Shows(NormalizeEntry(r).day, r)
  {
  }

  lemma KeptFirst(raws: seq<Raw>, p: Entry -> bool)
    requires raws != []
    ensures Keep(Normalized(raws), p)
         == (if p(NormalizeEntry(raws[0])) then [NormalizeEntry(raws[0])] else []) + Keep(Normalized(raws[1..]), p)
  {
    assert Normalized(raws)[1..] == Normalized(raws[1..]);
  }

  lemma FirstKnownNext(raws: seq<Raw>, picks: Raw -> bool, k: nat)
    requires FirstKnown(raws, picks, k) && k > 0
    ensures FirstKnown(raws[1..], picks, k - 1)
  {
    assert raws[1..][k - 1] == raws[k];
    forall j | 0 <= j < k - 1 && picks(raws[1..][j]) ensures !KnownMode(raws[1..][j]) {
      assert raws[1..][j] == raws[j + 1];
    }
  }

  lemma {:induction false} KeptMode(raws: seq<Raw>, p: Entry -> bool, picks: Raw -> bool, k: nat)
    requires forall r :: p(NormalizeEntry(r)) <==> picks(r)
    requires FirstKnown(raws, picks, k)
    ensures FirstMode(Keep(Normalized(raws), p))
         == if raws[k].plannerMode == Some("DAY_WISE") then Some(DayWise) else Some(Weekly)
  {
    var e, rest := NormalizeEntry(raws[0]), Keep(Normalized(raws[1..]), p);
    KeptFirst(raws, p);
    if k == 0 {
      FirstModeConcat([e], rest);
    } else {
      FirstKnownNext(raws, picks, k);
      KeptMode(raws[1..], p, picks, k - 1);
      if picks(raws[0]) {
        assert !KnownMode(raws[0]);
        NoMode([e]);
        FirstModeConcat([e], rest);
      } else {
        assert [] + rest == rest;
      }
    }
  }

  lemma NoKeptMode(raws: seq<Raw>, p: Entry -> bool, picks: Raw -> bool)
    requires forall r :: p(NormalizeEntry(r)) <==> picks(r)
    requires NoneKnown(raws, picks)
    ensures FirstMode(Keep(Normalized(raws), p)) == None
  {
    NoMode(Keep(Normalized(raws), p));
  }

  lemma {:induction false} NothingKept(raws: seq<Raw>, p: Entry -> bool)
    requires forall r :: r in raws ==> !p(NormalizeEntry(r))
    ensures Keep(Normalized(raws), p) == []
  {
    if raws != [] {
      KeptFirst(raws, p);
      assert !p(NormalizeEntry(raws[0]));
      NothingKept(raws[1..], p);
    }
  }

  lemma SomethingKept(raws: seq<Raw>, p: Entry -> bool, r: Raw)
    requires r in raws && p(NormalizeEntry(r))
    ensures Keep(Normalized(raws), p) != []
  {
    var k :| 0 <= k < |raws| && raws[k] == r;
    assert Normalized(raws)[k] in Keep(Normalized(raws), p);
  }

  // ----- the date -----

  /** Monday 5 January 1970 is weekday 0, and the next day is the next weekday. */
  lemma MondayIsZero(dateMs: int)
    ensures Weekday(4 * 86400000) == 0
    ensures Weekday(dateMs + 86400000) == (Weekday(dateMs) + 1) % 7 && 0 <= Weekday(dateMs) <= 6
  {
  }

  /** The Monday of the date's week: a Monday midnight at most six days before it. */
  predicate MondayOf(monday: int, dateMs: int) {
    monday % (7 * 86400000) == 4 * 86400000 && monday <= dateMs < monday + 7 * 86400000
  }

  lemma WeekStartIsMonday(monday: int, dateMs: int)
    requires dateMs % 86400000 == 0 && MondayOf(monday, dateMs)
    ensures dateMs - Weekday(dateMs) * DAY_MS == monday
    ensures Weekday(dateMs) == (dateMs - monday) / 86400000
  {
    var n := dateMs / 86400000;
    var w := monday / (7 * 86400000);
    assert dateMs == 86400000 * n && monday == 86400000 * (7 * w + 4);
    assert 7 * w + 4 <= n < 7 * w + 11;
    assert (n + 3) % 7 == n - (7 * w + 4);
  }

  // ----- what a date resolves to -----

  /** The rows the date's own week shows, if that week is published. */
  ghost predicate OwnWeek(rows: seq<Schedule>, monday: int, own: seq<Raw>) {
    || (own == [] && forall r :: r in rows && r.published ==> r.weekStart != monday)
    || exists i :: IsOnlyWeek(rows, monday, own, i)
  }

  predicate IsOnlyWeek(rows: seq<Schedule>, monday: int, own: seq<Raw>, i: nat) {
    && i < |rows| && rows[i].published && rows[i].weekStart == monday && own == Shown(rows[i])
    && forall j :: 0 <= j < |rows| && rows[j].published && j != i ==> rows[j].weekStart != monday
  }

  /** The rows the latest published week shows, if any week is published. */
  ghost predicate LatestShown(rows: seq<Schedule>, latest: seq<Raw>) {
    || (latest == [] && forall r :: r in rows ==> !r.published)
    || exists i :: IsLatest(rows, latest, i)
  }

  predicate IsLatest(rows: seq<Schedule>, latest: seq<Raw>, i: nat) {
    && i < |rows| && rows[i].published && latest == Shown(rows[i])
    && forall j :: 0 <= j < |rows| && rows[j].published && j != i ==> rows[j].weekStart < rows[i].weekStart
  }

  lemma OwnWeekFound(rows: seq<Schedule>, monday: int, own: seq<Raw>, dateMs: int)
    requires dateMs % 86400000 == 0 && MondayOf(monday, dateMs) && OwnWeek(rows, monday, own)
    ensures ThisWeek(rows, dateMs) == Normalized(own)
  {
    WeekStartIsMonday(monday, dateMs);
    if i :| IsOnlyWeek(rows, monday, own, i) {
      WeekRowIs(rows, i);
    } else {
      NoWeekRow(rows, monday);
    }
  }

  lemma LatestFound(rows: seq<Schedule>, latest: seq<Raw>)
    requires LatestShown(rows, latest)
    ensures LatestWeek(rows) == Normalized(latest)
  {
    if i :| IsLatest(rows, latest, i) {
      LatestRowIs(rows, i);
    } else {
      LatestIsPublished(rows);
    }
  }

  /** A date its own published week has rows for shows exactly those rows. */
  lemma ExactDayWins(rows: seq<Schedule>, monday: int, own: seq<Raw>, dateMs: int, dayWise: bool)
    requires dateMs % 86400000 == 0 && MondayOf(monday, dateMs) && OwnWeek(rows, monday, own)
    requires exists r :: r in own && Dated(r, dateMs)
    ensures DayIs(Resolve(rows, dateMs, dayWise), own, DatedOn(dateMs))
  {
    OwnWeekFound(rows, monday, own, dateMs);
    var p := (e: Entry) => e.dateMs == Some(dateMs);
    var r :| r in own && Dated(r, dateMs);
    SomethingKept(own, p, r);
    KeptDayIs(own, p, DatedOn(dateMs));
    assert OnDate(Normalized(own), dateMs) == Keep(Normalized(own), p);
  }

  lemma NoExactDay(rows: seq<Schedule>, monday: int, own: seq<Raw>, dateMs: int)
    requires dateMs % 86400000 == 0 && MondayOf(monday, dateMs) && OwnWeek(rows, monday, own)
    requires forall r :: r in own ==> !Dated(r, dateMs)
    ensures OnDate(ThisWeek(rows, dateMs), dateMs) == []
  {
    OwnWeekFound(rows, monday, own, dateMs);
    NothingKept(own, (e: Entry) => e.dateMs == Some(dateMs));
  }

  /**
   * Otherwise a date shows exactly the rows of its weekday in the latest published week. Weekday 0 is the
   * Monday, so the weekday is the days since it.
   */
  lemma LatestWeekRecurs(rows: seq<Schedule>, monday: int, own: seq<Raw>, latest: seq<Raw>, dateMs: int, dayWise: bool)
    requires dateMs % 86400000 == 0 && MondayOf(monday, dateMs) && OwnWeek(rows, monday, own)
    requires LatestShown(rows, latest)
    requires forall r :: r in own ==> !Dated(r, dateMs)
    requires exists r :: r in latest && r.dayOfWeek == Some((dateMs - monday) / 86400000)
    ensures DayIs(Resolve(rows, dateMs, dayWise), latest,
                  OfWeekday((dateMs - monday) / 86400000))
  {
    NoExactDay(rows, monday, own, dateMs);
    LatestFound(rows, latest);
    WeekStartIsMonday(monday, dateMs);
    var dow := Weekday(dateMs);
    var p := (e: Entry) => e.dayOfWeek == dow;
    var r :| r in latest && r.dayOfWeek == Some(dow);
    SomethingKept(latest, p, r);
    KeptDayIs(latest, p, OfWeekday((dateMs - monday) / 86400000));
    assert OnWeekday(Normalized(latest), dow) == Keep(Normalized(latest), p);
  }

  lemma NoRecurringDay(rows: seq<Schedule>, latest: seq<Raw>, monday: int, dateMs: int)
    requires dateMs % 86400000 == 0 && MondayOf(monday, dateMs) && LatestShown(rows, latest)
    requires forall r :: r in latest ==> r.dayOfWeek != Some((dateMs - monday) / 86400000)
    ensures OnWeekday(LatestWeek(rows), Weekday(dateMs)) == []
  {
    LatestFound(rows, latest);
    WeekStartIsMonday(monday, dateMs);
    var dow := Weekday(dateMs);
    NothingKept(latest, (e: Entry) => e.dayOfWeek == dow);
  }

  /** `ms` is the latest day before the date on which a row is dated. */
  ghost predicate LatestDayBefore(raws: seq<Raw>, dateMs: int, ms: int) {
    && ms < dateMs
    && (exists r :: r in raws && Dated(r, ms))
    && (forall r, x :: r in raws && Dated(r, x) && x < dateMs ==> x <= ms)
  }

  lemma NormalizedJoin(a: seq<Raw>, b: seq<Raw>)
    ensures Normalized(a) + Normalized(b) == Normalized(a + b)
  {
  }

  lemma BaselineIs(raws: seq<Raw>, dateMs: int, ms: int)
    requires LatestDayBefore(raws, dateMs, ms)
    ensures Baseline(Normalized(raws), dateMs) == Some(ms)
  {
    var es := Normalized(raws);
    var r :| r in raws && Dated(r, ms);
    var k :| 0 <= k < |raws| && raws[k] == r;
    assert es[k] in es && es[k].dateMs == Some(ms);
    forall e | e in es && DatedBefore(e, dateMs) ensures e.dateMs.value <= ms {
      var j :| 0 <= j < |es| && es[j] == e;
      assert raws[j] in raws && Dated(raws[j], e.dateMs.value);
    }
    assert IsBaseline(es, dateMs, Some(ms));
    BaselineUnique(es, es, dateMs, Some(ms), Baseline(es, dateMs));
  }

  lemma NoBaseline(raws: seq<Raw>, dateMs: int)
    requires forall r, x :: r in raws && Dated(r, x) ==> x >= dateMs
    ensures Baseline(Normalized(raws), dateMs) == None
  {
    var es := Normalized(raws);
    forall e | e in es ensures !DatedBefore(e, dateMs) {
      var j :| 0 <= j < |es| && es[j] == e;
      if DatedBefore(e, dateMs) { assert raws[j] in raws && Dated(raws[j], e.dateMs.value); }
    }
  }

  /**
   * A date with neither shows the rows of the latest earlier day that its own week or the latest published
   * week has, if the schedule is day-wise: by the first mode those rows record, else by the group's flag.
   */
  lemma CarriedDayShows(rows: seq<Schedule>, monday: int, own: seq<Raw>, latest: seq<Raw>, dateMs: int, dayWise: bool,
                        ms: int, k: nat)
    requires dateMs % 86400000 == 0 && MondayOf(monday, dateMs) && OwnWeek(rows, monday, own)
    requires LatestShown(rows, latest)
    requires forall r :: r in own ==> !Dated(r, dateMs)
    requires forall r :: r in latest ==> r.dayOfWeek != Some((dateMs - monday) / 86400000)
    requires LatestDayBefore(own + latest, dateMs, ms)
    requires FirstKnown(own + latest, DatedOn(ms), k) || (k == |own + latest| && NoneKnown(own + latest, DatedOn(ms)))
    ensures var day := Resolve(rows, dateMs, dayWise);
            if (if k < |own + latest| then (own + latest)[k].plannerMode == Some("DAY_WISE") else dayWise)
            then DayIs(day, own + latest, DatedOn(ms)) && day != map[] else day == map[]
  {
    NoExactDay(rows, monday, own, dateMs);
    NoRecurringDay(rows, latest, monday, dateMs);
    OwnWeekFound(rows, monday, own, dateMs);
    LatestFound(rows, latest);
    NormalizedJoin(own, latest);
    var p := (e: Entry) => e.dateMs == Some(ms);
    CarriedKept(own + latest, dateMs, ms, p);
    CarriedMode(own + latest, p, ms, k);
    ByMealNotEmpty(Carried(rows, dateMs));
  }

  lemma CarriedKept(raws: seq<Raw>, dateMs: int, ms: int, p: Entry -> bool)
    requires LatestDayBefore(raws, dateMs, ms)
    requires forall e :: p(e) <==> e.dateMs == Some(ms)
    ensures CarryForward(Normalized(raws), dateMs) == Keep(Normalized(raws), p) != []
    ensures DayIs(ByMeal(Keep(Normalized(raws), p)), raws, DatedOn(ms))
  {
    var es := Normalized(raws);
    BaselineIs(raws, dateMs, ms);
    KeepSame(es, p, (e: Entry) => e.dateMs == Baseline(es, dateMs));
    var r :| r in raws && Dated(r, ms);
    SomethingKept(raws, p, r);
    KeptDayIs(raws, p, DatedOn(ms));
  }

  lemma {:induction false} KeepSame(es: seq<Entry>, p: Entry -> bool, q: Entry -> bool)
    requires forall e :: e in es ==> (p(e) <==> q(e))
    ensures Keep(es, p) == Keep(es, q)
  {
    if es != [] { KeepSame(es[1..], p, q); }
  }

  lemma CarriedMode(raws: seq<Raw>, p: Entry -> bool, ms: int, k: nat)
    requires forall e :: p(e) <==> e.dateMs == Some(ms)
    requires FirstKnown(raws, DatedOn(ms), k) || (k == |raws| && NoneKnown(raws, DatedOn(ms)))
    ensures FirstMode(Keep(Normalized(raws), p)) == if k == |raws| then None
            else if raws[k].plannerMode == Some("DAY_WISE") then Some(DayWise) else Some(Weekly)
  {
    if k == |raws| { NoKeptMode(raws, p, DatedOn(ms)); } else { KeptMode(raws, p, DatedOn(ms), k); }
  }

  lemma ByMealNotEmpty(es: seq<Entry>)
    requires es != []
    ensures ByMeal(es) != map[]
  {
    ByMealNonempty(es);
  }

  /** With nothing on the date, nothing on its weekday and no earlier day, nothing is shown. */
  lemma EmptyDayShowsNothing(rows: seq<Schedule>, monday: int, own: seq<Raw>, latest: seq<Raw>, dateMs: int,
                             dayWise: bool)
    requires dateMs % 86400000 == 0 && MondayOf(monday, dateMs) && OwnWeek(rows, monday, own)
    requires LatestShown(rows, latest)
    requires forall r :: r in latest ==> r.dayOfWeek != Some((dateMs - monday) / 86400000)
    requires forall r, x :: r in own + latest && Dated(r, x) ==> x > dateMs
    ensures Resolve(rows, dateMs, dayWise) == map[]
  {
    NoExactDay(rows, monday, own, dateMs);
    NoRecurringDay(rows, latest, monday, dateMs);
    OwnWeekFound(rows, monday, own, dateMs);
    LatestFound(rows, latest);
    NormalizedJoin(own, latest);
    NoBaseline(own + latest, dateMs);
  }
}
