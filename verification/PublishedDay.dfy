/**
 * What the published schedule says about a date, and why drafts cannot change it.
 * Instants are milliseconds; a JSON value may be a date object or its ISO text.
 */
module PublishedDay {
  import opened Prelude

  const DAY_MS := 86400000

  datatype RawMeal = RawMeal(
    slotKey: string, name: string, displayName: Option<string>, order: Option<int>, menuItems: Option<seq<string>>,
    imageUrl: Option<string>, description: Option<string>, price: Option<int>,
    windowOpen: Option<string>, windowClose: Option<string>)

  datatype RawDate = NoDate | DateObject(ms: int) | IsoText(ms: int) | Unreadable

  datatype Preference = Preference(enabled: bool, standalone: bool, tags: seq<string>)

  /** An entry as stored: a live row, or an element of the frozen JSON. */
  datatype Raw = Raw(
    mealId: string, dayOfWeek: Option<int>, date: RawDate,
    openTime: Option<string>, closeTime: Option<string>, mealName: Option<string>,
    description: Option<string>, imageUrl: Option<string>, preferencesEnabled: Option<bool>,
    enabledPreferences: Option<seq<string>>, enabledPreferenceGroupIds: Option<seq<string>>,
    menuItems: Option<seq<string>>, price: Option<int>, meal: Option<RawMeal>,
    configurationFrozen: Option<bool>, preference: Option<Preference>, plannerMode: Option<string>)

  datatype Meal = Meal(
    slotKey: string, name: string, displayName: Option<string>, order: int, menuItems: seq<string>,
    imageUrl: Option<string>, description: Option<string>, price: Option<int>,
    windowOpen: Option<string>, windowClose: Option<string>)

  datatype Mode = Weekly | DayWise

  /** What every consumer of a published day receives. */
  datatype DayEntry = DayEntry(
    mealId: string, openTime: Option<string>, closeTime: Option<string>, mealName: Option<string>,
    description: Option<string>, imageUrl: Option<string>, preferencesEnabled: Option<bool>,
    enabledPreferences: seq<string>, enabledPreferenceGroupIds: seq<string>, menuItems: seq<string>,
    price: Option<int>, meal: Option<Meal>, configurationFrozen: bool, preference: Option<Preference>,
    plannerMode: Option<Mode>)

  datatype Entry = Entry(day: DayEntry, dayOfWeek: int, dateMs: Option<int>)

  function NormalizeMeal(m: RawMeal): Meal {
    Meal(m.slotKey, m.name, m.displayName, m.order.GetOr(0), m.menuItems.GetOr([]), m.imageUrl, m.description,
         m.price, m.windowOpen, m.windowClose)
  }

  function NormalizeEntry(r: Raw): Entry {
    Entry(
      DayEntry(
        r.mealId, r.openTime, r.closeTime, r.mealName, r.description, r.imageUrl, r.preferencesEnabled,
        r.enabledPreferences.GetOr([]), r.enabledPreferenceGroupIds.GetOr([]), r.menuItems.GetOr([]), r.price,
        if r.meal.Some? then Some(NormalizeMeal(r.meal.value)) else None,
        r.configurationFrozen == Some(true) && r.preference.Some?,
        r.preference,
        if r.plannerMode == Some("WEEKLY") then Some(Weekly)
        else if r.plannerMode == Some("DAY_WISE") then Some(DayWise) else None),
      r.dayOfWeek.GetOr(-1),
      if r.date.DateObject? || r.date.IsoText? then Some(r.date.ms) else None)
  }

  /** The frozen form of a live row. It carries no configuration block: live rows have none. */
  function ToSnapshotEntry(e: Raw): Raw {
    e.(date := if e.date.DateObject? then IsoText(e.date.ms) else e.date,
       enabledPreferences := Some(e.enabledPreferences.GetOr([])),
       enabledPreferenceGroupIds := Some(e.enabledPreferenceGroupIds.GetOr([])),
       menuItems := Some(e.menuItems.GetOr([])),
       meal := if e.meal.Some?
               then Some(e.meal.value.(order := Some(e.meal.value.order.GetOr(0)),
                                       menuItems := Some(e.meal.value.menuItems.GetOr([]))))
               else None,
       configurationFrozen := None, preference := None, plannerMode := None)
  }

  /** A database row has no frozen configuration and no recorded planner mode. */
  predicate LiveRow(e: Raw) {
    e.configurationFrozen.None? && e.preference.None? && e.plannerMode.None?
  }

  /** Freezing loses nothing a reader can see, exactly for entries without a frozen configuration or known mode. */
  lemma NormalizeAfterFreeze(e: Raw)
    ensures NormalizeEntry(ToSnapshotEntry(e)) == NormalizeEntry(e)
       <==> e.preference.None? && e.plannerMode != Some("WEEKLY") && e.plannerMode != Some("DAY_WISE")
  {
  }

  /** What is frozen is plain JSON: no date object, no absent list, no configuration of its own. */
  lemma FrozenIsPlain(e: Raw)
    ensures var f := ToSnapshotEntry(e);
            && !f.date.DateObject? && LiveRow(f)
            && f.enabledPreferences.Some? && f.enabledPreferenceGroupIds.Some? && f.menuItems.Some?
            && (f.meal.Some? <==> e.meal.Some?)
            && (f.meal.Some? ==> f.meal.value.order.Some? && f.meal.value.menuItems.Some?)
  {
  }

  // ----- the schedule table of one group -----

  datatype Schedule = Schedule(weekStart: int, published: bool, snapshot: Option<seq<Raw>>, entries: seq<Raw>)

  function Normalized(raws: seq<Raw>): (es: seq<Entry>)
    ensures |es| == |raws| && forall i :: 0 <= i < |raws| ==> es[i] == NormalizeEntry(raws[i])
  {
    seq(|raws|, i requires 0 <= i < |raws| => NormalizeEntry(raws[i]))
  }

  predicate HasSnapshot(row: Schedule) {
    row.snapshot.Some? && |row.snapshot.value| > 0
  }

  /** Frozen entries first, live rows when nothing was ever frozen. */
  function PublishedEntriesOf(row: Option<Schedule>): seq<Entry> {
    if row.None? then []
    else if HasSnapshot(row.value) then Normalized(row.value.snapshot.value)
    else Normalized(row.value.entries)
  }

  function WeekRow(rows: seq<Schedule>, weekStart: int): Option<Schedule> {
    if rows == [] then None
    else if rows[0].published && rows[0].weekStart == weekStart then Some(rows[0])
    else WeekRow(rows[1..], weekStart)
  }

  /** The published row with the greatest week start. */
  function LatestRow(rows: seq<Schedule>): Option<Schedule> {
    if rows == [] then None else
      var rest := LatestRow(rows[1..]);
      if rows[0].published && (rest.None? || rest.value.weekStart <= rows[0].weekStart) then Some(rows[0]) else rest
  }

  function Keep(es: seq<Entry>, p: Entry -> bool): (r: seq<Entry>)
    ensures forall e :: e in r <==> e in es && p(e)
  {
    if es == [] then [] else (if p(es[0]) then [es[0]] else []) + Keep(es[1..], p)
  }

  // ----- carry-forward -----

  predicate DatedBefore(e: Entry, beforeMs: int) {
    e.dateMs.Some? && e.dateMs.value < beforeMs
  }

  predicate IsBaseline(es: seq<Entry>, beforeMs: int, b: Option<int>) {
    if b.None? then forall e :: e in es ==> !DatedBefore(e, beforeMs)
    else
      && (exists e :: e in es && DatedBefore(e, beforeMs) && e.dateMs == b)
      && (forall e :: e in es && DatedBefore(e, beforeMs) ==> e.dateMs.value <= b.value)
  }

  function Baseline(es: seq<Entry>, beforeMs: int): (b: Option<int>)
    ensures IsBaseline(es, beforeMs, b)
  {
    if es == [] then None else
      var rest := Baseline(es[1..], beforeMs);
      assert es == [es[0]] + es[1..];
      if DatedBefore(es[0], beforeMs) && (rest.None? || es[0].dateMs.value > rest.value) then es[0].dateMs else rest
  }

  lemma BaselineUnique(es: seq<Entry>, fs: seq<Entry>, beforeMs: int, b: Option<int>, c: Option<int>)
    requires forall e :: e in es <==> e in fs
    requires IsBaseline(es, beforeMs, b) && IsBaseline(fs, beforeMs, c)
    ensures b == c
  {
  }

  /** Every entry of the latest published day strictly before the date. */
  function CarryForward(es: seq<Entry>, beforeMs: int): seq<Entry> {
    var b := Baseline(es, beforeMs);
    if b.None? then [] else Keep(es, (e: Entry) => e.dateMs == b)
  }

  method CarryForwardEntries(candidates: seq<Entry>, beforeMs: int) returns (carried: seq<Entry>)
    ensures carried == CarryForward(candidates, beforeMs)
  {
    var baselineMs: Option<int> := None;
    for i := 0 to |candidates|
      invariant IsBaseline(candidates[..i], beforeMs, baselineMs)
    {
      var e := candidates[i];
      assert candidates[..i + 1] == candidates[..i] + [e];
      if DatedBefore(e, beforeMs) && (baselineMs.None? || e.dateMs.value > baselineMs.value) {
        baselineMs := e.dateMs;
      }
    }
    assert candidates[..|candidates|] == candidates;
    BaselineUnique(candidates, candidates, beforeMs, baselineMs, Baseline(candidates, beforeMs));
    if baselineMs.None? {
      return [];
    }
    var b := baselineMs;
    return Keep(candidates, (e: Entry) => e.dateMs == b);
  }

  // ----- the resolver -----

  function FirstMode(es: seq<Entry>): Option<Mode> {
    if es == [] then None else if es[0].day.plannerMode.Some? then es[0].day.plannerMode else FirstMode(es[1..])
  }

  /** The reader's map; a later entry for the same meal replaces an earlier one. */
  function ByMeal(es: seq<Entry>): map<string, DayEntry> {
    if es == [] then map[] else
      ByMeal(es[..|es| - 1])[es[|es| - 1].day.mealId := es[|es| - 1].day]
  }

  /** Monday is 0; 1 January 1970 was a Thursday. */
  function Weekday(dateMs: int): int {
    (dateMs / DAY_MS + 3) % 7
  }

  function OnDate(es: seq<Entry>, dateMs: int): seq<Entry> {
    Keep(es, (e: Entry) => e.dateMs == Some(dateMs))
  }

  function OnWeekday(es: seq<Entry>, dow: int): seq<Entry> {
    Keep(es, (e: Entry) => e.dayOfWeek == dow)
  }

  function ThisWeek(rows: seq<Schedule>, dateMs: int): seq<Entry> {
    PublishedEntriesOf(WeekRow(rows, dateMs - Weekday(dateMs) * DAY_MS))
  }

  function LatestWeek(rows: seq<Schedule>): seq<Entry> {
    PublishedEntriesOf(LatestRow(rows))
  }

  function Carried(rows: seq<Schedule>, dateMs: int): seq<Entry> {
    CarryForward(ThisWeek(rows, dateMs) + LatestWeek(rows), dateMs)
  }

  /** Exact day, then weekday of the latest week, then the carried day of a day-wise schedule. */
  function ResolvedEntries(rows: seq<Schedule>, dateMs: int, dayWise: bool): seq<Entry> {
    var exact := OnDate(ThisWeek(rows, dateMs), dateMs);
    if exact != [] then exact else
      var recurring := OnWeekday(LatestWeek(rows), Weekday(dateMs));
      if recurring != [] then recurring else
        var carried := Carried(rows, dateMs);
        var mode := FirstMode(carried);
        if (if mode.Some? then mode == Some(DayWise) else dayWise) then carried else []
  }

  function Resolve(rows: seq<Schedule>, dateMs: int, dayWise: bool): map<string, DayEntry> {
    ByMeal(ResolvedEntries(rows, dateMs, dayWise))
  }

  /**
   * The resolver, step by step; the group row is read only when it can matter. The caller's flag counts, or the
   * group row's when the caller has none.
   */
  method ResolvePublishedDayEntries(rows: seq<Schedule>, dateMs: int, callerFlag: Option<bool>, groupFlag: Option<bool>)
    returns (byMeal: map<string, DayEntry>)
    ensures callerFlag.Some? ==> byMeal == Resolve(rows, dateMs, callerFlag.value)
    ensures callerFlag.None? ==> byMeal == Resolve(rows, dateMs, groupFlag == Some(true))
  {
    var dow := Weekday(dateMs);
    var weekRow := WeekRow(rows, dateMs - dow * DAY_MS);
    var entries := OnDate(PublishedEntriesOf(weekRow), dateMs);
    var latestRow: Option<Schedule> := None;
    if entries == [] {
      latestRow := LatestRow(rows);
      entries := OnWeekday(PublishedEntriesOf(latestRow), dow);
    }
    if entries == [] {
      var carried := CarryForwardEntries(PublishedEntriesOf(weekRow) + PublishedEntriesOf(latestRow), dateMs);
      if carried != [] {
        var publishedMode := FirstMode(carried);
        if publishedMode.Some? {
          if publishedMode == Some(DayWise) { entries := carried; }
        } else {
          var dayWise := callerFlag == Some(true);
          if callerFlag.None? { dayWise := groupFlag == Some(true); }
          if dayWise { entries := carried; }
        }
      }
    }
    ghost var flag := if callerFlag.Some? then callerFlag.value else groupFlag == Some(true);
    assert entries == ResolvedEntries(rows, dateMs, flag);
    byMeal := FillMap(entries);
  }

  method FillMap(entries: seq<Entry>) returns (byMeal: map<string, DayEntry>)
    ensures byMeal == ByMeal(entries)
  {
    byMeal := map[];
    for i := 0 to |entries|
      invariant byMeal == ByMeal(entries[..i])
    {
      assert entries[..i + 1][..i] == entries[..i];
      byMeal := byMeal[entries[i].day.mealId := entries[i].day];
    }
    assert entries[..|entries|] == entries;
  }

  /** The carried day is the latest published day before the date, and all of it. */
  lemma CarriedIsLatestPublishedDay(rows: seq<Schedule>, dateMs: int, e: Entry, f: Entry)
    requires e in Carried(rows, dateMs)
    requires f in ThisWeek(rows, dateMs) + LatestWeek(rows) && DatedBefore(f, dateMs)
    ensures DatedBefore(e, dateMs) && f.dateMs.value <= e.dateMs.value
    ensures f in Carried(rows, dateMs) <==> f.dateMs == e.dateMs
  {
  }

  // ----- the live flag -----

  lemma {:induction false} ByMealNonempty(es: seq<Entry>)
    requires es != []
    ensures es[|es| - 1].day.mealId in ByMeal(es)
  {
  }

  /** Flipping the group's flag changes the day only when both fallbacks fail and the carried day records no mode. */
  lemma FlagMattersIff(rows: seq<Schedule>, dateMs: int)
    ensures Resolve(rows, dateMs, true) != Resolve(rows, dateMs, false)
       <==> && OnDate(ThisWeek(rows, dateMs), dateMs) == []
            && OnWeekday(LatestWeek(rows), Weekday(dateMs)) == []
            && Carried(rows, dateMs) != []
            && FirstMode(Carried(rows, dateMs)).None?
  {
    if Carried(rows, dateMs) != [] {
      ByMealNonempty(Carried(rows, dateMs));
    }
  }

  // ----- the draft wall -----

  predicate SameElements(es: seq<Entry>, fs: seq<Entry>) {
    (forall e :: e in es ==> e in fs) && (forall e :: e in fs ==> e in es)
  }

  /** On one known date, or on one known weekday. */
  predicate SameDay(e: Entry, f: Entry) {
    (e.dateMs.Some? && e.dateMs == f.dateMs) || 0 <= e.dayOfWeek == f.dayOfWeek
  }

  /** One entry per meal and date, and per meal and weekday; no recorded mode. */
  predicate OnePerDay(es: seq<Entry>) {
    && (forall e, f :: e in es && f in es && e.day.mealId == f.day.mealId && SameDay(e, f) ==> e == f)
    && (forall e :: e in es ==> e.day.plannerMode.None?)
  }

  predicate OneEntryPerMeal(es: seq<Entry>) {
    forall e, f :: e in es && f in es && e.day.mealId == f.day.mealId ==> e == f
  }

  lemma {:induction false} ByMealOfUnique(es: seq<Entry>)
    requires OneEntryPerMeal(es)
    ensures forall e :: e in es ==> e.day.mealId in ByMeal(es) && ByMeal(es)[e.day.mealId] == e.day
    ensures forall m :: m in ByMeal(es) ==> exists e :: e in es && e.day.mealId == m
  {
    if es != [] {
      var rest := es[..|es| - 1];
      assert es == rest + [es[|es| - 1]];
      ByMealOfUnique(rest);
    }
  }

  lemma ByMealOfSameElements(es: seq<Entry>, fs: seq<Entry>)
    requires OneEntryPerMeal(es) && SameElements(es, fs)
    ensures ByMeal(es) == ByMeal(fs)
  {
    ByMealOfUnique(es);
    ByMealOfUnique(fs);
  }

  lemma {:induction false} ByMealConcat(es: seq<Entry>, fs: seq<Entry>)
    ensures ByMeal(es + fs) == ByMeal(es) + ByMeal(fs)
  {
    if fs == [] {
      assert es + fs == es;
    } else {
      ByMealConcat(es, fs[..|fs| - 1]);
      assert (es + fs)[..|es + fs| - 1] == es + fs[..|fs| - 1];
    }
  }

  lemma {:induction false} FirstModeConcat(es: seq<Entry>, fs: seq<Entry>)
    ensures FirstMode(es + fs) == if FirstMode(es).Some? then FirstMode(es) else FirstMode(fs)
  {
    if es == [] {
      assert es + fs == fs;
    } else {
      FirstModeConcat(es[1..], fs);
      assert (es + fs)[1..] == es[1..] + fs;
    }
  }

  lemma {:induction false} NoMode(es: seq<Entry>)
    requires forall e :: e in es ==> e.day.plannerMode.None?
    ensures FirstMode(es).None?
  {
    if es != [] { NoMode(es[1..]); }
  }

  lemma {:induction false} KeepConcat(es: seq<Entry>, fs: seq<Entry>, p: Entry -> bool)
    ensures Keep(es + fs, p) == Keep(es, p) + Keep(fs, p)
  {
    if es == [] {
      assert es + fs == fs;
    } else {
      var head := if p(es[0]) then [es[0]] else [];
      assert (es + fs)[1..] == es[1..] + fs && (es + fs)[0] == es[0];
      assert Keep(es + fs, p) == head + Keep(es[1..] + fs, p);
      KeepConcat(es[1..], fs, p);
      assert head + (Keep(es[1..], p) + Keep(fs, p)) == (head + Keep(es[1..], p)) + Keep(fs, p);
    }
  }

  /** Two published views of a row that no reader can tell apart. */
  predicate Alike(es: seq<Entry>, fs: seq<Entry>) {
    es == fs || (SameElements(es, fs) && OnePerDay(es))
  }

  predicate RowAlike(r: Schedule, r': Schedule) {
    && r.weekStart == r'.weekStart && r.published == r'.published
    && (r.published ==> Alike(PublishedEntriesOf(Some(r)), PublishedEntriesOf(Some(r'))))
  }

  predicate TableAlike(rows: seq<Schedule>, rows': seq<Schedule>) {
    |rows| == |rows'| && forall i :: 0 <= i < |rows| ==> RowAlike(rows[i], rows'[i])
  }

  lemma {:induction false} WeekRowAlike(rows: seq<Schedule>, rows': seq<Schedule>, weekStart: int)
    requires TableAlike(rows, rows')
    ensures Alike(PublishedEntriesOf(WeekRow(rows, weekStart)), PublishedEntriesOf(WeekRow(rows', weekStart)))
  {
    if rows != [] { WeekRowAlike(rows[1..], rows'[1..], weekStart); }
  }

  lemma {:induction false} LatestRowAlike(rows: seq<Schedule>, rows': seq<Schedule>)
    requires TableAlike(rows, rows')
    ensures LatestRow(rows).Some? == LatestRow(rows').Some?
    ensures LatestRow(rows).Some? ==>
            RowAlike(LatestRow(rows).value, LatestRow(rows').value) && LatestRow(rows).value.published
    ensures Alike(LatestWeek(rows), LatestWeek(rows'))
  {
    if rows != [] { LatestRowAlike(rows[1..], rows'[1..]); }
  }

  lemma KeepAlike(es: seq<Entry>, fs: seq<Entry>, p: Entry -> bool)
    requires Alike(es, fs)
    requires es == fs || forall e, f :: e in es && f in es && p(e) && p(f) ==> SameDay(e, f)
    ensures ByMeal(Keep(es, p)) == ByMeal(Keep(fs, p))
    ensures Keep(es, p) == [] <==> Keep(fs, p) == []
    ensures FirstMode(Keep(es, p)) == FirstMode(Keep(fs, p))
  {
    if es != fs {
      ByMealOfSameElements(Keep(es, p), Keep(fs, p));
      NoMode(Keep(es, p));
      NoMode(Keep(fs, p));
      if Keep(es, p) != [] { assert Keep(es, p)[0] in Keep(fs, p); }
      if Keep(fs, p) != [] { assert Keep(fs, p)[0] in Keep(es, p); }
    }
  }

  lemma CarriedAlike(w: seq<Entry>, w': seq<Entry>, l: seq<Entry>, l': seq<Entry>, dateMs: int)
    requires Alike(w, w') && Alike(l, l')
    ensures ByMeal(CarryForward(w + l, dateMs)) == ByMeal(CarryForward(w' + l', dateMs))
    ensures FirstMode(CarryForward(w + l, dateMs)) == FirstMode(CarryForward(w' + l', dateMs))
  {
    var b := Baseline(w + l, dateMs);
    assert forall e :: e in w + l <==> e in w' + l';
    BaselineUnique(w + l, w' + l', dateMs, b, Baseline(w' + l', dateMs));
    if b.Some? {
      var p := (e: Entry) => e.dateMs == b;
      KeepConcat(w, l, p);
      KeepConcat(w', l', p);
      KeepAlike(w, w', p);
      KeepAlike(l, l', p);
      ByMealConcat(Keep(w, p), Keep(l, p));
      ByMealConcat(Keep(w', p), Keep(l', p));
      FirstModeConcat(Keep(w, p), Keep(l, p));
      FirstModeConcat(Keep(w', p), Keep(l', p));
    }
  }

  lemma AlikeResolvesAlike(rows: seq<Schedule>, rows': seq<Schedule>, dateMs: int, dayWise: bool)
    requires TableAlike(rows, rows')
    ensures Resolve(rows, dateMs, dayWise) == Resolve(rows', dateMs, dayWise)
  {
    var dow := Weekday(dateMs);
    WeekRowAlike(rows, rows', dateMs - dow * DAY_MS);
    LatestRowAlike(rows, rows');
    KeepAlike(ThisWeek(rows, dateMs), ThisWeek(rows', dateMs), (e: Entry) => e.dateMs == Some(dateMs));
    KeepAlike(LatestWeek(rows), LatestWeek(rows'), (e: Entry) => e.dayOfWeek == dow);
    CarriedAlike(ThisWeek(rows, dateMs), ThisWeek(rows', dateMs), LatestWeek(rows), LatestWeek(rows'), dateMs);
  }

  /** Freezing stores the live rows, in whatever order the database returned them. */
  function Freeze(row: Schedule, live: seq<Raw>): Schedule {
    if !row.published || HasSnapshot(row) || live == [] then row
    else row.(snapshot := Some(Frozen(live)))
  }

  function Frozen(live: seq<Raw>): (frozen: seq<Raw>)
    ensures |frozen| == |live| && forall i :: 0 <= i < |live| ==> frozen[i] == ToSnapshotEntry(live[i])
  {
    seq(|live|, i requires 0 <= i < |live| => ToSnapshotEntry(live[i]))
  }

  /** A draft save: freeze first, then replace the live entries. */
  datatype Edit = Edit(index: nat, order: seq<Raw>, entries: seq<Raw>)

  predicate Readback(row: Schedule, order: seq<Raw>) {
    multiset(order) == multiset(row.entries)
  }

  function Save(rows: seq<Schedule>, e: Edit): seq<Schedule> {
    if e.index >= |rows| then rows
    else rows[e.index := Freeze(rows[e.index], e.order).(entries := e.entries)]
  }

  function SaveAll(rows: seq<Schedule>, edits: seq<Edit>): seq<Schedule> {
    if edits == [] then rows else Save(SaveAll(rows, edits[..|edits| - 1]), edits[|edits| - 1])
  }

  predicate Honest(rows: seq<Schedule>, edits: seq<Edit>) {
    edits != [] ==>
      var before := SaveAll(rows, edits[..|edits| - 1]);
      var e := edits[|edits| - 1];
      && Honest(rows, edits[..|edits| - 1])
      && (e.index < |before| ==> Readback(before[e.index], e.order))
  }

  /** Published rows are frozen already, or hold live entries, one per meal and day. */
  predicate Protected(row: Schedule) {
    row.published && !HasSnapshot(row) ==>
      && row.entries != []
      && (forall r :: r in row.entries ==> LiveRow(r))
      && OnePerDay(Normalized(row.entries))
  }

  lemma FrozenHas(raws: seq<Raw>, order: seq<Raw>, r: Raw)
    requires multiset(order) == multiset(raws) && r in raws && LiveRow(r)
    ensures NormalizeEntry(r) in Normalized(Frozen(order))
  {
    assert r in multiset(order);
    var j :| 0 <= j < |order| && order[j] == r;
    NormalizeAfterFreeze(r);
    assert Normalized(Frozen(order))[j] == NormalizeEntry(r);
  }

  lemma FrozenHasOnly(raws: seq<Raw>, order: seq<Raw>, j: nat)
    requires multiset(order) == multiset(raws) && j < |order| && LiveRow(order[j])
    ensures Normalized(Frozen(order))[j] in Normalized(raws)
  {
    assert order[j] in multiset(raws);
    var i :| 0 <= i < |raws| && raws[i] == order[j];
    NormalizeAfterFreeze(order[j]);
    assert Normalized(raws)[i] == Normalized(Frozen(order))[j];
  }

  lemma FrozenSameElements(raws: seq<Raw>, order: seq<Raw>)
    requires multiset(order) == multiset(raws) && forall r :: r in raws ==> LiveRow(r)
    ensures SameElements(Normalized(raws), Normalized(Frozen(order)))
  {
    forall i | 0 <= i < |raws| ensures Normalized(raws)[i] in Normalized(Frozen(order)) {
      FrozenHas(raws, order, raws[i]);
    }
    forall j | 0 <= j < |order| ensures Normalized(Frozen(order))[j] in Normalized(raws) {
      assert order[j] in multiset(raws);
      FrozenHasOnly(raws, order, j);
    }
  }

  lemma FreezeIsInvisible(row: Schedule, order: seq<Raw>, entries: seq<Raw>)
    requires Protected(row) && Readback(row, order)
    ensures var row' := Freeze(row, order).(entries := entries);
            RowAlike(row, row') && (row.published ==> HasSnapshot(row'))
  {
    if row.published && !HasSnapshot(row) {
      assert row.entries[0] in multiset(order);
      FrozenSameElements(row.entries, order);
    }
  }

  lemma {:induction false} SavesAreInvisible(rows: seq<Schedule>, edits: seq<Edit>)
    requires forall i :: 0 <= i < |rows| ==> Protected(rows[i])
    requires Honest(rows, edits)
    ensures TableAlike(rows, SaveAll(rows, edits))
    ensures forall i :: 0 <= i < |rows| ==> Protected(SaveAll(rows, edits)[i])
  {
    if edits == [] {
    } else {
      var before := SaveAll(rows, edits[..|edits| - 1]);
      var e := edits[|edits| - 1];
      SavesAreInvisible(rows, edits[..|edits| - 1]);
      if e.index < |before| {
        FreezeIsInvisible(before[e.index], e.order, e.entries);
        AlikeTrans(rows[e.index], before[e.index], Save(before, e)[e.index]);
      }
    }
  }

  lemma AlikeTrans(a: Schedule, b: Schedule, c: Schedule)
    requires RowAlike(a, b) && RowAlike(b, c)
    ensures RowAlike(a, c)
  {
  }

  /** The draft wall: no sequence of draft saves changes what any date resolves to. */
  lemma DraftWall(rows: seq<Schedule>, edits: seq<Edit>, dateMs: int, dayWise: bool)
    requires forall i :: 0 <= i < |rows| ==> Protected(rows[i])
    requires Honest(rows, edits)
    ensures Resolve(SaveAll(rows, edits), dateMs, dayWise) == Resolve(rows, dateMs, dayWise)
  {
    SavesAreInvisible(rows, edits);
    AlikeResolvesAlike(rows, SaveAll(rows, edits), dateMs, dayWise);
  }

  // ----- exactly the protected tables -----

  /** One row a week, each on a Monday; live entries are database rows, one per meal and day. */
  predicate DatabaseTable(rows: seq<Schedule>) {
    && (forall i, j :: 0 <= i < j < |rows| ==> rows[i].weekStart != rows[j].weekStart)
    && (forall i :: 0 <= i < |rows| ==>
          && rows[i].weekStart % DAY_MS == 0 && Weekday(rows[i].weekStart) == 0
          && (forall r :: r in rows[i].entries ==> LiveRow(r))
          && OnePerDay(Normalized(rows[i].entries)))
  }

  lemma {:induction false} WeekRowFound(rows: seq<Schedule>, i: nat)
    requires i < |rows| && rows[i].published
    requires forall j :: 0 <= j < |rows| && j != i ==> rows[j].weekStart != rows[i].weekStart
    ensures WeekRow(rows, rows[i].weekStart) == Some(rows[i])
  {
    if i > 0 { WeekRowFound(rows[1..], i - 1); }
  }

  lemma KeepOne(x: Entry, p: Entry -> bool)
    requires p(x)
    ensures Keep([x], p) == [x]
  {
    assert [x][1..] == [];
  }

  /**
   * A published week with no snapshot and no entries has nothing to freeze: whatever the rest of the
   * table, a draft entry on its Monday becomes all of that published day.
   */
  lemma EmptyWeekIsNotProtected(rows: seq<Schedule>, i: nat, e: Raw, dayWise: bool)
    requires DatabaseTable(rows) && i < |rows|
    requires rows[i].published && !HasSnapshot(rows[i]) && rows[i].entries == []
    requires e.date == DateObject(rows[i].weekStart)
    ensures Resolve(Save(rows, Edit(i, [], [e])), rows[i].weekStart, dayWise) == map[e.mealId := NormalizeEntry(e).day]
  {
    var monday := rows[i].weekStart;
    var saved := Save(rows, Edit(i, [], [e]));
    assert saved[i] == rows[i].(entries := [e]);
    WeekRowFound(saved, i);
    var shown := NormalizeEntry(e);
    assert ThisWeek(saved, monday) == [shown];
    KeepOne(shown, (x: Entry) => x.dateMs == Some(monday));
    assert ByMeal([shown]) == map[e.mealId := shown.day] by { assert [shown][..0] == []; }
  }

  predicate Hidden(rows: seq<Schedule>, edits: seq<Edit>, dateMs: int, dayWise: bool) {
    Honest(rows, edits) ==> Resolve(SaveAll(rows, edits), dateMs, dayWise) == Resolve(rows, dateMs, dayWise)
  }

  /** No sequence of draft saves, whatever it writes, changes any day under either flag. */
  ghost predicate DraftsNeverShow(rows: seq<Schedule>) {
    forall edits: seq<Edit>, dateMs: int, dayWise: bool :: Hidden(rows, edits, dateMs, dayWise)
  }

  function BareEntry(mealId: string, dateMs: int): Raw {
    Raw(mealId, Some(0), DateObject(dateMs), None, None, None, None, None, None, None, None, None, None, None, None,
        None, None)
  }

  lemma OneSave(rows: seq<Schedule>, i: nat, e: Raw)
    requires i < |rows| && rows[i].entries == []
    ensures SaveAll(rows, [Edit(i, [], [e])]) == Save(rows, Edit(i, [], [e])) && Honest(rows, [Edit(i, [], [e])])
  {
    assert [Edit(i, [], [e])][..0] == [];
  }

  /** Drafts never show exactly when every published week has a snapshot or live entries to freeze. */
  lemma DraftsNeverShowIff(rows: seq<Schedule>)
    requires DatabaseTable(rows)
    ensures DraftsNeverShow(rows)
       <==> forall i :: 0 <= i < |rows| && rows[i].published ==> HasSnapshot(rows[i]) || rows[i].entries != []
  {
    if i :| 0 <= i < |rows| && rows[i].published && !HasSnapshot(rows[i]) && rows[i].entries == [] {
      var monday := rows[i].weekStart;
      var a, b := BareEntry("a", monday), BareEntry("b", monday);
      EmptyWeekIsNotProtected(rows, i, a, false);
      EmptyWeekIsNotProtected(rows, i, b, false);
      OneSave(rows, i, a);
      OneSave(rows, i, b);
      assert Hidden(rows, [Edit(i, [], [a])], monday, false) ==> "a" in Resolve(rows, monday, false);
      assert Hidden(rows, [Edit(i, [], [b])], monday, false) ==> "a" !in Resolve(rows, monday, false);
    } else {
      forall edits: seq<Edit>, dateMs: int, dayWise: bool ensures Hidden(rows, edits, dateMs, dayWise) {
        if Honest(rows, edits) { DraftWall(rows, edits, dateMs, dayWise); }
      }
    }
  }

  /** The repository object: the table and the two writes that touch a published week. */
  class ScheduleTable {
    var rows: seq<Schedule>

    method FreezeLegacyPublishedSnapshot(index: nat, live: seq<Raw>)
      requires index < |rows|
      modifies this
      ensures rows == old(rows)[index := Freeze(old(rows)[index], live)]
    {
      var row := rows[index];
      if !row.published {
        return;
      }
      if row.snapshot.Some? && |row.snapshot.value| > 0 {
        return;
      }
      if |live| == 0 {
        return;
      }
      rows := rows[index := row.(snapshot := Some(Frozen(live)))];
    }

    method ReplaceEntries(index: nat, live: seq<Raw>, entries: seq<Raw>)
      requires index < |rows|
      modifies this
      ensures rows == Save(old(rows), Edit(index, live, entries))
    {
      FreezeLegacyPublishedSnapshot(index, live);
      rows := rows[index := rows[index].(entries := entries)];
    }
  }
}
