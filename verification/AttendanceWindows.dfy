/**
 * Attendance windows: their state at a minute of the day, and the validator every write path calls.
 */
module AttendanceWindows {
  import opened Prelude
  import opened Text

  datatype WindowState = Upcoming | Open | InGrace | Closed

  /** Clocks are minutes since midnight; one that does not parse compares with nothing. */
  predicate Earlier(a: Option<int>, b: Option<int>) {
    a.Some? && b.Some? && a.value < b.value
  }

  function Later(a: Option<int>, minutes: int): Option<int> {
    if a.Some? then Some(a.value + minutes) else None
  }

  function GetWindowState(now: Option<int>, open: Option<int>, close: Option<int>, grace: int): WindowState {
    if Earlier(now, open) then Upcoming
    else if Earlier(now, close) then Open
    else if Earlier(now, Later(close, Max(0, grace))) then InGrace
    else Closed
  }

  /**
   * The four states of known clocks: before the opening, then open to the close, then the grace, then closed.
   * A clock that does not parse never holds the window back.
   */
  lemma WindowStates(now: int, open: int, close: int, grace: int)
    ensures var state := GetWindowState(Some(now), Some(open), Some(close), grace);
            && (state == Upcoming <==> now < open)
            && (state == Open <==> open <= now < close)
            && (state == InGrace <==> open <= now && close <= now < close + grace)
            && (state == Closed <==> open <= now && close <= now && close + grace <= now)
    ensures GetWindowState(Some(now), None, Some(close), grace)
         == GetWindowState(Some(now), Some(now), Some(close), grace)
    ensures GetWindowState(Some(now), Some(open), None, grace) == if now < open then Upcoming else Closed
  {
  }

  const DAY := 24 * 60

  /** The window's length; one that closes before it opens is taken to run past midnight. */
  function WindowMinutes(open: Option<int>, close: Option<int>): Option<int> {
    if open.None? || close.None? then None
    else if close.value >= open.value then Some(close.value - open.value)
    else Some(DAY - open.value + close.value)
  }

  predicate TimeOfDay(t: int) {
    0 <= t < DAY
  }

  /** When the window is found closed it has been open for its whole length. */
  ghost predicate FullChance(open: int, close: int, grace: int) {
    forall now :: TimeOfDay(now) && GetWindowState(Some(now), Some(open), Some(close), grace) == Closed ==>
      now - open >= WindowMinutes(Some(open), Some(close)).value
  }

  /**
   * A closed window has given members its whole length exactly when it does not pass midnight, or its grace
   * keeps it from ever closing. One that passes midnight is closed the moment it opens.
   */
  lemma FullChanceIff(open: int, close: int, grace: int)
    requires TimeOfDay(open) && TimeOfDay(close)
    ensures FullChance(open, close, grace) <==> open <= close || close + Max(0, grace) >= DAY
    ensures close < open && close + Max(0, grace) <= open ==>
              forall now :: TimeOfDay(now) ==>
                GetWindowState(Some(now), Some(open), Some(close), grace) == (if now < open then Upcoming else Closed)
  {
    var now := Max(open, close + Max(0, grace));
    if close < open && close + Max(0, grace) < DAY {
      assert TimeOfDay(now) && GetWindowState(Some(now), Some(open), Some(close), grace) == Closed;
    }
  }

  /** A window whose times parse and do not pass midnight. */
  predicate WithinOneDay(w: (Option<string>, Option<string>), clock: string -> Option<int>) {
    w.0.Some? && w.1.Some? ==>
      match (clock(w.0.value), clock(w.1.value))
      case (Some(open), Some(close)) => TimeOfDay(open) && TimeOfDay(close) && open <= close
      case _ => false
  }

  // ----- the validator -----

  /** Minutes since midnight of "HH:mm" or "H:mm"; a whole day for anything else. */
  function Minutes(t: Option<string>): int {
    if t.None? then DAY
    else
      var s := if |t.value| == 4 then "0" + t.value else t.value;
      if |s| == 5 && IsDigit(s[0]) && IsDigit(s[1]) && s[2] == ':' && IsDigit(s[3]) && IsDigit(s[4]) then
        var (h, m) := (10 * Digit(s[0]) + Digit(s[1]), 10 * Digit(s[3]) + Digit(s[4]));
        if h > 23 || m > 59 then DAY else h * 60 + m
      else DAY
  }

  /**
   * "HH:mm" reads as sixty minutes an hour and the minutes, for every hour and minute of the day; an hour
   * below ten may leave out its zero; and no other text reads as a time of day.
   */
  lemma MinutesReadsClock(t: string, h: nat, m: nat)
    requires h < 24 && m < 60
    ensures Minutes(Some(t)) == 60 * h + m
       <==> t == TwoDigits(h) + ":" + TwoDigits(m) || (h < 10 && t == TwoDigits(h)[1..] + ":" + TwoDigits(m))
  {
    var s := if |t| == 4 then "0" + t else t;
    if |s| == 5 {
      DigitsRead(s[0], s[1], h);
      DigitsRead(s[3], s[4], m);
      assert s == [s[0], s[1]] + [s[2]] + [s[3], s[4]];
    }
    var full := TwoDigits(h) + ":" + TwoDigits(m);
    assert full[..2] == TwoDigits(h) && full[2] == ':' && full[3..] == TwoDigits(m);
    if |t| == 4 {
      assert t == s[1..];
      assert h < 10 ==> full == "0" + (TwoDigits(h)[1..] + ":" + TwoDigits(m));
    }
    if |s| == 5 {
      assert s == full <==> [s[0], s[1]] == TwoDigits(h) && s[2] == ':' && [s[3], s[4]] == TwoDigits(m);
    }
  }

  /** The runtime's own parser reads every time the validator can read, and reads the same. */
  ghost predicate ReadsClocks(clock: string -> Option<int>) {
    forall t :: Minutes(Some(t)) < DAY ==> clock(t) == Some(Minutes(Some(t)))
  }

  /** One meal's window, as the validator sees it. */
  datatype MealWindow = MealWindow(slotKey: Option<string>, openTime: Option<string>, closeTime: Option<string>)

  datatype WindowError = WindowRequired | WindowNotSameDay

  const GENERAL := "__general__"

  function Check(w: MealWindow): Option<WindowError> {
    if w.slotKey == Some(GENERAL) then None
    else if !Truthy(w.openTime) || !Truthy(w.closeTime) then Some(WindowRequired)
    else if Minutes(w.openTime) == DAY || Minutes(w.closeTime) == DAY then Some(WindowRequired)
    else if Minutes(w.closeTime) <= Minutes(w.openTime) then Some(WindowNotSameDay)
    else None
  }

  predicate Accepted(w: MealWindow) {
    Check(w).None?
  }

  /** Windows are judged one by one, and the first bad one decides the error. */
  method AssertMealWindowsValid(windows: seq<MealWindow>) returns (r: Option<(nat, WindowError)>)
    ensures r.None? <==> forall w :: w in windows ==> Accepted(w)
    ensures r.Some? ==>
              && r.value.0 < |windows| && Check(windows[r.value.0]) == Some(r.value.1)
              && forall i :: 0 <= i < r.value.0 ==> Accepted(windows[i])
  {
    for i := 0 to |windows|
      invariant forall j :: 0 <= j < i ==> Accepted(windows[j])
    {
      var w := windows[i];
      assert w in windows;
      if w.slotKey != Some(GENERAL) {
        var open, close := Minutes(w.openTime), Minutes(w.closeTime);
        if !Truthy(w.openTime) || !Truthy(w.closeTime) || open == DAY || close == DAY {
          return Some((i, WindowRequired));
        }
        if close <= open {
          return Some((i, WindowNotSameDay));
        }
      }
    }
    return None;
  }

  /**
   * The system's own slot is exempt. Any other window is accepted exactly when both times are times of one day,
   * in order; a time that is missing or unreadable is asked for first, and only then is the order judged.
   */
  lemma AcceptedMeans(w: MealWindow)
    ensures 0 <= Minutes(w.openTime) <= DAY && 0 <= Minutes(w.closeTime) <= DAY
    ensures w.slotKey == Some("__general__") ==> Accepted(w)
    ensures w.slotKey != Some("__general__") ==>
              && (Accepted(w) <==> Minutes(w.openTime) < Minutes(w.closeTime) < DAY)
              && (Check(w) == Some(WindowRequired) <==> Minutes(w.openTime) == DAY || Minutes(w.closeTime) == DAY)
              && (Check(w) == Some(WindowNotSameDay) <==> Minutes(w.closeTime) <= Minutes(w.openTime) < DAY)
  {
  }
}
