/**
 * Buffered audit writes. A flush hands the buffer to an insert and returns while the insert is
 * still pending, so several inserts can be in flight and settle in any order.
 */
module AuditBuffer {
  import opened AuditTrail

  /** An insert in flight: a whole batch, or what is left of one that falls back to single rows. */
  datatype Flight = Whole(rows: seq<Row>) | Singly(rows: seq<Row>)

  /** `stored` is the table; `dropped` the rows whose own insert was refused. */
  datatype Pipe = Pipe(buffer: seq<Row>, timer: bool, flights: seq<Flight>, stored: seq<Row>, dropped: seq<Row>)

  const EMPTY := Pipe([], false, [], [], [])

  /** `interval` and `max` are the flush interval and the buffer limit. */
  datatype Settings = Settings(interval: int, max: int)

  datatype Op =
    | Write(row: Row)
    | Flush                                  // the timer fires, or the process shuts down
    | Settles(flight: nat, ok: bool)         // the database answers the insert in flight

  function Flushed(s: Pipe): Pipe {
    if s.buffer == [] then s.(timer := false)
    else s.(buffer := [], timer := false, flights := s.flights + [Whole(s.buffer)])
  }

  function Step(cfg: Settings, s: Pipe, op: Op): Pipe {
    match op
    case Write(row) =>
      if cfg.interval <= 0 then s.(flights := s.flights + [Singly([row])])
      else if |s.buffer| + 1 >= cfg.max then Flushed(s.(buffer := s.buffer + [row]))
      else s.(buffer := s.buffer + [row], timer := true)
    case Flush => Flushed(s)
    case Settles(i, ok) =>
      if i >= |s.flights| || s.flights[i].rows == [] then s
      else
        var rows := s.flights[i].rows;
        match s.flights[i]
        case Whole(_) =>
          if ok then s.(flights := s.flights[..i] + s.flights[i + 1..], stored := s.stored + rows)
          else s.(flights := s.flights[i := Singly(rows)])
        case Singly(_) =>
          var left := if |rows| == 1 then s.flights[..i] + s.flights[i + 1..] else s.flights[i := Singly(rows[1..])];
          if ok then s.(flights := left, stored := s.stored + [rows[0]])
          else s.(flights := left, dropped := s.dropped + [rows[0]])
  }

  function After(cfg: Settings, run: seq<Op>): Pipe {
    if run == [] then EMPTY else Step(cfg, After(cfg, run[..|run| - 1]), run[|run| - 1])
  }

  function Written(run: seq<Op>): seq<Row> {
    if run == [] then [] else
      Written(run[..|run| - 1]) + (if run[|run| - 1].Write? then [run[|run| - 1].row] else [])
  }

  // ----- what each step does -----

  /**
   * A flush empties the buffer and clears the timer, and a buffer that held rows becomes one insert behind
   * those in flight. A row either starts its own insert, waits with the timer set, or is the one that fills
   * the buffer, and then goes out with it.
   */
  lemma RowsGoOut(cfg: Settings, s: Pipe, row: Row)
    ensures Step(cfg, s, Flush)
         == Pipe([], false, if |s.buffer| > 0 then s.flights + [Whole(s.buffer)] else s.flights, s.stored, s.dropped)
    ensures cfg.interval <= 0 ==>
              Step(cfg, s, Write(row)) == Pipe(s.buffer, s.timer, s.flights + [Singly([row])], s.stored, s.dropped)
    ensures cfg.interval > 0 && |s.buffer| + 1 < cfg.max ==>
              Step(cfg, s, Write(row)) == Pipe(s.buffer + [row], true, s.flights, s.stored, s.dropped)
    ensures cfg.interval > 0 && |s.buffer| + 1 >= cfg.max ==>
              Step(cfg, s, Write(row))
              == Pipe([], false, s.flights + [Whole(s.buffer + [row])], s.stored, s.dropped)
  {
  }

  /** The rows answered one way. */
  function Answered(rows: seq<Row>, oks: seq<bool>, ok: bool): seq<Row>
    requires |rows| == |oks|
  {
    if rows == [] then [] else (if oks[0] == ok then [rows[0]] else []) + Answered(rows[1..], oks[1..], ok)
  }

  /** The answers to one insert, one after the other. */
  function SettleAll(cfg: Settings, s: Pipe, i: nat, oks: seq<bool>): Pipe
    decreases |oks|
  {
    if oks == [] then s else SettleAll(cfg, Step(cfg, s, Settles(i, oks[0])), i, oks[1..])
  }

  /** The state once the rows of insert `i` have been answered. */
  function Over(s: Pipe, i: nat, rows: seq<Row>, oks: seq<bool>): Pipe
    requires i < |s.flights| && |rows| == |oks|
  {
    Pipe(s.buffer, s.timer, s.flights[..i] + s.flights[i + 1..], s.stored + Answered(rows, oks, true),
         s.dropped + Answered(rows, oks, false))
  }

  lemma OverNext(s: Pipe, s1: Pipe, i: nat, rows: seq<Row>, oks: seq<bool>)
    requires i < |s.flights| && |rows| == |oks| > 1
    requires s1 == Pipe(s.buffer, s.timer, s.flights[i := Singly(rows[1..])],
                        s.stored + (if oks[0] then [rows[0]] else []), s.dropped + (if oks[0] then [] else [rows[0]]))
    ensures Over(s1, i, rows[1..], oks[1..]) == Over(s, i, rows, oks)
  {
    assert s1.flights[..i] == s.flights[..i] && s1.flights[i + 1..] == s.flights[i + 1..];
    Joined(s.stored, if oks[0] then [rows[0]] else [], Answered(rows[1..], oks[1..], true));
    Joined(s.dropped, if oks[0] then [] else [rows[0]], Answered(rows[1..], oks[1..], false));
  }

  lemma Joined(a: seq<Row>, b: seq<Row>, c: seq<Row>)
    ensures (a + b) + c == a + (b + c)
  {
  }

  lemma {:induction false} SinglyAnswered(cfg: Settings, s: Pipe, i: nat, oks: seq<bool>)
    requires i < |s.flights| && s.flights[i].Singly? && |s.flights[i].rows| == |oks| > 0
    ensures SettleAll(cfg, s, i, oks) == Over(s, i, s.flights[i].rows, oks)
    decreases |oks|
  {
    var rows := s.flights[i].rows;
    var s1 := Step(cfg, s, Settles(i, oks[0]));
    if |oks| == 1 {
      assert SettleAll(cfg, s, i, oks) == SettleAll(cfg, s1, i, []);
      assert Answered(rows[1..], oks[1..], true) == [] && Answered(rows[1..], oks[1..], false) == [];
    } else {
      SinglyAnswered(cfg, s1, i, oks[1..]);
      assert s.stored + [] == s.stored && s.dropped + [] == s.dropped;
      OverNext(s, s1, i, rows, oks);
    }
  }

  /**
   * An accepted batch is stored whole. A refused one is tried row by row: each row that is then accepted is
   * stored and each that is refused is dropped, in their order, and the insert is over.
   */
  lemma BatchIsAnswered(cfg: Settings, s: Pipe, i: nat, oks: seq<bool>)
    requires i < |s.flights| && s.flights[i].Whole? && |s.flights[i].rows| == |oks| > 0
    ensures var rows := s.flights[i].rows;
            var rest := s.flights[..i] + s.flights[i + 1..];
            && Step(cfg, s, Settles(i, true)) == Pipe(s.buffer, s.timer, rest, s.stored + rows, s.dropped)
            && SettleAll(cfg, Step(cfg, s, Settles(i, false)), i, oks)
               == Pipe(s.buffer, s.timer, rest, s.stored + Answered(rows, oks, true),
                       s.dropped + Answered(rows, oks, false))
  {
    var s1 := Step(cfg, s, Settles(i, false));
    SinglyAnswered(cfg, s1, i, oks);
    assert s1.flights[..i] == s.flights[..i] && s1.flights[i + 1..] == s.flights[i + 1..];
  }

  // ----- nothing is lost -----

  function Count(rows: seq<Row>, r: Row): nat {
    if rows == [] then 0 else Count(rows[..|rows| - 1], r) + (if rows[|rows| - 1] == r then 1 else 0)
  }

  lemma {:induction false} CountConcat(a: seq<Row>, b: seq<Row>, r: Row)
    ensures Count(a + b, r) == Count(a, r) + Count(b, r)
  {
    if b == [] {
      assert a + b == a;
    } else {
      assert (a + b)[..|a + b| - 1] == a + b[..|b| - 1];
      CountConcat(a, b[..|b| - 1], r);
    }
  }

  lemma CountOne(x: Row, r: Row)
    ensures Count([x], r) == if x == r then 1 else 0
  {
    assert [x][..0] == [];
  }

  function InFlight(flights: seq<Flight>, r: Row): nat {
    if flights == [] then 0 else InFlight(flights[..|flights| - 1], r) + Count(flights[|flights| - 1].rows, r)
  }

  lemma InFlightAppend(flights: seq<Flight>, f: Flight, r: Row)
    ensures InFlight(flights + [f], r) == InFlight(flights, r) + Count(f.rows, r)
  {
    assert (flights + [f])[..|flights|] == flights;
  }

  lemma {:induction false} InFlightUpdate(flights: seq<Flight>, i: nat, f: Flight, r: Row)
    requires i < |flights|
    ensures InFlight(flights[i := f], r) == InFlight(flights, r) - Count(flights[i].rows, r) + Count(f.rows, r)
  {
    var n := |flights| - 1;
    if i == n {
      assert flights[i := f][..n] == flights[..n];
    } else {
      assert flights[i := f][..n] == flights[..n][i := f];
      InFlightUpdate(flights[..n], i, f, r);
    }
  }

  lemma {:induction false} InFlightRemove(flights: seq<Flight>, i: nat, r: Row)
    requires i < |flights|
    ensures InFlight(flights[..i] + flights[i + 1..], r) == InFlight(flights, r) - Count(flights[i].rows, r)
  {
    var n := |flights| - 1;
    if i == n {
      assert flights[..i] + flights[i + 1..] == flights[..n];
    } else {
      assert (flights[..i] + flights[i + 1..]) == (flights[..n][..i] + flights[..n][i + 1..]) + [flights[n]];
      InFlightRemove(flights[..n], i, r);
      InFlightAppend(flights[..n][..i] + flights[..n][i + 1..], flights[n], r);
    }
  }

  /** Every copy of a row there is: stored, dropped, in flight or waiting. */
  function Held(s: Pipe, r: Row): nat {
    Count(s.stored, r) + Count(s.dropped, r) + InFlight(s.flights, r) + Count(s.buffer, r)
  }

  lemma SettlingKeepsRows(cfg: Settings, s: Pipe, i: nat, ok: bool, r: Row)
    ensures Held(Step(cfg, s, Settles(i, ok)), r) == Held(s, r)
  {
    if i < |s.flights| && s.flights[i].rows != [] {
      var rows := s.flights[i].rows;
      InFlightRemove(s.flights, i, r);
      InFlightUpdate(s.flights, i, Singly(rows), r);
      InFlightUpdate(s.flights, i, Singly(rows[1..]), r);
      assert rows == [rows[0]] + rows[1..];
      CountConcat([rows[0]], rows[1..], r);
      CountConcat(s.stored, rows, r);
      CountConcat(s.stored, [rows[0]], r);
      CountConcat(s.dropped, [rows[0]], r);
    }
  }

  lemma StepKeepsRows(cfg: Settings, s: Pipe, op: Op, r: Row)
    ensures Held(Step(cfg, s, op), r) == Held(s, r) + (if op.Write? && op.row == r then 1 else 0)
  {
    match op
    case Write(row) =>
      CountConcat(s.buffer, [row], r);
      CountOne(row, r);
      InFlightAppend(s.flights, Singly([row]), r);
      InFlightAppend(s.flights, Whole(s.buffer + [row]), r);
    case Flush => InFlightAppend(s.flights, Whole(s.buffer), r);
    case Settles(i, ok) => SettlingKeepsRows(cfg, s, i, ok, r);
  }

  predicate FlushIsComing(cfg: Settings, s: Pipe) {
    s.buffer != [] ==> s.timer && |s.buffer| < cfg.max
  }

  lemma WrittenNext(run: seq<Op>, r: Row)
    requires run != []
    ensures Count(Written(run), r)
         == Count(Written(run[..|run| - 1]), r) + (if run[|run| - 1].Write? && run[|run| - 1].row == r then 1 else 0)
  {
    var before, last := Written(run[..|run| - 1]), run[|run| - 1];
    if last.Write? {
      CountConcat(before, [last.row], r);
      CountOne(last.row, r);
    } else {
      assert before + [] == before;
    }
  }

  lemma FlushStaysComing(cfg: Settings, s: Pipe, op: Op)
    requires FlushIsComing(cfg, s)
    ensures FlushIsComing(cfg, Step(cfg, s, op))
  {
  }

  /**
   * In every interleaving each written row is exactly once stored, dropped by its own insert, in
   * flight or waiting; and rows that wait have a flush coming.
   */
  lemma {:induction false} NothingIsLost(cfg: Settings, run: seq<Op>, r: Row)
    ensures Held(After(cfg, run), r) == Count(Written(run), r)
    ensures FlushIsComing(cfg, After(cfg, run))
  {
    if run != [] {
      var before, op := After(cfg, run[..|run| - 1]), run[|run| - 1];
      NothingIsLost(cfg, run[..|run| - 1], r);
      StepKeepsRows(cfg, before, op, r);
      FlushStaysComing(cfg, before, op);
      WrittenNext(run, r);
      assert After(cfg, run) == Step(cfg, before, op);
    }
  }

  // ----- order -----

  /** At no time are two inserts in flight. */
  predicate OneAtATime(cfg: Settings, run: seq<Op>) {
    |After(cfg, run).flights| <= 1 && (run != [] ==> OneAtATime(cfg, run[..|run| - 1]))
  }

  function Pending(flights: seq<Flight>): seq<Row> {
    if flights == [] then [] else flights[0].rows
  }

  /** Rows stored, in flight and waiting, as one list. */
  function Line(s: Pipe): seq<Row> {
    s.stored + Pending(s.flights) + s.buffer
  }

  lemma StepKeepsOrder(cfg: Settings, s: Pipe, op: Op)
    requires |s.flights| <= 1 && |Step(cfg, s, op).flights| <= 1 && Step(cfg, s, op).dropped == []
    requires cfg.interval <= 0 ==> s.buffer == []
    ensures Line(Step(cfg, s, op)) == Line(s) + (if op.Write? then [op.row] else [])
    ensures cfg.interval <= 0 ==> Step(cfg, s, op).buffer == []
  {
    if op.Settles? && op.flight < |s.flights| && s.flights[op.flight].rows != [] {
      var rows := s.flights[0].rows;
      assert rows == [rows[0]] + rows[1..];
      assert s.flights[..0] + s.flights[1..] == [];
      assert s.stored + rows == (s.stored + [rows[0]]) + rows[1..];
    }
  }

  /** Rows reach the table in the order they were written while inserts do not overlap. */
  lemma {:induction false} OrderKept(cfg: Settings, run: seq<Op>)
    requires OneAtATime(cfg, run) && After(cfg, run).dropped == []
    ensures Line(After(cfg, run)) == Written(run)
    ensures cfg.interval <= 0 ==> After(cfg, run).buffer == []
  {
    if run != [] {
      OrderKept(cfg, run[..|run| - 1]);
      StepKeepsOrder(cfg, After(cfg, run[..|run| - 1]), run[|run| - 1]);
    }
  }

  /** Overlapping inserts can settle the other way round. */
  lemma OverlapReorders(a: Row, b: Row)
    ensures After(Settings(1000, 1), [Write(a), Write(b), Settles(1, true), Settles(0, true)]).stored == [b, a]
  {
    var cfg, run := Settings(1000, 1), [Write(a), Write(b), Settles(1, true), Settles(0, true)];
    assert run[..3] == [Write(a), Write(b), Settles(1, true)] && run[..3][..2] == [Write(a), Write(b)];
    assert [Write(a), Write(b)][..1] == [Write(a)] && [Write(a)][..0] == [];
    var s1, s2 := Pipe([], false, [Whole([a])], [], []), Pipe([], false, [Whole([a]), Whole([b])], [], []);
    assert [] + [a] == [a] && [] + [b] == [b] && [] + [Whole([a])] == [Whole([a])];
    assert After(cfg, [Write(a)]) == Step(cfg, After(cfg, []), Write(a)) == s1;
    assert [Whole([a])] + [Whole([b])] == [Whole([a]), Whole([b])];
    assert After(cfg, [Write(a), Write(b)]) == Step(cfg, s1, Write(b)) == s2;
    assert After(cfg, run[..3]) == Step(cfg, s2, Settles(1, true)) == Pipe([], false, [Whole([a])], [b], []);
  }

  // ----- the service object -----

  class AuditLog {
    const cfg: Settings
    var buffer: seq<Row>
    var timer: bool
    var flights: seq<Flight>
    var stored: seq<Row>
    var dropped: seq<Row>

    function Abs(): Pipe
      reads this
    {
      Pipe(buffer, timer, flights, stored, dropped)
    }

    constructor (cfg: Settings)
      ensures Abs() == EMPTY && this.cfg == cfg
    {
      this.cfg := cfg;
      buffer, timer, flights, stored, dropped := [], false, [], [], [];
    }

    method Log(row: Row)
      modifies this
      ensures Abs() == Step(cfg, old(Abs()), Write(row))
    {
      if cfg.interval <= 0 {
        flights := flights + [Singly([row])];
        return;
      }
      buffer := buffer + [row];
      if |buffer| >= cfg.max {
        FlushBuffer();
        return;
      }
      if !timer {
        timer := true;
      }
    }

    /** The synchronous part of a flush: the insert is started and left pending. */
    method FlushBuffer()
      modifies this
      ensures Abs() == Flushed(old(Abs()))
    {
      timer := false;
      if buffer == [] {
        return;
      }
      var rows := buffer;
      buffer := [];
      flights := flights + [Whole(rows)];
    }

    /** What happens when the database answers a pending insert. */
    method Continue(i: nat, ok: bool)
      modifies this
      ensures Abs() == Step(cfg, old(Abs()), Settles(i, ok))
    {
      if i >= |flights| || flights[i].rows == [] {
        return;
      }
      var rows := flights[i].rows;
      if flights[i].Whole? {
        if ok {
          stored := stored + rows;
          flights := flights[..i] + flights[i + 1..];
        } else {
          flights := flights[i := Singly(rows)];
        }
        return;
      }
      if ok {
        stored := stored + [rows[0]];
      } else {
        dropped := dropped + [rows[0]];
      }
      flights := if |rows| == 1 then flights[..i] + flights[i + 1..] else flights[i := Singly(rows[1..])];
    }
  }
}
