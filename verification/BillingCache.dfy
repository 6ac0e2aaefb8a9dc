/**
 * The version-keyed read cache for billing summaries and series. A reader fetches the
 * version, probes under it, reads the rows and stores; a writer commits its rows and
 * then bumps the version. All of these interleave.
 */
module BillingCache {
  import opened Prelude

  /** A cached answer is identified with the set of writes its rows reflected. */
  type Writes = set<nat>

  datatype Reader =
    | Fetched(query: nat, version: nat, owed: Writes)
    | Missed(query: nat, version: nat, owed: Writes)
    | HasRows(query: nat, version: nat, owed: Writes, rows: Writes)
    | Served(owed: Writes, rows: Writes)

  /**
   * `committed` is the database; `bumped` the writes whose bump has completed. `floor` remembers, for each
   * version value that has been current, the writes bumped when it was installed; `lost` does so for each
   * query whose version fetch failed, the writes bumped when it last did.
   */
  datatype State = State(
    committed: Writes, bumped: Writes, version: nat,
    cache: map<(nat, nat), Writes>, readers: map<nat, Reader>, floor: map<nat, Writes>, lost: map<nat, Writes>)

  datatype Op =
    | Commit(write: nat)
    | Bump(write: nat, version: nat)       // the version is a clock reading
    | Fetch(reader: nat, query: nat, ok: bool)  // a failed fetch yields the value zero
    | Probe(reader: nat)
    | ReadRows(reader: nat)
    | Store(reader: nat, kept: bool)       // caching is best-effort
    | Expire(query: nat, version: nat)

  const INITIAL := State({}, {}, 0, map[], map[], map[0 := {}], map[])

  function Step(s: State, op: Op): State {
    match op
    case Commit(w) => s.(committed := s.committed + {w})
    case Bump(w, v) =>
      if w !in s.committed then s
      else s.(version := v, bumped := s.bumped + {w}, floor := s.floor[v := s.bumped + {w}])
    case Fetch(p, q, ok) =>
      if p in s.readers then s
      else if ok then s.(readers := s.readers[p := Fetched(q, s.version, s.bumped)])
      else s.(readers := s.readers[p := Fetched(q, 0, s.bumped)], lost := s.lost[q := s.bumped])
    case Probe(p) =>
      if !(p in s.readers && s.readers[p].Fetched?) then s
      else
        var r := s.readers[p];
        if (r.query, r.version) in s.cache
        then s.(readers := s.readers[p := Served(r.owed, s.cache[(r.query, r.version)])])
        else s.(readers := s.readers[p := Missed(r.query, r.version, r.owed)])
    case ReadRows(p) =>
      if !(p in s.readers && s.readers[p].Missed?) then s
      else
        var r := s.readers[p];
        s.(readers := s.readers[p := HasRows(r.query, r.version, r.owed, s.committed)])
    case Store(p, kept) =>
      if !(p in s.readers && s.readers[p].HasRows?) then s
      else
        var r := s.readers[p];
        s.(cache := if kept then s.cache[(r.query, r.version) := r.rows] else s.cache,
           readers := s.readers[p := Served(r.owed, r.rows)])
    case Expire(q, v) => s.(cache := s.cache - {(q, v)})
  }

  /** An answer that expires is gone, and no other. */
  lemma ExpiredIsGone(s: State, query: nat, version: nat)
    ensures var s' := Step(s, Expire(query, version));
            && s' == s.(cache := s'.cache)
            && forall q, v ::
                 ((q, v) in s'.cache <==> (q, v) in s.cache && (q != query || v != version))
                 && ((q, v) in s'.cache ==> s'.cache[(q, v)] == s.cache[(q, v)])
  {
  }

  /** The state a run of steps ends in. */
  function After(s: State, run: seq<Op>): State {
    if run == [] then s else Step(After(s, run[..|run| - 1]), run[|run| - 1])
  }

  lemma {:induction false} AfterConcat(s: State, run: seq<Op>, more: seq<Op>)
    ensures After(s, run + more) == After(After(s, run), more)
  {
    if more == [] {
      assert run + more == run;
    } else {
      AfterConcat(s, run, more[..|more| - 1]);
      assert (run + more)[..|run + more| - 1] == run + more[..|more| - 1];
    }
  }

  // ----- when a bump, or a failed fetch, is safe -----

  /** Every answer cached under `v`, and every one a reader is about to cache there, has all of `writes`. */
  predicate HoldsUnder(s: State, v: nat, writes: Writes) {
    && (forall k :: k in s.cache && k.1 == v ==> writes <= s.cache[k])
    && (forall p :: p in s.readers && s.readers[p].HasRows? && s.readers[p].version == v ==>
        writes <= s.readers[p].rows)
  }

  predicate SafeBump(s: State, w: nat, v: nat) {
    w in s.committed ==> HoldsUnder(s, v, s.bumped + {w})
  }

  /** The same for one query under the value zero, which a reader takes when its fetch fails. */
  predicate SafeLoss(s: State, q: nat) {
    && ((q, 0) in s.cache ==> s.bumped <= s.cache[(q, 0)])
    && (forall p :: p in s.readers && s.readers[p].HasRows? && s.readers[p].query == q && s.readers[p].version == 0
          ==> s.bumped <= s.readers[p].rows)
  }

  predicate SafeOp(s: State, op: Op) {
    match op
    case Bump(w, v) => SafeBump(s, w, v)
    case Fetch(p, q, ok) => p !in s.readers && !ok ==> SafeLoss(s, q)
    case _ => true
  }

  /** Every bump and every failed fetch of the run is safe when it happens. */
  predicate SafeRun(s: State, run: seq<Op>) {
    run != [] ==> SafeRun(s, run[..|run| - 1]) && SafeOp(After(s, run[..|run| - 1]), run[|run| - 1])
  }

  /** What an answer to the query under the version must have. */
  function Needed(s: State, q: nat, v: nat): Writes {
    (if v in s.floor then s.floor[v] else {}) + (if v == 0 && q in s.lost then s.lost[q] else {})
  }

  predicate Current(s: State, r: Reader) {
    && (r.Fetched? || r.Missed? || r.HasRows? ==> r.version in s.floor && r.owed <= Needed(s, r.query, r.version))
    && (r.HasRows? ==> Needed(s, r.query, r.version) <= r.rows)
    && (r.Served? ==> r.owed <= r.rows)
  }

  ghost predicate Inv(s: State) {
    && s.version in s.floor && s.floor[s.version] == s.bumped && 0 in s.floor
    && s.bumped <= s.committed
    && (forall v :: v in s.floor ==> s.floor[v] <= s.bumped)
    && (forall q :: q in s.lost ==> s.lost[q] <= s.bumped)
    && (forall k :: k in s.cache ==> k.1 in s.floor && Needed(s, k.0, k.1) <= s.cache[k])
    && (forall p :: p in s.readers ==> Current(s, s.readers[p]))
  }

  lemma NeededIsBumped(s: State, q: nat, v: nat)
    requires Inv(s)
    ensures Needed(s, q, v) <= s.bumped
  {
  }

  lemma BumpKeepsInv(s: State, w: nat, v: nat)
    requires Inv(s) && SafeBump(s, w, v)
    ensures Inv(Step(s, Bump(w, v)))
  {
    var s' := Step(s, Bump(w, v));
    if w in s.committed {
      forall q: nat, x: nat ensures Needed(s', q, x) == if x == v then s.bumped + {w} else Needed(s, q, x) {
        NeededIsBumped(s, q, x);
      }
      forall p | p in s'.readers ensures Current(s', s'.readers[p]) {
        assert Current(s, s.readers[p]);
        if !s.readers[p].Served? { NeededIsBumped(s, s.readers[p].query, s.readers[p].version); }
      }
    }
  }

  lemma LossKeepsInv(s: State, p: nat, q: nat)
    requires Inv(s) && p !in s.readers && SafeLoss(s, q)
    ensures Inv(Step(s, Fetch(p, q, false)))
  {
    var s' := Step(s, Fetch(p, q, false));
    forall x: nat, v: nat ensures Needed(s', x, v) == if x == q && v == 0 then s.bumped else Needed(s, x, v) {
      NeededIsBumped(s, x, v);
    }
    forall r | r in s'.readers ensures Current(s', s'.readers[r]) {
      if r != p {
        assert Current(s, s.readers[r]);
        if !s.readers[r].Served? { NeededIsBumped(s, s.readers[r].query, s.readers[r].version); }
      }
    }
  }

  lemma CurrentStays(s: State, s': State, r: Reader)
    requires s'.floor == s.floor && s'.lost == s.lost && Current(s, r)
    ensures Current(s', r)
  {
  }

  /** What the step puts into the cache, or in front of a reader, is current. */
  lemma NewIsCurrent(s: State, op: Op)
    requires Inv(s) && !op.Bump? && (op.Fetch? ==> op.ok)
    ensures forall k :: k in Step(s, op).cache ==> k.1 in s.floor && Needed(s, k.0, k.1) <= Step(s, op).cache[k]
    ensures forall p :: p in Step(s, op).readers ==> Current(s, Step(s, op).readers[p])
  {
    forall p | p in s.readers ensures Current(s, s.readers[p]) {}
    match op
    case ReadRows(p) =>
      if p in s.readers && s.readers[p].Missed? { NeededIsBumped(s, s.readers[p].query, s.readers[p].version); }
    case _ =>
  }

  lemma InvCarries(s: State, s': State)
    requires Inv(s) && s'.floor == s.floor && s'.lost == s.lost && s'.bumped == s.bumped && s'.version == s.version
    requires s.committed <= s'.committed
    requires forall k :: k in s'.cache ==> k.1 in s.floor && Needed(s, k.0, k.1) <= s'.cache[k]
    requires forall p :: p in s'.readers ==> Current(s, s'.readers[p])
    ensures Inv(s')
  {
    forall p | p in s'.readers ensures Current(s', s'.readers[p]) { CurrentStays(s, s', s'.readers[p]); }
  }

  lemma OtherKeepsInv(s: State, op: Op)
    requires Inv(s) && !op.Bump? && (op.Fetch? ==> op.ok)
    ensures Inv(Step(s, op))
  {
    NewIsCurrent(s, op);
    InvCarries(s, Step(s, op));
  }

  lemma StepKeepsInv(s: State, op: Op)
    requires Inv(s) && SafeOp(s, op)
    ensures Inv(Step(s, op))
  {
    match op
    case Bump(w, v) => BumpKeepsInv(s, w, v);
    case Fetch(p, q, ok) =>
      if !ok && p !in s.readers { LossKeepsInv(s, p, q); } else if ok { OtherKeepsInv(s, op); }
    case _ => OtherKeepsInv(s, op);
  }

  lemma {:induction false} RunKeepsInv(s: State, run: seq<Op>)
    requires Inv(s) && SafeRun(s, run)
    ensures Inv(After(s, run))
  {
    if run != [] {
      RunKeepsInv(s, run[..|run| - 1]);
      StepKeepsInv(After(s, run[..|run| - 1]), run[|run| - 1]);
    }
  }

  /** The reader, if it has been answered, got every write it is owed. */
  predicate Answered(s: State, p: nat) {
    p in s.readers && s.readers[p].Served? ==> s.readers[p].owed <= s.readers[p].rows
  }

  // ----- fresh version values -----

  /** No bump installs a version value that has been current before, and no version fetch fails. */
  predicate FreshVersions(run: seq<Op>) {
    run != [] ==>
      && FreshVersions(run[..|run| - 1])
      && (run[|run| - 1].Bump? ==> run[|run| - 1].version !in After(INITIAL, run[..|run| - 1]).floor)
      && (run[|run| - 1].Fetch? ==> run[|run| - 1].ok)
  }

  lemma {:induction false} FreshIsSafe(run: seq<Op>)
    requires FreshVersions(run)
    ensures SafeRun(INITIAL, run)
  {
    if run != [] {
      FreshIsSafe(run[..|run| - 1]);
      RunKeepsInv(INITIAL, run[..|run| - 1]);
      var s := After(INITIAL, run[..|run| - 1]);
      if run[|run| - 1].Bump? {
        forall p | p in s.readers ensures Current(s, s.readers[p]) {}
      }
    }
  }

  /**
   * While no version value is installed twice and no fetch fails, every answer, cached or not, reflects each write
   * whose bump had completed when the reader fetched the version.
   */
  lemma CacheIsCoherent(run: seq<Op>, p: nat)
    requires FreshVersions(run)
    ensures Answered(After(INITIAL, run), p)
  {
    FreshIsSafe(run);
    RunKeepsInv(INITIAL, run);
    var s := After(INITIAL, run);
    if p in s.readers { assert Current(s, s.readers[p]); }
  }

  lemma OwedStays(s: State, op: Op, p: nat)
    requires p in s.readers
    ensures p in Step(s, op).readers && Step(s, op).readers[p].owed == s.readers[p].owed
  {
  }

  lemma NextOp(s: State, run: seq<Op>, more: seq<Op>)
    requires more != []
    ensures After(s, run + more) == Step(After(s, run + more[..|more| - 1]), more[|more| - 1])
    ensures SafeRun(s, run + more) <==>
              SafeRun(s, run + more[..|more| - 1]) && SafeOp(After(s, run + more[..|more| - 1]), more[|more| - 1])
  {
    assert (run + more)[..|run + more| - 1] == run + more[..|more| - 1];
  }

  /** `owed` is what it says: the writes bumped at the moment of the fetch, unchanged since. */
  lemma {:induction false} OwedIsFixedAtFetch(run: seq<Op>, p: nat, q: nat, ok: bool, more: seq<Op>)
    requires p !in After(INITIAL, run).readers
    ensures p in After(INITIAL, run + [Fetch(p, q, ok)] + more).readers
    ensures After(INITIAL, run + [Fetch(p, q, ok)] + more).readers[p].owed == After(INITIAL, run).bumped
  {
    var base := run + [Fetch(p, q, ok)];
    if more == [] {
      assert base + more == base && base[..|base| - 1] == run;
    } else {
      OwedIsFixedAtFetch(run, p, q, ok, more[..|more| - 1]);
      NextOp(INITIAL, base, more);
      OwedStays(After(INITIAL, base + more[..|more| - 1]), more[|more| - 1], p);
    }
  }

  // ----- exactly the safe runs -----

  /** Nothing is bumped and no fetch fails. */
  predicate Quiet(run: seq<Op>) {
    forall i :: 0 <= i < |run| ==> !run[i].Bump? && (run[i].Fetch? ==> run[i].ok)
  }

  lemma {:induction false} QuietIsSafe(s: State, run: seq<Op>, more: seq<Op>)
    requires SafeRun(s, run) && Quiet(more)
    ensures SafeRun(s, run + more)
  {
    if more == [] {
      assert run + more == run;
    } else {
      QuietIsSafe(s, run, more[..|more| - 1]);
      NextOp(s, run, more);
    }
  }

  /** A new reader of `q` finds an answer under the current version, and is served it. */
  lemma CachedIsServed(s: State, p: nat, q: nat)
    requires p !in s.readers && (q, s.version) in s.cache
    ensures p in After(s, [Fetch(p, q, true), Probe(p)]).readers
    ensures After(s, [Fetch(p, q, true), Probe(p)]).readers[p] == Served(s.bumped, s.cache[(q, s.version)])
  {
    assert [Fetch(p, q, true), Probe(p)][..1] == [Fetch(p, q, true)] && [Fetch(p, q, true)][..0] == [];
    assert After(s, [Fetch(p, q, true)]) == Step(After(s, []), Fetch(p, q, true));
  }

  lemma {:induction false} Unused(ids: set<nat>) returns (p: nat)
    ensures forall x :: x in ids ==> x < p
  {
    if ids == {} {
      p := 0;
    } else {
      var x :| x in ids;
      var rest := Unused(ids - {x});
      p := if rest <= x then x + 1 else rest;
      forall y | y in ids ensures y < p { if y != x { assert y in ids - {x}; } }
    }
  }

  /** An unsafe bump: some quiet continuation serves a later reader stale. */
  lemma UnsafeBumpServesStale(s: State, w: nat, v: nat) returns (more: seq<Op>, p: nat)
    requires !SafeBump(s, w, v)
    ensures Quiet(more) && p !in s.readers && !Answered(After(Step(s, Bump(w, v)), more), p)
  {
    p := Unused(s.readers.Keys);
    assert p !in s.readers.Keys;
    var s1 := Step(s, Bump(w, v));
    if k :| k in s.cache && k.1 == v && !(s1.bumped <= s.cache[k]) {
      more := [Fetch(p, k.0, true), Probe(p)];
      assert k == (k.0, v);
      CachedIsServed(s1, p, k.0);
    } else {
      var r :| r in s.readers && s.readers[r].HasRows? && s.readers[r].version == v
          && !(s1.bumped <= s.readers[r].rows);
      var q := s.readers[r].query;
      more := [Store(r, true)] + [Fetch(p, q, true), Probe(p)];
      AfterConcat(s1, [Store(r, true)], [Fetch(p, q, true), Probe(p)]);
      assert After(s1, [Store(r, true)]) == Step(s1, Store(r, true)) by { assert [Store(r, true)][..0] == []; }
      CachedIsServed(Step(s1, Store(r, true)), p, q);
    }
  }

  lemma TwoSteps(s: State, x: Op, y: Op)
    ensures After(s, [x]) == Step(s, x) && After(s, [x, y]) == Step(Step(s, x), y)
  {
    assert [x, y][..1] == [x] && [x][..0] == [];
    assert After(s, [x]) == Step(After(s, []), x);
  }

  /** An unsafe failed fetch: some quiet continuation serves its own reader stale. */
  lemma UnsafeLossServesStale(s: State, p: nat, q: nat) returns (more: seq<Op>)
    requires p !in s.readers && !SafeLoss(s, q)
    ensures Quiet(more) && !Answered(After(Step(s, Fetch(p, q, false)), more), p)
  {
    var s1 := Step(s, Fetch(p, q, false));
    if (q, 0) in s.cache && !(s.bumped <= s.cache[(q, 0)]) {
      more := [Probe(p)];
      TwoSteps(s1, Probe(p), Probe(p));
    } else {
      var r :| r in s.readers && s.readers[r].HasRows? && s.readers[r].query == q && s.readers[r].version == 0
               && !(s.bumped <= s.readers[r].rows);
      more := [Store(r, true), Probe(p)];
      TwoSteps(s1, Store(r, true), Probe(p));
    }
  }

  /** Nothing that follows any prefix of the run, up to the next bump or failed fetch, serves a reader stale. */
  ghost predicate NeverStale(run: seq<Op>) {
    forall k: nat, more: seq<Op>, p: nat ::
      k <= |run| && Quiet(more) ==> Answered(After(INITIAL, run[..k] + more), p)
  }

  lemma {:induction false} SafePrefix(s: State, run: seq<Op>, k: nat)
    requires SafeRun(s, run) && k <= |run|
    ensures SafeRun(s, run[..k])
  {
    if k < |run| {
      SafePrefix(s, run[..|run| - 1], k);
      assert run[..|run| - 1][..k] == run[..k];
    } else {
      assert run[..k] == run;
    }
  }

  lemma {:induction false} FirstUnsafe(s: State, run: seq<Op>) returns (k: nat)
    requires !SafeRun(s, run)
    ensures k < |run| && !SafeOp(After(s, run[..k]), run[k])
  {
    k := |run| - 1;
    if !SafeRun(s, run[..k]) {
      var j := FirstUnsafe(s, run[..k]);
      assert run[..k][..j] == run[..j];
      k := j;
    }
  }

  /** The cache is coherent through a run exactly when every bump and every failed fetch in it is safe. */
  lemma NeverStaleIffSafe(run: seq<Op>)
    ensures NeverStale(run) <==> SafeRun(INITIAL, run)
  {
    if SafeRun(INITIAL, run) {
      forall k: nat, more: seq<Op>, p: nat | k <= |run| && Quiet(more)
        ensures Answered(After(INITIAL, run[..k] + more), p)
      {
        SafePrefix(INITIAL, run, k);
        QuietIsSafe(INITIAL, run[..k], more);
        RunKeepsInv(INITIAL, run[..k] + more);
        var s := After(INITIAL, run[..k] + more);
        if p in s.readers { assert Current(s, s.readers[p]); }
      }
    } else {
      var k := FirstUnsafe(INITIAL, run);
      var s := After(INITIAL, run[..k]);
      var more: seq<Op>, p: nat;
      if run[k].Bump? {
        more, p := UnsafeBumpServesStale(s, run[k].write, run[k].version);
      } else {
        p := run[k].reader;
        more := UnsafeLossServesStale(s, p, run[k].query);
      }
      assert run[..k + 1][..k] == run[..k];
      AfterConcat(INITIAL, run[..k + 1], more);
      assert !Answered(After(INITIAL, run[..k + 1] + more), p);
    }
  }

  // ----- two bumps in one clock tick -----

  /** A reader that straddles the second bump: it read the rows before the second commit and stores after. */
  function Straddle(v: nat, q: nat): seq<Op> {
    [Commit(1), Bump(1, v), Fetch(0, q, true), Probe(0), ReadRows(0), Commit(2)]
  }

  lemma StraddleState(v: nat, q: nat)
    ensures After(INITIAL, Straddle(v, q))
         == State({1, 2}, {1}, v, map[], map[0 := HasRows(q, v, {1}, {1})], map[0 := {}][v := {1}], map[])
  {
    var a, b := [Commit(1), Bump(1, v), Fetch(0, q, true)], [Probe(0), ReadRows(0), Commit(2)];
    assert Straddle(v, q) == a + b;
    AfterConcat(INITIAL, a, b);
    ThreeSteps(INITIAL, Commit(1), Bump(1, v), Fetch(0, q, true));
    var mid := State({1}, {1}, v, map[], map[0 := Fetched(q, v, {1})], map[0 := {}][v := {1}], map[]);
    var one: Writes := {1};
    assert {} + one == one && {1} + {2} == {1, 2};
    assert After(INITIAL, a) == mid;
    ThreeSteps(mid, Probe(0), ReadRows(0), Commit(2));
    assert Step(mid, Probe(0)).readers == map[0 := Missed(q, v, {1})];
  }

  lemma ThreeSteps(s: State, x: Op, y: Op, z: Op)
    ensures After(s, [x, y, z]) == Step(Step(Step(s, x), y), z)
  {
    assert [x, y, z][..2] == [x, y] && [x, y][..1] == [x] && [x][..0] == [];
    assert After(s, [x, y]) == Step(After(s, [x]), y) && After(s, [x]) == Step(After(s, []), x);
  }

  /** The hypothesis is needed: for any value, two bumps to it let a reader miss the second write. */
  lemma ReusedVersionServesStale(v: nat, q: nat)
    ensures var run := Straddle(v, q) + [Bump(2, v), Store(0, true)] + [Fetch(1, q, true), Probe(1)];
            && !SafeRun(INITIAL, run)
            && 1 in After(INITIAL, run).readers && After(INITIAL, run).readers[1] == Served({1, 2}, {1})
  {
    var first, next, last := Straddle(v, q), [Bump(2, v), Store(0, true)], [Fetch(1, q, true), Probe(1)];
    StraddleState(v, q);
    AfterConcat(INITIAL, first, next);
    TwoSteps(After(INITIAL, first), Bump(2, v), Store(0, true));
    var s2 := Step(Step(After(INITIAL, first), Bump(2, v)), Store(0, true));
    assert s2.cache == map[(q, v) := {1}] && s2.bumped == {1, 2} && s2.version == v && 1 !in s2.readers;
    AfterConcat(INITIAL, first + next, last);
    CachedIsServed(s2, 1, q);
    NotSafe(first + next + last, 1);
  }

  lemma NotSafe(run: seq<Op>, p: nat)
    requires !Answered(After(INITIAL, run), p)
    ensures !SafeRun(INITIAL, run)
  {
    NeverStaleIffSafe(run);
    assert run[..|run|] + [] == run && !Answered(After(INITIAL, run[..|run|] + []), p);
  }
}
