/**
 * The two-phase idempotency guard around posting a ledger entry: reserve the key,
 * do the work, store the response; replay it to duplicates. Any number of attempts
 * with one key interleave, and any Redis command may fail, applied or not.
 */
module IdempotencyKey {
  import opened Prelude

  /** What the key holds. A response is identified by the row it answers for. */
  datatype Key = Absent | Pending | Stored(response: nat)

  datatype Phase =
    | Started
    | Denied                     // setNx said no
    | Reserved                   // setNx said yes
    | Created(response: nat)     // the ledger row is committed
    | Failing                    // the work threw before any row was created
    | Replied(response: nat)     // success: first response, or a replay
    | Conflict                   // 409
    | Errored                    // the failure was passed on

  /** A Redis command that succeeds, fails without effect, or takes effect but reports failure. */
  datatype Redis = Fine | Lost | AppliedButFailed

  datatype State = State(key: Key, rows: seq<nat>, attempts: map<nat, Phase>)

  datatype Op =
    | Start(id: nat)
    | SetNx(id: nat, redis: Redis)
    | Get(id: nat, redis: Redis)
    | Work(id: nat, response: nat)     // the inner create commits a row
    | Fail(id: nat)                    // the inner create throws
    | Store(id: nat, redis: Redis)
    | Delete(id: nat, redis: Redis)

  predicate At(s: State, id: nat, p: Phase) {
    id in s.attempts && s.attempts[id] == p
  }

  function Goto(s: State, id: nat, p: Phase): State {
    s.(attempts := s.attempts[id := p])
  }

  function Step(s: State, op: Op): State {
    match op
    case Start(id) => if id in s.attempts then s else Goto(s, id, Started)
    case SetNx(id, redis) =>
      if !At(s, id, Started) then s
      else
        var key := if s.key == Absent && !redis.Lost? then Pending else s.key;
        Goto(s.(key := key), id, if s.key == Absent && redis.Fine? then Reserved else Denied)
    case Get(id, redis) =>
      if !At(s, id, Denied) then s
      else if redis.Fine? && s.key.Stored? then Goto(s, id, Replied(s.key.response))
      else Goto(s, id, Conflict)
    case Work(id, response) =>
      if !At(s, id, Reserved) then s else Goto(s.(rows := s.rows + [response]), id, Created(response))
    case Fail(id) =>
      if !At(s, id, Reserved) then s else Goto(s, id, Failing)
    case Store(id, redis) =>
      if !(id in s.attempts && s.attempts[id].Created?) then s
      else
        var r := s.attempts[id].response;
        Goto(s.(key := if redis.Lost? then s.key else Stored(r)), id, Replied(r))
    case Delete(id, redis) =>
      if !At(s, id, Failing) then s
      else Goto(s.(key := if redis.Lost? then s.key else Absent), id, Errored)
  }

  const INITIAL := State(Absent, [], map[])

  function After(run: seq<Op>): State {
    if run == [] then INITIAL else Step(After(run[..|run| - 1]), run[|run| - 1])
  }

  predicate Holding(p: Phase) {
    p.Reserved? || p.Failing? || p.Created?
  }

  ghost predicate Inv(s: State) {
    && |s.rows| <= 1
    && (forall i, j :: i in s.attempts && j in s.attempts && Holding(s.attempts[i]) && Holding(s.attempts[j]) ==>
        i == j)
    && (forall i :: i in s.attempts && Holding(s.attempts[i]) ==> s.key == Pending)
    && (forall i :: i in s.attempts && (s.attempts[i].Reserved? || s.attempts[i].Failing?) ==> s.rows == [])
    && (forall i :: i in s.attempts && (s.attempts[i].Created? || s.attempts[i].Replied?) ==>
        s.rows == [s.attempts[i].response])
    && (s.key.Stored? ==> s.rows == [s.key.response])
    && (s.rows != [] ==> s.key != Absent)
  }

  lemma {:induction false} RunKeepsInv(run: seq<Op>)
    ensures Inv(After(run))
  {
    if run != [] {
      RunKeepsInv(run[..|run| - 1]);
    }
  }

  /**
   * At most one ledger row, and every successful response is that row's, in every
   * interleaving and whatever Redis commands fail.
   */
  lemma AtMostOnceAndSameResponse(run: seq<Op>, i: nat, j: nat)
    ensures var s := After(run);
            && |s.rows| <= 1
            && (i in s.attempts && s.attempts[i].Replied? ==> s.rows == [s.attempts[i].response])
            && (i in s.attempts && j in s.attempts && s.attempts[i].Replied? && s.attempts[j].Replied?
                ==> s.attempts[i].response == s.attempts[j].response)
  {
    RunKeepsInv(run);
  }

  /** The first response never changes as the run goes on. */
  lemma {:induction false} ResponsesArePermanent(run: seq<Op>, more: seq<Op>, i: nat)
    requires i in After(run).attempts && After(run).attempts[i].Replied?
    ensures After(run + more).rows == After(run).rows
    ensures i in After(run + more).attempts && After(run + more).attempts[i] == After(run).attempts[i]
  {
    if more == [] {
      assert run + more == run;
    } else {
      var rest := more[..|more| - 1];
      ResponsesArePermanent(run, rest, i);
      assert (run + more)[..|run + more| - 1] == run + rest;
      RunKeepsInv(run);
      RunKeepsInv(run + rest);
    }
  }

  /**
   * A failed attempt frees the key unless the delete was lost, leaves no row, and a retry
   * then succeeds in reserving it; a lost delete turns the retry away instead.
   */
  lemma FailureFreesTheKey(run: seq<Op>, i: nat, redis: Redis, retry: nat)
    requires At(After(run), i, Failing) && retry != i && At(After(run), retry, Started)
    ensures var s := Step(After(run), Delete(i, redis));
            && s.rows == []
            && (s.key == Absent <==> redis != Lost)
            && (At(Step(s, SetNx(retry, Fine)), retry, Reserved) <==> redis != Lost)
  {
    RunKeepsInv(run);
  }

  /** Once the response is stored it stays stored, whatever happens later. */
  lemma {:induction false} StoredIsPermanent(run: seq<Op>, more: seq<Op>)
    requires After(run).key.Stored?
    ensures After(run + more).key == After(run).key
  {
    if more == [] {
      assert run + more == run;
    } else {
      var rest := more[..|more| - 1];
      StoredIsPermanent(run, rest);
      assert (run + more)[..|run + more| - 1] == run + rest;
      RunKeepsInv(run + rest);
    }
  }

  /**
   * A duplicate that comes at any time after the response was stored is turned away from the work, and then
   * answered with that response exactly when its read gets through, else with a conflict. One that comes
   * while the first attempt is still at work is a conflict in any case.
   */
  lemma DuplicateIsAnswered(run: seq<Op>, more: seq<Op>, i: nat, setNx: Redis, get: Redis)
    requires var s := After(run + more); i !in s.attempts
    ensures var s := After(run + more);
            var s' := Step(Step(Step(s, Start(i)), SetNx(i, setNx)), Get(i, get));
            && (After(run).key.Stored? ==>
                  && s'.rows == s.rows && s'.key == After(run).key && i in s'.attempts
                  && s'.attempts[i] == if get == Fine then Replied(After(run).key.response) else Conflict)
            && (s.key == Pending ==>
                  s'.rows == s.rows && s'.key == Pending && i in s'.attempts && s'.attempts[i] == Conflict)
  {
    if After(run).key.Stored? { StoredIsPermanent(run, more); }
  }

  /** An attempt that reserves the key and meets no failure commits its row and answers with it, and stores that. */
  lemma FirstAttemptSucceeds(run: seq<Op>, i: nat, response: nat)
    requires i !in After(run).attempts && After(run).key == Absent
    ensures var s := Step(Step(Step(Step(After(run), Start(i)), SetNx(i, Fine)), Work(i, response)), Store(i, Fine));
            s == State(Stored(response), [response], After(run).attempts[i := Replied(response)])
  {
    RunKeepsInv(run);
  }

  /**
   * What a Redis failure does: a lost command leaves the key as it was, one that is applied takes effect
   * although it reports failure, and no attempt stores or frees a key before its work ended.
   */
  lemma FailuresOfRedis(s: State, i: nat, response: nat, redis: Redis)
    ensures At(s, i, Started) ==>
              Step(s, SetNx(i, redis)).key == if s.key == Absent && redis != Lost then Pending else s.key
    ensures At(s, i, Created(response)) ==>
              Step(s, Store(i, redis)) == s.(key := if redis == Lost then s.key else Stored(response),
                                             attempts := s.attempts[i := Replied(response)])
    ensures At(s, i, Failing) ==> Step(s, Delete(i, redis)).key == if redis == Lost then s.key else Absent
    ensures At(s, i, Reserved) ==> Step(s, Fail(i)) == s.(attempts := s.attempts[i := Failing])
    ensures !(i in s.attempts && (s.attempts[i] == Failing || s.attempts[i].Created?)) ==>
              Step(s, Store(i, redis)) == s && Step(s, Delete(i, redis)) == s
  {
  }
}
