/**
 * Refresh-token families: rotation with lineage, rescue of a lost response, and theft
 * detection. Hashes are injective, so a token stands for its own hash; one counter
 * supplies the fresh row ids, token ids and family ids.
 */
module TokenFamilies {
  import opened Prelude

  datatype Token = Token(user: nat, family: nat, jti: nat)

  datatype Row = Row(token: Token, expiresAt: int, isRevoked: bool, used: bool, replacedBy: Option<nat>)

  /** `flagged` and `grace` are the Redis keys; the rows are the database. */
  datatype State = State(rows: map<nat, Row>, next: nat, flagged: set<nat>, grace: set<Token>)

  const EMPTY := State(map[], 0, {}, {})

  /** What one refresh request meets: signature check, clock, account, database and Redis health, settings. */
  datatype Env = Env(
    jwtOk: bool, now: int, userActive: bool, tokenLookupOk: bool, successorLookupOk: bool, redisOk: bool,
    graceSeconds: int, ttl: nat)

  // ----- repository updates -----

  function Revoke(r: Row): Row {
    r.(isRevoked := true)
  }

  function RevokeFamily(rows: map<nat, Row>, family: nat): map<nat, Row> {
    map id | id in rows :: if rows[id].token.family == family then Revoke(rows[id]) else rows[id]
  }

  function RevokeUser(rows: map<nat, Row>, user: nat): map<nat, Row> {
    map id | id in rows :: if rows[id].token.user == user then Revoke(rows[id]) else rows[id]
  }

  function MarkRotated(rows: map<nat, Row>, id: nat, successor: nat): map<nat, Row>
    requires id in rows
  {
    rows[id := rows[id].(isRevoked := true, used := true, replacedBy := Some(successor))]
  }

  function FindByHash(rows: map<nat, Row>, t: Token): Option<nat> {
    if t.jti in rows && rows[t.jti].token == t then Some(t.jti) else None
  }

  // ----- the requests -----

  function Issue(s: State, user: nat, family: nat, from: Option<nat>, env: Env): (State, Option<Token>)
    requires from.Some? ==> from.value in s.rows
  {
    var t := Token(user, family, s.next);
    var created := s.rows[s.next := Row(t, env.now + env.ttl, false, false, None)];
    var rows := if from.Some? then MarkRotated(created, from.value, s.next) else created;
    (s.(rows := rows, next := s.next + 1), Some(t))
  }

  function Theft(s: State, family: nat): (State, Option<Token>) {
    (s.(rows := RevokeFamily(s.rows, family), flagged := s.flagged + {family}), None)
  }

  function Refresh(s: State, t: Token, env: Env): (State, Option<Token>) {
    if !env.jwtOk then (s, None)
    else if env.redisOk && t.family in s.flagged then (s, None)
    else
      var record := if env.tokenLookupOk then FindByHash(s.rows, t) else None;
      var graceActive := env.redisOk && t in s.grace;
      if (record.None? || s.rows[record.value].isRevoked) && graceActive then
        if env.userActive then Issue(s, t.user, t.family, record, env) else (s, None)
      else if record.None? then Theft(s, t.family)
      else
        var row := s.rows[record.value];
        if row.isRevoked then
          if row.replacedBy.Some? && row.expiresAt >= env.now
             && env.successorLookupOk && row.replacedBy.value in s.rows
             && !s.rows[row.replacedBy.value].used && !s.rows[row.replacedBy.value].isRevoked then
            var retired := s.(rows := s.rows[row.replacedBy.value := Revoke(s.rows[row.replacedBy.value])]);
            if env.userActive then Issue(retired, t.user, t.family, record, env) else (retired, None)
          else Theft(s, t.family)
        else if row.expiresAt < env.now then (s, None)
        else
          var windowed := if env.graceSeconds > 0 then s.(grace := s.grace + {t}) else s;
          if env.userActive then Issue(windowed, t.user, t.family, record, env) else (windowed, None)
  }

  datatype Op =
    | Login(user: nat, env: Env)
    | Present(token: Token, env: Env)                       // a refresh request
    | Logout(user: nat, sent: Option<Token>, jwtOk: bool)
    | ResetPassword(user: nat, endsSessions: bool)
    | FlagLost(family: nat)                                 // the Redis flag expires or is lost
    | GraceExpires(key: Token)
    | DeleteExpired(now: int)

  function Step(s: State, op: Op): State {
    match op
    case Login(user, env) => Issue(s, user, s.next, None, env).0
    case Present(t, env) => Refresh(s, t, env).0
    case Logout(user, t, jwtOk) =>
      if t.Some? && jwtOk then Theft(s, t.value.family).0
      else s.(rows := RevokeUser(s.rows, user))
    case ResetPassword(user, endsSessions) =>
      if endsSessions then s.(rows := RevokeUser(s.rows, user)) else s
    case FlagLost(family) => s.(flagged := s.flagged - {family})
    case GraceExpires(t) => s.(grace := s.grace - {t})
    case DeleteExpired(now) => s.(rows := map id | id in s.rows && s.rows[id].expiresAt >= now :: s.rows[id])
  }

  /** A signature vouches that the token was issued. */
  predicate Allowed(s: State, op: Op) {
    match op
    case Present(t, env) => env.jwtOk ==> Issued(s, t)
    case Logout(_, t, jwtOk) => t.Some? && jwtOk ==> Issued(s, t.value)
    case _ => true
  }

  /** The step opens no grace window. */
  predicate GraceOff(op: Op) {
    op.Present? ==> op.env.graceSeconds <= 0
  }

  predicate Issued(s: State, t: Token) {
    t.jti < s.next && t.family < s.next
  }

  function After(s: State, run: seq<Op>): State {
    if run == [] then s else Step(After(s, run[..|run| - 1]), run[|run| - 1])
  }

  predicate AllowedRun(s: State, run: seq<Op>) {
    run != [] ==> AllowedRun(s, run[..|run| - 1]) && Allowed(After(s, run[..|run| - 1]), run[|run| - 1])
  }

  predicate GraceOffRun(run: seq<Op>) {
    forall i :: 0 <= i < |run| ==> GraceOff(run[i])
  }

  // ----- the invariant of every run, whatever the grace window -----

  predicate Live(s: State, id: nat) {
    id in s.rows && !s.rows[id].isRevoked
  }

  predicate LiveIn(s: State, id: nat, family: nat) {
    Live(s, id) && s.rows[id].token.family == family
  }

  predicate Dead(s: State, family: nat) {
    forall id :: id in s.rows ==> !LiveIn(s, id, family)
  }

  /** Row `i` was replaced by row `k`. */
  predicate Points(s: State, i: nat, k: nat) {
    i in s.rows && s.rows[i].replacedBy == Some(k)
  }

  ghost predicate RowsInv(s: State) {
    && (forall id :: id in s.rows ==> id < s.next && s.rows[id].token.jti == id && s.rows[id].token.family < s.next)
    && (forall id :: Live(s, id) ==> !s.rows[id].used && s.rows[id].replacedBy.None?)
  }

  ghost predicate LinksInv(s: State) {
    && (forall i: nat, k: nat :: Points(s, i, k) ==>
          k < s.next && (k in s.rows ==> s.rows[k].token.family == s.rows[i].token.family))
    && (forall i: nat, j: nat, k: nat :: Points(s, i, k) && Points(s, j, k) ==> i == j)
  }

  ghost predicate Inv(s: State) {
    && RowsInv(s)
    && LinksInv(s)
    && (forall f :: f in s.flagged ==> f < s.next && Dead(s, f))
    && (forall t :: t in s.grace ==> Issued(s, t))
  }

  /** Some rows deleted, some revoked, nothing else. */
  predicate OnlyRevoked(rows: map<nat, Row>, rows': map<nat, Row>) {
    forall id :: id in rows' ==> id in rows && (rows'[id] == rows[id] || rows'[id] == Revoke(rows[id]))
  }

  lemma RevokingKeepsInv(s: State, rows': map<nat, Row>)
    requires Inv(s) && OnlyRevoked(s.rows, rows')
    ensures Inv(s.(rows := rows'))
  {
    var s' := s.(rows := rows');
    assert forall id :: Live(s', id) ==> Live(s, id);
    assert forall i: nat, k: nat :: Points(s', i, k) ==> Points(s, i, k);
    forall f | f in s.flagged ensures Dead(s', f) {
      assert forall id :: LiveIn(s', id, f) ==> LiveIn(s, id, f);
    }
  }

  /** The Redis keys may lose entries, and gain a flag of a dead family or a window of an issued token. */
  lemma KeysKeepInv(s: State, flagged: set<nat>, grace: set<Token>)
    requires Inv(s)
    requires forall f :: f in flagged ==> f in s.flagged || (f < s.next && Dead(s, f))
    requires forall t :: t in grace ==> t in s.grace || Issued(s, t)
    ensures Inv(s.(flagged := flagged, grace := grace))
  {
    var s' := s.(flagged := flagged, grace := grace);
    assert RowsInv(s') by { assert forall id :: Live(s', id) ==> Live(s, id); }
    assert LinksInv(s') by { assert forall i: nat, k: nat :: Points(s', i, k) ==> Points(s, i, k); }
    forall f | f in flagged ensures Dead(s', f) {
      assert Dead(s, f);
      assert forall id :: LiveIn(s', id, f) ==> LiveIn(s, id, f);
    }
  }

  lemma TheftKeepsInv(s: State, family: nat)
    requires Inv(s) && family < s.next
    ensures Inv(Theft(s, family).0) && Dead(Theft(s, family).0, family)
  {
    var s' := s.(rows := RevokeFamily(s.rows, family));
    RevokingKeepsInv(s, s'.rows);
    assert Dead(s', family);
    KeysKeepInv(s', s.flagged + {family}, s.grace);
  }

  lemma IssueKeepsInv(s: State, user: nat, family: nat, from: Option<nat>, env: Env)
    requires Inv(s) && family <= s.next && family !in s.flagged
    requires from.Some? ==> from.value in s.rows && s.rows[from.value].token.family == family
    ensures Inv(Issue(s, user, family, from, env).0)
  {
    var s' := Issue(s, user, family, from, env).0;
    assert forall id: nat :: Live(s', id) ==> id == s.next || (Live(s, id) && from != Some(id));
    IssueKeepsLinks(s, user, family, from, env);
    forall f | f in s.flagged ensures Dead(s', f) {
      assert Dead(s, f) && f != family;
      assert forall id: nat :: LiveIn(s', id, f) ==> LiveIn(s, id, f);
    }
  }

  lemma IssueKeepsLinks(s: State, user: nat, family: nat, from: Option<nat>, env: Env)
    requires RowsInv(s) && LinksInv(s)
    requires from.Some? ==> from.value in s.rows && s.rows[from.value].token.family == family
    ensures LinksInv(Issue(s, user, family, from, env).0)
  {
    var s' := Issue(s, user, family, from, env).0;
    forall i: nat, k: nat | Points(s', i, k)
      ensures (from == Some(i) && k == s.next) || (Points(s, i, k) && k < s.next && from != Some(i))
      ensures k in s'.rows ==> s'.rows[k].token.family == s'.rows[i].token.family
    {
      if from != Some(i) { assert Points(s, i, k); }
    }
  }

  // ----- the ways a refresh can go -----

  /** The token was rotated moments ago, and its window decides. */
  predicate InWindow(s: State, t: Token, env: Env) {
    && env.redisOk && t in s.grace
    && var record := if env.tokenLookupOk then FindByHash(s.rows, t) else None;
       record.None? || s.rows[record.value].isRevoked
  }

  /** The token's row was replaced by a row that is still live. */
  predicate PredecessorOfLive(s: State, t: Token) {
    FindByHash(s.rows, t).Some? && s.rows[t.jti].replacedBy.Some? && Live(s, s.rows[t.jti].replacedBy.value)
  }

  /** The state a refresh issues from: a window may have been opened, or an undelivered successor retired. */
  function Ready(s: State, t: Token, env: Env): State {
    if InWindow(s, t, env) || FindByHash(s.rows, t).None? then s
    else if !s.rows[t.jti].isRevoked then (if env.graceSeconds > 0 then s.(grace := s.grace + {t}) else s)
    else if PredecessorOfLive(s, t) then
      s.(rows := s.rows[s.rows[t.jti].replacedBy.value := Revoke(s.rows[s.rows[t.jti].replacedBy.value])])
    else s
  }

  /** An accepted refresh issues from a family that is not flagged. */
  lemma AcceptedIssues(s: State, t: Token, env: Env)
    requires Inv(s) && Refresh(s, t, env).1.Some?
    ensures env.jwtOk && env.userActive && t.family !in s.flagged
    ensures var record := if env.tokenLookupOk then FindByHash(s.rows, t) else None;
            && (record.None? ==> InWindow(s, t, env))
            && (record.Some? ==> record.value in Ready(s, t, env).rows)
            && Refresh(s, t, env) == Issue(Ready(s, t, env), t.user, t.family, record, env)
  {
    assert t.family in s.flagged ==> Dead(s, t.family);
    if FindByHash(s.rows, t).Some? && s.rows[t.jti].replacedBy.Some? {
      assert Points(s, t.jti, s.rows[t.jti].replacedBy.value);
    }
  }

  /** A refused refresh revokes rows, flags the family or opens a window, and nothing else. */
  lemma RefusedOnlyRevokes(s: State, t: Token, env: Env)
    requires Inv(s) && Allowed(s, Present(t, env)) && Refresh(s, t, env).1.None?
    ensures var s' := Refresh(s, t, env).0;
            && s'.next == s.next && OnlyRevoked(s.rows, s'.rows)
            && (s'.grace == s.grace
                || (s'.grace == s.grace + {t} && env.graceSeconds > 0 && Live(s, t.jti) && s.rows[t.jti].token == t))
            && (s'.flagged == s.flagged || (s'.flagged == s.flagged + {t.family} && Dead(s', t.family) && Issued(s, t)))
  {
  }

  lemma ReadyKeepsInv(s: State, t: Token, env: Env)
    requires Inv(s) && Issued(s, t)
    ensures Inv(Ready(s, t, env))
  {
    var s' := Ready(s, t, env);
    RevokingKeepsInv(s, s'.rows);
    KeysKeepInv(s.(rows := s'.rows), s.flagged, s'.grace);
  }

  lemma RefreshKeepsInv(s: State, t: Token, env: Env)
    requires Inv(s) && Allowed(s, Present(t, env))
    ensures Inv(Refresh(s, t, env).0)
  {
    var s' := Refresh(s, t, env).0;
    if Refresh(s, t, env).1.Some? {
      AcceptedIssues(s, t, env);
      ReadyKeepsInv(s, t, env);
      IssueKeepsInv(Ready(s, t, env), t.user, t.family, if env.tokenLookupOk then FindByHash(s.rows, t) else None, env);
    } else {
      RefusedOnlyRevokes(s, t, env);
      RevokingKeepsInv(s, s'.rows);
      KeysKeepInv(s.(rows := s'.rows), s'.flagged, s'.grace);
    }
  }

  lemma StepKeepsInv(s: State, op: Op)
    requires Inv(s) && Allowed(s, op)
    ensures Inv(Step(s, op))
  {
    match op
    case Login(user, env) => IssueKeepsInv(s, user, s.next, None, env);
    case Present(t, env) => RefreshKeepsInv(s, t, env);
    case Logout(user, t, jwtOk) =>
      if t.Some? && jwtOk { TheftKeepsInv(s, t.value.family); } else { RevokingKeepsInv(s, RevokeUser(s.rows, user)); }
    case ResetPassword(user, _) => RevokingKeepsInv(s, RevokeUser(s.rows, user));
    case DeleteExpired(_) => RevokingKeepsInv(s, Step(s, op).rows);
    case FlagLost(family) => KeysKeepInv(s, s.flagged - {family}, s.grace);
    case GraceExpires(t) => KeysKeepInv(s, s.flagged, s.grace - {t});
  }

  lemma {:induction false} RunKeepsInv(s: State, run: seq<Op>)
    requires Inv(s) && AllowedRun(s, run)
    ensures Inv(After(s, run))
  {
    if run != [] {
      RunKeepsInv(s, run[..|run| - 1]);
      StepKeepsInv(After(s, run[..|run| - 1]), run[|run| - 1]);
    }
  }

  // ----- one live row, while no window opens -----

  predicate OneLive(s: State) {
    forall i, j :: i in s.rows && j in s.rows && Live(s, i) && LiveIn(s, j, s.rows[i].token.family) ==> i == j
  }

  lemma IssueKeepsOneLive(s: State, user: nat, family: nat, from: Option<nat>, env: Env)
    requires RowsInv(s) && OneLive(s) && family <= s.next
    requires from.Some? ==> from.value in s.rows
    requires forall id: nat :: LiveIn(s, id, family) ==> from == Some(id)
    ensures OneLive(Issue(s, user, family, from, env).0)
  {
    var s' := Issue(s, user, family, from, env).0;
    assert forall id: nat :: Live(s', id) ==> id == s.next || (Live(s, id) && from != Some(id));
  }

  /** Outside a window the only row a refresh leaves live beside the new one is the presented token's own. */
  lemma ReadyHasNoOther(s: State, t: Token, env: Env, id: nat)
    requires Inv(s) && OneLive(s) && Refresh(s, t, env).1.Some? && !InWindow(s, t, env)
    requires LiveIn(Ready(s, t, env), id, t.family)
    ensures id == t.jti
  {
    AcceptedIssues(s, t, env);
    if s.rows[t.jti].isRevoked && PredecessorOfLive(s, t) { assert Points(s, t.jti, s.rows[t.jti].replacedBy.value); }
  }

  lemma RevokingKeepsOneLive(s: State, s': State)
    requires OneLive(s) && OnlyRevoked(s.rows, s'.rows)
    ensures OneLive(s')
  {
    assert forall id :: Live(s', id) ==> Live(s, id);
  }

  lemma RefreshKeepsOneLive(s: State, t: Token, env: Env)
    requires Inv(s) && Allowed(s, Present(t, env)) && OneLive(s) && !InWindow(s, t, env)
    ensures OneLive(Refresh(s, t, env).0)
  {
    if Refresh(s, t, env).1.Some? {
      AcceptedIssues(s, t, env);
      ReadyKeepsInv(s, t, env);
      RevokingKeepsOneLive(s, Ready(s, t, env));
      forall id: nat | LiveIn(Ready(s, t, env), id, t.family) ensures id == t.jti { ReadyHasNoOther(s, t, env, id); }
      IssueKeepsOneLive(Ready(s, t, env), t.user, t.family, Some(t.jti), env);
    } else {
      RefusedOnlyRevokes(s, t, env);
      RevokingKeepsOneLive(s, Refresh(s, t, env).0);
    }
  }

  lemma StepKeepsOneLive(s: State, op: Op)
    requires Inv(s) && Allowed(s, op) && GraceOff(op) && OneLive(s) && s.grace == {}
    ensures OneLive(Step(s, op))
  {
    match op
    case Login(user, env) => IssueKeepsOneLive(s, user, s.next, None, env);
    case Present(t, env) => RefreshKeepsOneLive(s, t, env);
    case _ => RevokingKeepsOneLive(s, Step(s, op));
  }

  lemma NoWindowOpens(s: State, op: Op)
    requires Inv(s) && Allowed(s, op) && GraceOff(op) && s.grace == {}
    ensures Step(s, op).grace == {}
  {
    if op.Present? {
      if Refresh(s, op.token, op.env).1.Some? { AcceptedIssues(s, op.token, op.env); }
      else { RefusedOnlyRevokes(s, op.token, op.env); }
    }
  }

  lemma {:induction false} NoWindowsInRun(s: State, run: seq<Op>)
    requires Inv(s) && AllowedRun(s, run) && GraceOffRun(run) && s.grace == {}
    ensures After(s, run).grace == {}
  {
    if run != [] {
      NoWindowsInRun(s, run[..|run| - 1]);
      RunKeepsInv(s, run[..|run| - 1]);
      NoWindowOpens(After(s, run[..|run| - 1]), run[|run| - 1]);
    }
  }

  lemma {:induction false} RunKeepsOneLive(run: seq<Op>)
    requires AllowedRun(EMPTY, run) && GraceOffRun(run)
    ensures OneLive(After(EMPTY, run))
  {
    if run != [] {
      RunKeepsOneLive(run[..|run| - 1]);
      NoWindowsInRun(EMPTY, run[..|run| - 1]);
      RunKeepsInv(EMPTY, run[..|run| - 1]);
      StepKeepsOneLive(After(EMPTY, run[..|run| - 1]), run[|run| - 1]);
    }
  }

  /** With the window off, in every run a family has at most one live row; and no row ever replaces two. */
  lemma OneLiveRowPerFamily(run: seq<Op>, i: nat, j: nat, k: nat)
    requires AllowedRun(EMPTY, run)
    ensures var s := After(EMPTY, run);
            && (GraceOffRun(run) && Live(s, i) && Live(s, j) && s.rows[i].token.family == s.rows[j].token.family ==>
                i == j)
            && (Points(s, i, k) && Points(s, j, k) ==> i == j)
  {
    RunKeepsInv(EMPTY, run);
    if GraceOffRun(run) { RunKeepsOneLive(run); }
  }

  // ----- which tokens are accepted -----

  /**
   * With healthy lookups, refresh accepts exactly the tokens inside their window, the live token and the
   * one it directly replaced, the last two unexpired.
   */
  lemma AcceptsExactly(s: State, t: Token, env: Env)
    requires Inv(s)
    requires env.jwtOk && env.userActive && env.tokenLookupOk && env.successorLookupOk
    ensures Refresh(s, t, env).1.Some?
       <==> || (InWindow(s, t, env) && t.family !in s.flagged)
            || (FindByHash(s.rows, t).Some? && s.rows[t.jti].expiresAt >= env.now
                && (Live(s, t.jti) || PredecessorOfLive(s, t)))
  {
    assert t.family in s.flagged ==> Dead(s, t.family);
    if FindByHash(s.rows, t).Some? && s.rows[t.jti].replacedBy.Some? {
      assert Points(s, t.jti, s.rows[t.jti].replacedBy.value);
    }
  }

  /** An accepted refresh leaves the new token live and, outside a window, the old one its direct predecessor. */
  lemma AcceptedRotates(s: State, t: Token, env: Env, id: nat)
    requires Inv(s) && Allowed(s, Present(t, env)) && Refresh(s, t, env).1.Some?
    ensures var (s', r) := Refresh(s, t, env);
            && r.value.family == t.family && r.value.user == t.user
            && FindByHash(s'.rows, r.value).Some? && Live(s', r.value.jti)
            && s'.rows[r.value.jti] == Row(r.value, env.now + env.ttl, false, false, None)
            && (!InWindow(s, t, env) ==>
                  && PredecessorOfLive(s', t)
                  && s'.rows[t.jti] == Row(t, s.rows[t.jti].expiresAt, true, true, Some(r.value.jti)))
            && (!InWindow(s, t, env) && OneLive(s) ==> (LiveIn(s', id, t.family) <==> id == r.value.jti))
  {
    AcceptedIssues(s, t, env);
    RefreshKeepsInv(s, t, env);
    if !InWindow(s, t, env) && OneLive(s) { RefreshKeepsOneLive(s, t, env); }
  }

  // ----- theft -----

  /**
   * Presenting a revoked or unknown token, outside its window, that is not the unexpired predecessor of a
   * live one ends the family.
   */
  lemma StrangerEndsFamily(s: State, t: Token, env: Env)
    requires Inv(s) && Allowed(s, Present(t, env)) && env.jwtOk && !InWindow(s, t, env)
    requires FindByHash(s.rows, t).Some? ==>
               s.rows[t.jti].isRevoked && (!PredecessorOfLive(s, t) || s.rows[t.jti].expiresAt < env.now)
    ensures Refresh(s, t, env).1.None? && Dead(Refresh(s, t, env).0, t.family)
  {
  }

  /** With the lookup of the token, or of a revoked token's successor, failed, the request counts as theft. */
  lemma FailedLookupEndsFamily(s: State, t: Token, env: Env)
    requires Inv(s) && Allowed(s, Present(t, env)) && env.jwtOk && !(env.redisOk && t.family in s.flagged)
    requires !(env.redisOk && t in s.grace)
    requires !env.tokenLookupOk || (FindByHash(s.rows, t).Some? && s.rows[t.jti].isRevoked && !env.successorLookupOk)
    ensures Refresh(s, t, env).1.None? && Dead(Refresh(s, t, env).0, t.family)
    ensures t.family in Refresh(s, t, env).0.flagged
  {
  }

  /** A flag or a window that Redis loses is gone, and nothing else is. */
  lemma KeysExpire(s: State, family: nat, t: Token, env: Env)
    ensures !InWindow(Step(s, GraceExpires(t)), t, env) && family !in Step(s, FlagLost(family)).flagged
    ensures forall x :: x != t ==> (x in Step(s, GraceExpires(t)).grace <==> x in s.grace)
    ensures forall f :: f != family ==> (f in Step(s, FlagLost(family)).flagged <==> f in s.flagged)
    ensures Step(s, GraceExpires(t)) == s.(grace := Step(s, GraceExpires(t)).grace)
    ensures Step(s, FlagLost(family)) == s.(flagged := Step(s, FlagLost(family)).flagged)
  {
  }

  /** No token of the family is inside its window. */
  predicate WindowsClosed(s: State, family: nat) {
    forall t :: t in s.grace ==> t.family != family
  }

  /** A family without a live row yields a token exactly to a token still inside its window, while not flagged. */
  lemma DeadYieldsIff(s: State, t: Token, env: Env)
    requires Inv(s) && Dead(s, t.family)
    ensures Refresh(s, t, env).1.Some?
       <==> env.jwtOk && env.redisOk && t.family !in s.flagged && t in s.grace && env.userActive
  {
    if FindByHash(s.rows, t).Some? && s.rows[t.jti].replacedBy.Some? {
      assert Points(s, t.jti, s.rows[t.jti].replacedBy.value);
    }
  }

  lemma DeadStaysDead(s: State, op: Op, family: nat)
    requires Inv(s) && Allowed(s, op) && family < s.next && Dead(s, family) && WindowsClosed(s, family)
    ensures Dead(Step(s, op), family) && family < Step(s, op).next && WindowsClosed(Step(s, op), family)
  {
    var s' := Step(s, op);
    if op.Present? {
      if Refresh(s, op.token, op.env).1.Some? {
        AcceptedIssues(s, op.token, op.env);
        if op.token.family == family { DeadYieldsIff(s, op.token, op.env); }
      } else {
        RefusedOnlyRevokes(s, op.token, op.env);
        assert op.token.family == family ==> !LiveIn(s, op.token.jti, family);
      }
    }
    forall id | id in s'.rows ensures !LiveIn(s', id, family) {
      assert !LiveIn(s, id, family);
    }
  }

  lemma {:induction false} DeadAfterRun(s: State, run: seq<Op>, family: nat)
    requires Inv(s) && AllowedRun(s, run) && family < s.next && Dead(s, family) && WindowsClosed(s, family)
    ensures Dead(After(s, run), family) && family < After(s, run).next && WindowsClosed(After(s, run), family)
  {
    if run != [] {
      DeadAfterRun(s, run[..|run| - 1], family);
      RunKeepsInv(s, run[..|run| - 1]);
      DeadStaysDead(After(s, run[..|run| - 1]), run[|run| - 1], family);
    }
  }

  /** Some run and some request get a token for the family. */
  ghost predicate CanYield(s: State, family: nat) {
    exists run: seq<Op>, t: Token, env: Env :: Yields(s, run, t, env, family)
  }

  predicate Yields(s: State, run: seq<Op>, t: Token, env: Env, family: nat) {
    && AllowedRun(s, run) && t.family == family && Allowed(After(s, run), Present(t, env))
    && Refresh(After(s, run), t, env).1.Some?
  }

  /**
   * Once a family has no live row, no run ever yields another token for it, even with flags lost and new
   * windows opened elsewhere, exactly when none of its own tokens is still inside its window.
   */
  lemma DeadForeverIff(s: State, family: nat)
    requires Inv(s) && family < s.next && Dead(s, family)
    ensures !CanYield(s, family) <==> WindowsClosed(s, family)
  {
    if WindowsClosed(s, family) {
      forall run: seq<Op>, t: Token, env: Env ensures !Yields(s, run, t, env, family) {
        if AllowedRun(s, run) && t.family == family {
          DeadAfterRun(s, run, family);
          RunKeepsInv(s, run);
          DeadYieldsIff(After(s, run), t, env);
        }
      }
    } else {
      var t :| t in s.grace && t.family == family;
      var env := Env(true, 0, true, true, true, true, 0, 1);
      var run := [FlagLost(family)];
      assert run[..0] == [];
      var s1 := s.(flagged := s.flagged - {family});
      assert After(s, run) == Step(After(s, []), FlagLost(family)) == s1;
      StepKeepsInv(s, FlagLost(family));
      assert forall id :: LiveIn(s1, id, family) ==> LiveIn(s, id, family);
      DeadYieldsIff(s1, t, env);
      assert Yields(s, run, t, env, family);
    }
  }

  /** Logout with a valid token, and a reset that ends sessions, leave nothing live to refresh. */
  lemma SignOutEndsFamilies(s: State, op: Op, family: nat)
    requires match op
             case Logout(user, t, jwtOk) =>
               if t.Some? && jwtOk then t.value.family == family
               else forall id :: LiveIn(s, id, family) ==> s.rows[id].token.user == user
             case ResetPassword(user, endsSessions) =>
               endsSessions && forall id :: LiveIn(s, id, family) ==> s.rows[id].token.user == user
             case _ => false
    ensures Dead(Step(s, op), family)
  {
    var s' := Step(s, op);
    forall id | id in s'.rows ensures !LiveIn(s', id, family) {
      assert LiveIn(s', id, family) ==> LiveIn(s, id, family);
    }
  }

  // ----- what a request leaves alone -----

  /**
   * Signing a user out everywhere revokes that user's rows and no other: each row of another user is as it
   * was, each of this user's is revoked and otherwise as it was, and no key of Redis changes. A reset that
   * does not end sessions changes nothing.
   */
  lemma SignOutSparesOtherUsers(s: State, user: nat, sent: Option<Token>, jwtOk: bool)
    requires sent.Some? ==> !jwtOk
    ensures Step(s, ResetPassword(user, true)) == Step(s, Logout(user, sent, jwtOk))
    ensures Step(s, ResetPassword(user, false)) == s
    ensures var s' := Step(s, Logout(user, sent, jwtOk));
            && s'.next == s.next && s'.flagged == s.flagged && s'.grace == s.grace && s'.rows.Keys == s.rows.Keys
            && (forall id :: id in s.rows && s.rows[id].token.user != user ==> s'.rows[id] == s.rows[id])
            && (forall id :: id in s.rows && s.rows[id].token.user == user ==>
                  s'.rows[id] == s.rows[id].(isRevoked := true))
  {
  }

  /** A logout with a valid token revokes that token's family, flags it, and leaves every other family's rows. */
  lemma LogoutSparesOtherFamilies(s: State, user: nat, t: Token)
    ensures var s' := Step(s, Logout(user, Some(t), true));
            && s'.next == s.next && s'.grace == s.grace && s'.rows.Keys == s.rows.Keys
            && (forall f :: f in s'.flagged <==> f in s.flagged || f == t.family)
            && (forall id :: id in s.rows && s.rows[id].token.family != t.family ==> s'.rows[id] == s.rows[id])
            && (forall id :: id in s.rows && s.rows[id].token.family == t.family ==>
                  s'.rows[id] == s.rows[id].(isRevoked := true))
  {
  }

  /** The nightly clean-up deletes the expired rows, and only those. */
  lemma CleanUpDeletesExpired(s: State, now: int)
    ensures var s' := Step(s, DeleteExpired(now));
            && s' == s.(rows := s'.rows)
            && (forall id :: id in s'.rows <==> id in s.rows && s.rows[id].expiresAt >= now)
            && (forall id :: id in s'.rows ==> s'.rows[id] == s.rows[id])
  {
  }

  predicate RowOf(s: State, id: nat, family: nat) {
    id in s.rows && s.rows[id].token.family == family
  }

  /** Both states agree on everything about the family: its rows, its flag, its windows. */
  ghost predicate SameFamily(s: State, s': State, family: nat) {
    && (forall id: nat :: RowOf(s, id, family) <==> RowOf(s', id, family))
    && (forall id: nat :: RowOf(s, id, family) && RowOf(s', id, family) ==> s'.rows[id] == s.rows[id])
    && (family in s.flagged <==> family in s'.flagged)
    && (forall t: Token :: t.family == family ==> (t in s.grace <==> t in s'.grace))
  }

  /** The step names the family, its user where no token says which family, or a time past one of its rows. */
  ghost predicate Names(s: State, op: Op, user: nat, family: nat) {
    match op
    case Login(_, _) => false
    case Present(t, _) => t.family == family
    case Logout(who, sent, jwtOk) => if sent.Some? && jwtOk then sent.value.family == family else who == user
    case ResetPassword(who, endsSessions) => endsSessions && who == user
    case FlagLost(f) => f == family
    case GraceExpires(t) => t.family == family
    case DeleteExpired(now) => exists id :: RowOf(s, id, family) && s.rows[id].expiresAt < now
  }

  predicate OwnedBy(s: State, family: nat, user: nat) {
    forall id :: id in s.rows && s.rows[id].token.family == family ==> s.rows[id].token.user == user
  }

  lemma IssueLeavesOthers(s: State, user: nat, other: nat, from: Option<nat>, env: Env, family: nat)
    requires RowsInv(s) && family != other
    requires from.Some? ==> from.value in s.rows && s.rows[from.value].token.family == other
    ensures SameFamily(s, Issue(s, user, other, from, env).0, family)
  {
  }

  lemma PresentLeavesOthers(s: State, t: Token, env: Env, family: nat)
    requires Inv(s) && Allowed(s, Present(t, env)) && t.family != family
    ensures SameFamily(s, Refresh(s, t, env).0, family)
  {
    if FindByHash(s.rows, t).Some? && s.rows[t.jti].replacedBy.Some? {
      assert Points(s, t.jti, s.rows[t.jti].replacedBy.value);
    }
    if Refresh(s, t, env).1.Some? {
      AcceptedIssues(s, t, env);
      ReadyKeepsInv(s, t, env);
      assert SameFamily(s, Ready(s, t, env), family);
      IssueLeavesOthers(Ready(s, t, env), t.user, t.family,
                        if env.tokenLookupOk then FindByHash(s.rows, t) else None, env, family);
    }
  }

  lemma StepLeavesOthers(s: State, op: Op, user: nat, family: nat)
    requires Inv(s) && Allowed(s, op) && family < s.next && OwnedBy(s, family, user) && !Names(s, op, user, family)
    ensures SameFamily(s, Step(s, op), family)
  {
    match op
    case Login(who, env) => IssueLeavesOthers(s, who, s.next, None, env, family);
    case Present(t, env) => PresentLeavesOthers(s, t, env, family);
    case DeleteExpired(now) =>
      forall id: nat | RowOf(s, id, family) ensures s.rows[id].expiresAt >= now {}
    case _ =>
  }

  lemma SameFamilyNames(s: State, s': State, op: Op, user: nat, family: nat)
    requires SameFamily(s, s', family)
    ensures Names(s, op, user, family) <==> Names(s', op, user, family)
    ensures OwnedBy(s, family, user) <==> OwnedBy(s', family, user)
  {
    if op.DeleteExpired? {
      if Names(s, op, user, family) {
        var id :| RowOf(s, id, family) && s.rows[id].expiresAt < op.now;
        assert RowOf(s', id, family);
      }
      if Names(s', op, user, family) {
        var id :| RowOf(s', id, family) && s'.rows[id].expiresAt < op.now;
        assert RowOf(s, id, family);
      }
    }
    assert OwnedBy(s, family, user) <==> forall id :: RowOf(s, id, family) ==> s.rows[id].token.user == user;
    assert OwnedBy(s', family, user) <==> forall id :: RowOf(s', id, family) ==> s'.rows[id].token.user == user;
  }

  lemma SameFamilyTrans(a: State, b: State, c: State, family: nat)
    requires SameFamily(a, b, family) && SameFamily(b, c, family)
    ensures SameFamily(a, c, family)
  {
  }

  /** A family is decided by its own rows, flag and windows. */
  lemma SameFamilyYields(s: State, s': State, t: Token, env: Env)
    requires Inv(s) && Inv(s') && SameFamily(s, s', t.family)
    ensures Refresh(s', t, env).1.Some? <==> Refresh(s, t, env).1.Some?
  {
    assert RowOf(s, t.jti, t.family) <==> RowOf(s', t.jti, t.family);
    if FindByHash(s.rows, t).Some? && s.rows[t.jti].replacedBy.Some? {
      var k := s.rows[t.jti].replacedBy.value;
      assert Points(s, t.jti, k) && Points(s', t.jti, k);
      assert RowOf(s, k, t.family) <==> RowOf(s', k, t.family);
    }
  }

  lemma {:induction false} RunLeavesOthers(s: State, run: seq<Op>, user: nat, family: nat)
    requires Inv(s) && AllowedRun(s, run) && family < s.next && OwnedBy(s, family, user)
    requires forall k :: 0 <= k < |run| ==> !Names(s, run[k], user, family)
    ensures SameFamily(s, After(s, run), family) && s.next <= After(s, run).next
  {
    if run != [] {
      var n := |run| - 1;
      var before := After(s, run[..n]);
      RunLeavesOthers(s, run[..n], user, family);
      RunKeepsInv(s, run[..n]);
      SameFamilyNames(s, before, run[n], user, family);
      assert !Names(s, run[n], user, family);
      StepLeavesOthers(before, run[n], user, family);
      SameFamilyTrans(s, before, After(s, run), family);
      NextGrows(before, run[n]);
    }
  }

  lemma NextGrows(s: State, op: Op)
    requires Inv(s) && Allowed(s, op)
    ensures s.next <= Step(s, op).next
  {
  }

  /**
   * Whatever other users and other families do, a session goes on: after any run in which no step names the
   * token's user or family, nothing of its family has changed and the token is accepted exactly when it was.
   */
  lemma OthersKeepTheirSession(s: State, run: seq<Op>, t: Token, env: Env)
    requires Inv(s) && AllowedRun(s, run) && Issued(s, t) && OwnedBy(s, t.family, t.user)
    requires forall k :: 0 <= k < |run| ==> !Names(s, run[k], t.user, t.family)
    ensures SameFamily(s, After(s, run), t.family)
    ensures Refresh(After(s, run), t, env).1.Some? <==> Refresh(s, t, env).1.Some?
  {
    RunLeavesOthers(s, run, t.user, t.family);
    RunKeepsInv(s, run);
    SameFamilyYields(s, After(s, run), t, env);
  }

  // ----- two holders of one rotation -----

  /** Neither live, nor the predecessor of a live row, nor inside its window. */
  predicate Spent(s: State, t: Token) {
    && Issued(s, t) && t !in s.grace
    && (FindByHash(s.rows, t).Some? ==> s.rows[t.jti].isRevoked)
    && !PredecessorOfLive(s, t)
  }

  lemma RevokingKeepsSpent(s: State, s': State, t: Token)
    requires Spent(s, t) && OnlyRevoked(s.rows, s'.rows) && s'.next == s.next && t !in s'.grace
    ensures Spent(s', t)
  {
  }

  lemma IssueKeepsSpent(s: State, user: nat, family: nat, from: Option<nat>, env: Env, t: Token)
    requires RowsInv(s) && LinksInv(s) && Spent(s, t)
    requires from.Some? ==> from.value in s.rows && (from.value != t.jti || FindByHash(s.rows, t).None?)
    ensures Spent(Issue(s, user, family, from, env).0, t)
  {
    if FindByHash(s.rows, t).Some? && s.rows[t.jti].replacedBy.Some? {
      assert Points(s, t.jti, s.rows[t.jti].replacedBy.value);
    }
  }

  lemma SpentIsRefused(s: State, t: Token, env: Env)
    requires Inv(s) && Spent(s, t)
    ensures Refresh(s, t, env).1.None?
  {
  }

  lemma RefreshKeepsSpent(s: State, x: Token, env: Env, t: Token)
    requires Inv(s) && Allowed(s, Present(x, env)) && Spent(s, t)
    ensures Spent(Refresh(s, x, env).0, t)
  {
    var s' := Refresh(s, x, env).0;
    if Refresh(s, x, env).1.None? {
      RefusedOnlyRevokes(s, x, env);
      RevokingKeepsSpent(s, s', t);
    } else {
      AcceptedIssues(s, x, env);
      if x == t { SpentIsRefused(s, t, env); }
      ReadyKeepsInv(s, x, env);
      RevokingKeepsSpent(s, Ready(s, x, env), t);
      IssueKeepsSpent(Ready(s, x, env), x.user, x.family, if env.tokenLookupOk then FindByHash(s.rows, x)
          else None, env, t);
    }
  }

  lemma SpentStaysSpent(s: State, op: Op, t: Token)
    requires Inv(s) && Allowed(s, op) && Spent(s, t)
    ensures Spent(Step(s, op), t)
  {
    match op
    case Present(x, env) => RefreshKeepsSpent(s, x, env, t);
    case Login(user, env) => IssueKeepsSpent(s, user, s.next, None, env, t);
    case _ => RevokingKeepsSpent(s, Step(s, op), t);
  }

  /** A spent token is refused in every run, whatever windows other tokens open. */
  lemma {:induction false} SpentForever(s: State, run: seq<Op>, t: Token, env: Env)
    requires Inv(s) && AllowedRun(s, run) && Spent(s, t)
    ensures Spent(After(s, run), t) && Refresh(After(s, run), t, env).1.None?
  {
    RunKeepsInv(s, run);
    if run != [] {
      SpentForever(s, run[..|run| - 1], t, env);
      RunKeepsInv(s, run[..|run| - 1]);
      SpentStaysSpent(After(s, run[..|run| - 1]), run[|run| - 1], t);
    }
    SpentIsRefused(After(s, run), t, env);
  }

  /**
   * Two holders of tokens from one rotation cannot both keep refreshing. Once either of `a` and its
   * replacement `b`, both outside their windows, has been accepted, presenting the other at any later time
   * yields nothing and ends the family; and with the family's windows closed, as they always are while
   * the window is off, no run yields for it again.
   */
  lemma ForkIsFatal(s: State, a: Token, b: Token, first: Token, env1: Env, run: seq<Op>, env2: Env)
    requires Inv(s) && FindByHash(s.rows, a).Some? && FindByHash(s.rows, b).Some?
    requires s.rows[a.jti].replacedBy == Some(b.jti) && Live(s, b.jti) && a !in s.grace && b !in s.grace
    requires first == a || first == b
    requires Allowed(s, Present(first, env1)) && Refresh(s, first, env1).1.Some?
    requires AllowedRun(Refresh(s, first, env1).0, run)
    requires var other := if first == a then b else a;
             env2.jwtOk && Allowed(After(Refresh(s, first, env1).0, run), Present(other, env2))
    ensures var other := if first == a then b else a;
            var (s3, r) := Refresh(After(Refresh(s, first, env1).0, run), other, env2);
            && r.None?
            && Dead(s3, a.family)
            && (WindowsClosed(s3, a.family) ==> !CanYield(s3, a.family))
            && (s.grace == {} && env1.graceSeconds <= 0 && GraceOffRun(run) ==> !CanYield(s3, a.family))
  {
    var other := if first == a then b else a;
    var s1 := Refresh(s, first, env1).0;
    RefreshKeepsInv(s, first, env1);
    OtherIsSpent(s, a, b, first, env1);
    SpentForever(s1, run, other, env2);
    RunKeepsInv(s1, run);
    var s2 := After(s1, run);
    StrangerEndsFamily(s2, other, env2);
    RefreshKeepsInv(s2, other, env2);
    RefusedOnlyRevokes(s2, other, env2);
    if s.grace == {} && env1.graceSeconds <= 0 && GraceOffRun(run) {
      NoWindowOpens(s, Present(first, env1));
      NoWindowsInRun(s1, run);
      assert s2.grace == {};
    }
    DeadForeverIff(Refresh(s2, other, env2).0, a.family);
  }

  lemma OtherIsSpent(s: State, a: Token, b: Token, first: Token, env: Env)
    requires Inv(s) && FindByHash(s.rows, a).Some? && FindByHash(s.rows, b).Some?
    requires s.rows[a.jti].replacedBy == Some(b.jti) && Live(s, b.jti) && a !in s.grace && b !in s.grace
    requires first == a || first == b
    requires Allowed(s, Present(first, env)) && Refresh(s, first, env).1.Some?
    ensures b.family == a.family && a != b
    ensures Spent(Refresh(s, first, env).0, if first == a then b else a)
  {
    assert Points(s, a.jti, b.jti);
    AcceptedIssues(s, first, env);
  }

  // ----- what the grace window allows -----

  /** With the window open, the same token sent twice is answered twice, and two rows of the family are live. */
  lemma GraceAllowsTwoLiveRows(s: State, t: Token, env: Env)
    requires Inv(s) && FindByHash(s.rows, t).Some? && Live(s, t.jti) && s.rows[t.jti].expiresAt >= env.now
    requires env.jwtOk && env.userActive && env.tokenLookupOk && env.redisOk && env.graceSeconds > 0
    ensures var (s1, r1) := Refresh(s, t, env);
            var (s2, r2) := Refresh(s1, t, env);
            && r1.Some? && r2.Some? && r1 != r2
            && LiveIn(s2, r1.value.jti, t.family) && LiveIn(s2, r2.value.jti, t.family)
  {
    assert t.family in s.flagged ==> Dead(s, t.family);
  }

  /**
   * A reset that ends sessions, or a logout without a token, flags nothing: a token rotated moments
   * before brings the ended family back while its window is open.
   */
  lemma GraceRevivesEndedFamily(s: State, t: Token, env: Env, out: Op, later: Env)
    requires Inv(s) && FindByHash(s.rows, t).Some? && Live(s, t.jti) && s.rows[t.jti].expiresAt >= env.now
    requires env.jwtOk && env.userActive && env.tokenLookupOk && env.redisOk && env.graceSeconds > 0
    requires forall id :: LiveIn(s, id, t.family) ==> s.rows[id].token.user == t.user
    requires out == ResetPassword(t.user, true) || (out.Logout? && out.user == t.user && out.sent.None?)
    requires later.jwtOk && later.redisOk && later.userActive
    ensures var s1 := Step(Step(s, Present(t, env)), out);
            Dead(s1, t.family) && Refresh(s1, t, later).1.Some?
  {
    assert t.family in s.flagged ==> Dead(s, t.family);
    RefreshKeepsInv(s, t, env);
    var mid := Refresh(s, t, env).0;
    forall id | LiveIn(mid, id, t.family) ensures mid.rows[id].token.user == t.user {
      if id != s.next { assert LiveIn(s, id, t.family); }
    }
    SignOutEndsFamilies(mid, out, t.family);
    StepKeepsInv(mid, out);
    DeadYieldsIff(Step(mid, out), t, later);
  }

  // ----- the service object -----

  class Sessions {
    var rows: map<nat, Row>
    var next: nat
    var flagged: set<nat>
    var grace: set<Token>

    function Abs(): State
      reads this
    {
      State(rows, next, flagged, grace)
    }

    constructor ()
      ensures Abs() == EMPTY
    {
      rows, next, flagged, grace := map[], 0, {}, {};
    }

    method IssueTokens(user: nat, family: nat, rotatedFrom: Option<nat>, env: Env) returns (t: Option<Token>)
      requires rotatedFrom.Some? ==> rotatedFrom.value in rows
      modifies this
      ensures (Abs(), t) == Issue(old(Abs()), user, family, rotatedFrom, env)
    {
      var created := next;
      var token := Token(user, family, created);
      rows := rows[created := Row(token, env.now + env.ttl, false, false, None)];
      next := next + 1;
      if rotatedFrom.Some? {
        rows := MarkRotated(rows, rotatedFrom.value, created);
      }
      return Some(token);
    }

    method SignIn(user: nat, env: Env) returns (t: Option<Token>)
      modifies this
      ensures Abs() == Step(old(Abs()), Login(user, env)) && t.Some? && t.value.user == user
    {
      t := IssueTokens(user, next, None, env);
    }

    method EndFamily(family: nat)
      modifies this
      ensures Abs() == Theft(old(Abs()), family).0
    {
      rows := RevokeFamily(rows, family);
      flagged := flagged + {family};
    }

    method RefreshTokens(t: Token, env: Env) returns (r: Option<Token>)
      modifies this
      ensures (Abs(), r) == Refresh(old(Abs()), t, env)
    {
      if !env.jwtOk {
        return None;
      }
      if env.redisOk && t.family in flagged {
        return None;
      }
      var record := if env.tokenLookupOk then FindByHash(rows, t) else None;
      var graceActive := env.redisOk && t in grace;
      if (record.None? || rows[record.value].isRevoked) && graceActive {
        if !env.userActive {
          return None;
        }
        r := IssueTokens(t.user, t.family, record, env);
        return;
      }
      if record.None? {
        EndFamily(t.family);
        return None;
      }
      var row := rows[record.value];
      if row.isRevoked {
        if row.replacedBy.Some? && row.expiresAt >= env.now {
          var successor := row.replacedBy.value;
          if env.successorLookupOk && successor in rows && !rows[successor].used && !rows[successor].isRevoked {
            rows := rows[successor := Revoke(rows[successor])];
            if !env.userActive {
              return None;
            }
            r := IssueTokens(t.user, t.family, record, env);
            return;
          }
        }
        EndFamily(t.family);
        return None;
      }
      if row.expiresAt < env.now {
        return None;
      }
      if env.graceSeconds > 0 {
        grace := grace + {t};
      }
      if !env.userActive {
        return None;
      }
      r := IssueTokens(t.user, t.family, record, env);
    }

    method SignOut(user: nat, t: Option<Token>, jwtOk: bool)
      modifies this
      ensures Abs() == Step(old(Abs()), Logout(user, t, jwtOk))
    {
      if t.Some? {
        if jwtOk {
          EndFamily(t.value.family);
        } else {
          rows := RevokeUser(rows, user);
        }
      } else {
        rows := RevokeUser(rows, user);
      }
    }
  }
}
