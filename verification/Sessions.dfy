/** Sessions of logged-in players: two tables that have to agree. */
module Sessions {
  import opened Common

  datatype Session = Session(id: nat, playerId: string, account: string, connectionId: nat,
                             createdAt: int, lastSeenAt: int, tokenExpiresAt: int)

  /** What a valid token says. */
  datatype Claims = Claims(playerId: string, account: string, expiresAt: int)

  datatype State = State(nextId: nat, sessions: map<nat, Session>, byPlayer: map<string, nat>)

  const EMPTY := State(1, map[], map[])

  // ---------- locked blocks ----------

  function NewSession(s: State, claims: Claims, connection: nat, now: int): Session {
    Session(s.nextId, claims.playerId, claims.account, connection, now, now, claims.expiresAt)
  }

  function Refreshed(x: Session, claims: Claims, connection: nat, now: int): Session {
    x.(account := claims.account, connectionId := connection, lastSeenAt := now, tokenExpiresAt := claims.expiresAt)
  }

  /** `None` when the player's entry leads to no session, where the lookup would throw. */
  function Upsert(s: State, claims: Claims, connection: nat, now: int): Option<(State, Session)> {
    var p := claims.playerId;
    if p in s.byPlayer then
      if s.byPlayer[p] !in s.sessions then None
      else
        var x := Refreshed(s.sessions[s.byPlayer[p]], claims, connection, now);
        Some((s.(sessions := s.sessions[s.byPlayer[p] := x]), x))
    else
      var x := NewSession(s, claims, connection, now);
      Some((State(s.nextId + 1, s.sessions[x.id := x], s.byPlayer[p := x.id]), x))
  }

  function Touch(s: State, id: nat, now: int): State {
    if id !in s.sessions then s else s.(sessions := s.sessions[id := s.sessions[id].(lastSeenAt := now)])
  }

  function Close(s: State, id: nat): State {
    if id !in s.sessions then s
    else s.(sessions := s.sessions - {id}, byPlayer := s.byPlayer - {s.sessions[id].playerId})
  }

  /** Idle for too long by the steady clock, or past the token by the wall clock. */
  predicate IsExpired(x: Session, timeout: int, now: int, wall: int) {
    now - x.lastSeenAt > timeout || wall >= x.tokenExpiresAt
  }

  /** The sweep reads the wall clock anew for each session: `wall` tells what it read. */
  predicate Goes(s: State, id: nat, timeout: int, now: int, wall: nat -> int) {
    id in s.sessions && IsExpired(s.sessions[id], timeout, now, wall(id))
  }

  /** Exactly the expired sessions go, with exactly their players' entries. */
  function Sweep(s: State, timeout: int, now: int, wall: nat -> int): State {
    s.(sessions := map id | id in s.sessions && !Goes(s, id, timeout, now, wall) :: s.sessions[id],
       byPlayer := s.byPlayer - set id | id in s.sessions && Goes(s, id, timeout, now, wall) :: s.sessions[id].playerId)
  }

  function FindByPlayer(s: State, p: string): Option<Session> {
    if p !in s.byPlayer || s.byPlayer[p] !in s.sessions then None else Some(s.sessions[s.byPlayer[p]])
  }

  // ---------- runs ----------

  datatype Op =
    | Login(claims: Claims, connection: nat, now: int)
    | TouchOp(id: nat, now: int)
    | CloseOp(id: nat)
    | SweepOp(timeout: int, now: int, wall: nat -> int)

  function Step(s: State, op: Op): State {
    match op
    case Login(claims, connection, now) =>
      (match Upsert(s, claims, connection, now) case Some(r) => r.0 case None => s)
    case TouchOp(id, now) => Touch(s, id, now)
    case CloseOp(id) => Close(s, id)
    case SweepOp(timeout, now, wall) => Sweep(s, timeout, now, wall)
  }

  ghost function After(s: State, ops: seq<Op>): State
    decreases |ops|
  {
    if |ops| == 0 then s else After(Step(s, ops[0]), ops[1..])
  }

  /** The two tables are inverse to each other, and ids are not yet handed out from
      `nextId` on. */
  ghost predicate Inv(s: State) {
    && (forall id :: id in s.sessions ==>
          && s.sessions[id].id == id && 1 <= id < s.nextId
          && s.sessions[id].playerId in s.byPlayer && s.byPlayer[s.sessions[id].playerId] == id)
    && (forall p :: p in s.byPlayer ==> s.byPlayer[p] in s.sessions && s.sessions[s.byPlayer[p]].playerId == p)
    && s.nextId >= 1
  }

  /** From one state to a later one, sessions that remain are still the same player's,
      created when they were, and ids of sessions that were gone do not come back. */
  ghost predicate Follows(s: State, s': State) {
    && s.nextId <= s'.nextId
    && forall id :: id in s'.sessions && id < s.nextId ==>
         id in s.sessions && s'.sessions[id].playerId == s.sessions[id].playerId
         && s'.sessions[id].createdAt == s.sessions[id].createdAt
  }

  lemma SweepKeeps(s: State, timeout: int, now: int, wall: nat -> int)
    requires Inv(s)
    ensures Inv(Sweep(s, timeout, now, wall))
  {
    hide IsExpired;
    var s' := Sweep(s, timeout, now, wall);
    forall id | id in s'.sessions ensures s'.sessions[id].playerId in s'.byPlayer {
      var p := s.sessions[id].playerId;
      assert forall x :: x in s.sessions && Goes(s, x, timeout, now, wall) ==> s.sessions[x].playerId != p;
    }
  }

  lemma StepKeeps(s: State, op: Op)
    requires Inv(s)
    ensures Inv(Step(s, op)) && Follows(s, Step(s, op))
  {
    if op.SweepOp? { SweepKeeps(s, op.timeout, op.now, op.wall); }
  }

  lemma FollowsTransitive(a: State, b: State, d: State)
    requires Follows(a, b) && Follows(b, d)
    ensures Follows(a, d)
  {
  }

  /** Over every run of logins, touches, closes and sweeps the tables stay inverse, and
      a session id belongs to one player for ever. */
  lemma {:induction false} EveryRun(s: State, ops: seq<Op>)
    requires Inv(s)
    ensures Inv(After(s, ops)) && Follows(s, After(s, ops))
    decreases |ops|
  {
    hide Inv, Step, Follows;
    if |ops| == 0 {
      StandsStill(s);
    } else {
      StepKeeps(s, ops[0]);
      EveryRun(Step(s, ops[0]), ops[1..]);
      FollowsTransitive(s, Step(s, ops[0]), After(s, ops));
    }
  }

  lemma StandsStill(s: State)
    ensures Follows(s, s)
  {
  }

  /** In every reachable state: a login never meets a missing session, it gives the
      player exactly one session, whose id is either the one it had or never used, and
      a player is found if and only if some session is the player's. */
  lemma LoginsAreSafe(ops: seq<Op>, claims: Claims, connection: nat, now: int)
    ensures var s := After(EMPTY, ops); var r := Upsert(s, claims, connection, now);
      && r.Some?
      && var (s', x) := r.value; var p := claims.playerId;
      && Inv(s') && s'.sessions[x.id] == x && x.playerId == p &&
         x.lastSeenAt == now && x.tokenExpiresAt == claims.expiresAt
      && (forall id :: id in s'.sessions && s'.sessions[id].playerId == p ==> id == x.id)
      && (if p in s.byPlayer then x.id == s.byPlayer[p] else x.id !in s.sessions)
      && (forall id :: id in s.sessions && id != x.id ==> id in s'.sessions && s'.sessions[id] == s.sessions[id])
  {
    EveryRun(EMPTY, ops);
  }

  lemma FindIff(ops: seq<Op>, p: string)
    ensures var s := After(EMPTY, ops); var found := FindByPlayer(s, p);
      && (found.Some? <==> exists id :: id in s.sessions && s.sessions[id].playerId == p)
      && (found.Some? ==>
             found.value.playerId == p && found.value.id in s.sessions && s.sessions[found.value.id] == found.value)
  {
    EveryRun(EMPTY, ops);
    var s := After(EMPTY, ops);
    if p in s.byPlayer { assert s.byPlayer[p] in s.sessions; }
  }

  /** What a sweep removes: from both tables exactly the sessions that have expired. */
  lemma SweepIsExact(ops: seq<Op>, timeout: int, now: int, wall: nat -> int, id: nat)
    requires id in After(EMPTY, ops).sessions
    ensures var s := After(EMPTY, ops); var s' := Sweep(s, timeout, now, wall); var p := s.sessions[id].playerId;
      && (id !in s'.sessions <==> IsExpired(s.sessions[id], timeout, now, wall(id)))
      && (p !in s'.byPlayer <==> IsExpired(s.sessions[id], timeout, now, wall(id)))
      && (id in s'.sessions ==> s'.sessions[id] == s.sessions[id] && FindByPlayer(s', p) == Some(s.sessions[id]))
  {
    EveryRun(EMPTY, ops);
    SweepKeeps(After(EMPTY, ops), timeout, now, wall);
  }

  // ---------- what each call does ----------

  /** A login leaves exactly one session of the player, with what the token and the
      connection say now; one the player had keeps its id and its age. */
  lemma LoginEffect(ops: seq<Op>, claims: Claims, connection: nat, now: int)
    ensures var s := After(EMPTY, ops); var s' := Step(s, Login(claims, connection, now)); var p := claims.playerId;
      && p in s'.byPlayer
      && var id := s'.byPlayer[p];
      && id == (if p in s.byPlayer then s.byPlayer[p] else s.nextId) && (p !in s.byPlayer ==> id !in s.sessions)
      && s'.sessions.Keys == s.sessions.Keys + {id}
      && s'.sessions[id] == Session(id, p, claims.account, connection,
                                    if p in s.byPlayer then s.sessions[id].createdAt else now, now, claims.expiresAt)
      && (forall k :: k in s.sessions && k != id ==> s'.sessions[k] == s.sessions[k])
      && s'.byPlayer == s.byPlayer[p := id]
  {
    EveryRun(EMPTY, ops);
  }

  lemma TouchEffect(s: State, id: nat, now: int)
    ensures var s' := Touch(s, id, now);
      && s'.byPlayer == s.byPlayer && s'.nextId == s.nextId && s'.sessions.Keys == s.sessions.Keys
      && forall k :: k in s.sessions ==>
           var x := s.sessions[k];
           s'.sessions[k] == if k == id
                             then Session(x.id, x.playerId, x.account, x.connectionId, x.createdAt, now,
                                          x.tokenExpiresAt)
                             else x
  {
  }

  /** Closing a session takes it and its player's entry away, and nothing else. */
  lemma CloseEffect(ops: seq<Op>, id: nat)
    ensures var s := After(EMPTY, ops); var s' := Close(s, id);
      && s'.nextId == s.nextId
      && (forall k :: k in s'.sessions <==> k in s.sessions && k != id)
      && (forall k :: k in s'.sessions ==> s'.sessions[k] == s.sessions[k])
      && (forall p :: p in s'.byPlayer <==> p in s.byPlayer && s.byPlayer[p] != id)
      && (forall p :: p in s'.byPlayer ==> s'.byPlayer[p] == s.byPlayer[p])
  {
    EveryRun(EMPTY, ops);
  }

  /** A session survives a sweep exactly if it was seen within the timeout and its token
      has not run out; a session that survives is unchanged. */
  lemma SurvivesIff(s: State, timeout: int, now: int, wall: nat -> int, id: nat)
    ensures var s' := Sweep(s, timeout, now, wall);
      && (id in s'.sessions <==>
            id in s.sessions && now - s.sessions[id].lastSeenAt <= timeout && wall(id) < s.sessions[id].tokenExpiresAt)
      && (id in s'.sessions ==> s'.sessions[id] == s.sessions[id])
  {
  }

  /** The session was last seen, and has its connection, account and token, by a login or
      a touch of the run. */
  ghost predicate WasSeen(ops: seq<Op>, x: Session) {
    && (TouchOp(x.id, x.lastSeenAt) in ops
        || exists c: Claims :: Login(c, x.connectionId, x.lastSeenAt) in ops && c.playerId == x.playerId)
    && exists c: Claims, t :: Login(c, x.connectionId, t) in ops && c.playerId == x.playerId
         && c.account == x.account && c.expiresAt == x.tokenExpiresAt
  }

  ghost predicate AllSeen(ops: seq<Op>, s: State) { forall id :: id in s.sessions ==> WasSeen(ops, s.sessions[id]) }

  lemma SeenMore(ops: seq<Op>, op: Op, x: Session)
    requires WasSeen(ops, x)
    ensures WasSeen(ops + [op], x)
  {
    assert forall o :: o in ops ==> o in ops + [op];
    var c: Claims, t :| Login(c, x.connectionId, t) in ops && c.playerId == x.playerId
      && c.account == x.account && c.expiresAt == x.tokenExpiresAt;
    assert Login(c, x.connectionId, t) in ops + [op];
    if TouchOp(x.id, x.lastSeenAt) !in ops {
      var d: Claims :| Login(d, x.connectionId, x.lastSeenAt) in ops && d.playerId == x.playerId;
      assert Login(d, x.connectionId, x.lastSeenAt) in ops + [op];
    }
  }

  lemma TouchSees(ops: seq<Op>, id: nat, now: int, x: Session)
    requires WasSeen(ops, x) && x.id == id
    ensures WasSeen(ops + [TouchOp(id, now)], x.(lastSeenAt := now))
  {
    SeenMore(ops, TouchOp(id, now), x);
    assert TouchOp(id, now) in ops + [TouchOp(id, now)];
    var c: Claims, t :| Login(c, x.connectionId, t) in ops + [TouchOp(id, now)] && c.playerId == x.playerId
      && c.account == x.account && c.expiresAt == x.tokenExpiresAt;
  }

  lemma LoginSees(ops: seq<Op>, claims: Claims, connection: nat, now: int, x: Session)
    requires x.playerId == claims.playerId && x.account == claims.account && x.connectionId == connection
    requires x.lastSeenAt == now && x.tokenExpiresAt == claims.expiresAt
    ensures WasSeen(ops + [Login(claims, connection, now)], x)
  {
    assert Login(claims, connection, now) in ops + [Login(claims, connection, now)];
  }

  lemma StepSees(ops: seq<Op>, s: State, op: Op)
    requires Inv(s) && AllSeen(ops, s)
    ensures AllSeen(ops + [op], Step(s, op))
  {
    var s' := Step(s, op);
    forall id | id in s'.sessions ensures WasSeen(ops + [op], s'.sessions[id]) {
      if op.Login? && s'.sessions[id].playerId == op.claims.playerId {
        LoginSees(ops, op.claims, op.connection, op.now, s'.sessions[id]);
      } else if op.TouchOp? && id == op.id {
        TouchSees(ops, id, op.now, s.sessions[id]);
      } else {
        SeenMore(ops, op, s.sessions[id]);
      }
    }
  }

  lemma {:induction false} RunSees(s: State, before: seq<Op>, ops: seq<Op>)
    requires Inv(s) && AllSeen(before, s)
    ensures AllSeen(before + ops, After(s, ops))
    decreases |ops|
  {
    if |ops| == 0 {
      NothingAfter(before);
    } else {
      StepSees(before, s, ops[0]);
      StepKeeps(s, ops[0]);
      hide Step, Inv, AllSeen;
      RunSees(Step(s, ops[0]), before + [ops[0]], ops[1..]);
      assert (before + [ops[0]]) + ops[1..] == before + ops;
    }
  }

  /** From the start: what a session says of its player's last call, its connection, its
      account and its token was said by a login or a touch of the run. */
  lemma SessionsWereSeen(ops: seq<Op>, id: nat)
    requires id in After(EMPTY, ops).sessions
    ensures WasSeen(ops, After(EMPTY, ops).sessions[id])
  {
    RunSees(EMPTY, [], ops);
    NothingBefore(ops);
  }

  // ---------- the service ----------

  /** The sweep so far, with the sessions not visited in `left`. */
  ghost predicate Swept(s: State, left: set<nat>, timeout: int, now: int, wall: nat -> int, s': State) {
    && s'.nextId == s.nextId
    && s'.sessions == (map id | id in s.sessions && (id in left || !Goes(s, id, timeout, now, wall)) :: s.sessions[id])
    && s'.byPlayer == s.byPlayer
         - set id | id in s.sessions && id !in left && Goes(s, id, timeout, now, wall) :: s.sessions[id].playerId
  }

  lemma SweepBegins(s: State, timeout: int, now: int, wall: nat -> int)
    ensures Swept(s, s.sessions.Keys, timeout, now, wall, s)
  {
  }

  lemma SweepSteps(s: State, left: set<nat>, timeout: int, now: int, wall: nat -> int, s': State, id: nat)
    requires Swept(s, left, timeout, now, wall, s') && id in left && left <= s.sessions.Keys
    ensures id in s'.sessions && s'.sessions[id] == s.sessions[id]
    ensures Swept(s, left - {id}, timeout, now, wall, if Goes(s, id, timeout, now, wall) then Close(s', id) else s')
  {
    hide IsExpired;
    var gone := set x | x in s.sessions && x !in left && Goes(s, x, timeout, now, wall) :: s.sessions[x].playerId;
    var goneNow := set x | x in s.sessions && x !in left - {id} && Goes(s, x, timeout, now, wall) ::
      s.sessions[x].playerId;
    if Goes(s, id, timeout, now, wall) {
      assert goneNow == gone + {s.sessions[id].playerId};
      assert s.byPlayer - goneNow == (s.byPlayer - gone) - {s.sessions[id].playerId};
    } else {
      assert goneNow == gone;
    }
  }

  lemma SweepEnds(s: State, timeout: int, now: int, wall: nat -> int, s': State)
    requires Swept(s, {}, timeout, now, wall, s')
    ensures s' == Sweep(s, timeout, now, wall)
  {
    assert (set id | id in s.sessions && id !in {} && Goes(s, id, timeout, now, wall) :: s.sessions[id].playerId) ==
      set id | id in s.sessions && Goes(s, id, timeout, now, wall) :: s.sessions[id].playerId;
  }

  class SessionAuthService {
    const idleTimeout: int
    var nextSessionId: nat
    var sessions: map<nat, Session>
    var playerSessions: map<string, nat>

    ghost function View(): State
      reads this
    {
      State(nextSessionId, sessions, playerSessions)
    }

    ghost predicate Valid()
      reads this
    {
      Inv(View())
    }

    constructor (idleTimeout: int)
      ensures Valid() && View() == EMPTY && this.idleTimeout == idleTimeout
    {
      this.idleTimeout := idleTimeout;
      nextSessionId := 1;
      sessions, playerSessions := map[], map[];
    }

    method UpsertSession(claims: Claims, connection: nat, now: int) returns (session: Session)
      requires Valid()
      modifies this
      ensures Valid() && Upsert(old(View()), claims, connection, now) == Some((View(), session))
    {
      StepKeeps(View(), Login(claims, connection, now));
      if claims.playerId in playerSessions {
        var id := playerSessions[claims.playerId];
        session := sessions[id];
        session := session.(account := claims.account);
        session := session.(connectionId := connection);
        session := session.(lastSeenAt := now);
        session := session.(tokenExpiresAt := claims.expiresAt);
        sessions := sessions[id := session];
        return;
      }
      session := Session(nextSessionId, claims.playerId, claims.account, connection, now, now, claims.expiresAt);
      nextSessionId := nextSessionId + 1;
      playerSessions := playerSessions[session.playerId := session.id];
      sessions := sessions[session.id := session];
    }

    method TouchSession(id: nat, now: int) returns (ok: bool)
      requires Valid()
      modifies this`sessions
      ensures Valid() && View() == Touch(old(View()), id, now) && (ok <==> id in old(sessions))
    {
      StepKeeps(View(), TouchOp(id, now));
      if id !in sessions { return false; }
      sessions := sessions[id := sessions[id].(lastSeenAt := now)];
      ok := true;
    }

    method CloseSession(id: nat) returns (ok: bool)
      requires Valid()
      modifies this`sessions, this`playerSessions
      ensures Valid() && View() == Close(old(View()), id) && (ok <==> id in old(sessions))
    {
      StepKeeps(View(), CloseOp(id));
      if id !in sessions { return false; }
      playerSessions := playerSessions - {sessions[id].playerId};
      sessions := sessions - {id};
      ok := true;
    }

    method FindSessionByPlayer(p: string) returns (found: Option<Session>)
      ensures found == FindByPlayer(View(), p)
    {
      if p !in playerSessions { return None; }
      if playerSessions[p] !in sessions { return None; }
      found := Some(sessions[playerSessions[p]]);
    }

    /** Erases expired sessions while walking the table in an arbitrary order. */
    method SweepExpiredSessions(now: int, wall: nat -> int)
      requires Valid()
      modifies this`sessions, this`playerSessions
      ensures Valid() && View() == Sweep(old(View()), idleTimeout, now, wall)
    {
      SweepKeeps(View(), idleTimeout, now, wall);
      SweepBegins(View(), idleTimeout, now, wall);
      hide Swept, Sweep, Inv;
      var left := sessions.Keys;
      while left != {}
        invariant left <= old(sessions).Keys && Swept(old(View()), left, idleTimeout, now, wall, View())
        decreases |left|
      {
        var id :| id in left;
        SweepSteps(old(View()), left, idleTimeout, now, wall, View(), id);
        left := left - {id};
        var session := sessions[id];
        var idle := now - session.lastSeenAt > idleTimeout;
        var over := wall(id) >= session.tokenExpiresAt;
        if idle || over {
          playerSessions := playerSessions - {session.playerId};
          sessions := sessions - {id};
        }
      }
      SweepEnds(old(View()), idleTimeout, now, wall, View());
    }
  }
}
