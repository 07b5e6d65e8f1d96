/** Exactly which inputs are accepted, told on coordinates and clock readings, and what
    each call does to the player table. */
module SyncAccepts {
  import opened Common
  import opened SyncModel
  import opened SyncMovement

  // ---------- one movement ----------

  function Dist2(a: Vec, b: Vec): real {
    (a.x - b.x) * (a.x - b.x) + (a.y - b.y) * (a.y - b.y) + (a.z - b.z) * (a.z - b.z)
  }

  predicate InReach(a: Vec, b: Vec, r: real) { r >= 0.0 && Dist2(a, b) <= r * r }

  /** The whole milliseconds in a number of nanoseconds; 0 when less than one, or when the
      clock went back. */
  predicate IsMillis(ms: nat, nanos: int) { nanos < (ms + 1) * 1000000 && (ms > 0 ==> ms * 1000000 <= nanos) }

  lemma MillisAre(ms: nat, nanos: int)
    requires IsMillis(ms, nanos)
    ensures if ms > 0 then Millis(nanos) == ms else Millis(nanos) <= 0
  {
  }

  /** A movement is allowed exactly within a single update's reach and within what the
      speed allows in the whole milliseconds since the last update, each with the
      tolerance added. */
  lemma AllowedIff(c: Config, p: Player, next: Transform, now: int, ms: nat)
    requires IsMillis(ms, now - p.updatedAt)
    ensures MovementAllowed(c, p, next, now) <==>
      && InReach(p.transform.position, next.position, c.maxSingle + c.tolerance)
      && InReach(p.transform.position, next.position,
                 if ms > 0 then c.maxSpeed * (ms as real / 1000.0) + c.tolerance else c.tolerance)
  {
    MillisAre(ms, now - p.updatedAt);
    assert SquaredDistance(p.transform.position, next.position) == Dist2(p.transform.position, next.position);
    hide SquaredDistance, Dist2, Millis, IsMillis;
  }

  /** An input may be taken: from a player there, newer than its last, within reach. */
  predicate MayTake(c: Config, room: Room, input: Input, ms: nat) {
    && input.playerId in room.players
    && var p := room.players[input.playerId];
    && input.sequence > p.lastInput
    && InReach(p.transform.position, input.transform.position, c.maxSingle + c.tolerance)
    && InReach(p.transform.position, input.transform.position,
               if ms > 0 then c.maxSpeed * (ms as real / 1000.0) + c.tolerance else c.tolerance)
  }

  /** An input is taken exactly if it may be; the player is then where it says, one
      version on, and everybody is told. Any other changes nothing. */
  lemma SubmitIff(c: Config, id: nat, room: Room, input: Input, now: int, later: int, ms: nat)
    requires input.playerId in room.players ==> IsMillis(ms, now - room.players[input.playerId].updatedAt)
    ensures var op := Submit(input, now, later); var room' := RoomStep(c, id, room, op);
      && (Emits(c, id, room, op).Some? <==> MayTake(c, room, input, ms))
      && (Emits(c, id, room, op).None? ==> room' == room)
      && (Emits(c, id, room, op).Some? ==>
            && var p := room.players[input.playerId];
            && room'.players == room.players[input.playerId :=
                 Player(p.playerId, p.connectionId, input.transform, input.action, input.sequence, true, later)]
            && room'.version == room.version + 1 && room'.lastSnapshotAt == room.lastSnapshotAt
            && Emits(c, id, room, op).value ==
                 Delta(id, input.playerId, input.transform, input.action, input.sequence, room.version + 1, later))
  {
    if input.playerId in room.players { AllowedIff(c, room.players[input.playerId], input.transform, now, ms); }
    hide MovementAllowed, InReach;
  }

  // ---------- the other calls ----------

  /** Nothing but the players and the version changes. */
  predicate OnlyPlayers(room: Room, room': Room) {
    room'.pending == room.pending && room'.lastSnapshotAt == room.lastSnapshotAt
  }

  /** A newcomer stands idle where it says; who was there keeps its last input and action
      and is back online, under the new connection. */
  lemma AddEffect(c: Config, id: nat, room: Room, p: string, connection: nat, transform: Transform, now: int)
    ensures var room' := RoomStep(c, id, room, Add(p, connection, transform, now));
      && OnlyPlayers(room, room') && room'.version == room.version + 1
      && room'.players.Keys == room.players.Keys + {p}
      && (forall q :: q in room.players && q != p ==> room'.players[q] == room.players[q])
      && room'.players[p] ==
           if p in room.players
           then Player(room.players[p].playerId, connection, transform, room.players[p].action,
                       room.players[p].lastInput, true, now)
           else Player(p, connection, transform, Action("idle", 0), 0, true, now)
  {
  }

  lemma RemoveEffect(c: Config, id: nat, room: Room, p: string)
    ensures var room' := RoomStep(c, id, room, Remove(p));
      && OnlyPlayers(room, room') && room'.version == room.version + (if p in room.players then 1 else 0)
      && (forall q :: q in room'.players <==> q in room.players && q != p)
      && (forall q :: q in room'.players ==> room'.players[q] == room.players[q])
  {
  }

  lemma OfflineEffect(c: Config, id: nat, room: Room, p: string, now: int)
    ensures var room' := RoomStep(c, id, room, Offline(p, now));
      && OnlyPlayers(room, room') && room'.version == room.version + (if p in room.players then 1 else 0)
      && room'.players.Keys == room.players.Keys
      && forall q :: q in room.players ==>
           room'.players[q] == if q == p
                               then Player(room.players[q].playerId, room.players[q].connectionId,
                                           room.players[q].transform, room.players[q].action,
                                           room.players[q].lastInput, false, now)
                               else room.players[q]
  {
  }

  /** A snapshot is due exactly when the interval, in milliseconds, has passed. */
  lemma DueEffect(c: Config, id: nat, room: Room, now: int)
    ensures RoomStep(c, id, room, DueSnapshot(now)) ==
      if now - room.lastSnapshotAt >= c.snapshotInterval * 1000000 then room.(lastSnapshotAt := now) else room
    ensures RoomStep(c, id, room, Drain) == room.(pending := [])
  {
  }

  /** Rooms: registered empty unless the id is 0 or taken, created empty by a first named
      player, gone when unregistered, and otherwise not touched by what is not theirs. */
  lemma RoomsEffect(c: Config, rooms: Rooms, id: nat, op: RoomOp, now: int)
    ensures Step(c, rooms, Register(id)) ==
      if id != 0 && id !in rooms then rooms[id := Room(0, map[], [], 0)] else rooms
    ensures var left := Step(c, rooms, Unregister(id));
      && (forall k :: k in left <==> k in rooms && k != id)
      && (forall k :: k in left ==> left[k] == rooms[k])
    ensures Step(c, rooms, On(id, op)) ==
      if op.Add? && id != 0 && op.id != ""
      then rooms[id := RoomStep(c, id, if id in rooms then rooms[id] else Room(0, map[], [], 0), op)]
      else if !op.Add? && id in rooms then rooms[id := RoomStep(c, id, rooms[id], op)]
      else rooms
    ensures var polled := Step(c, rooms, SnapshotsDue(now));
      && polled.Keys == rooms.Keys
      && forall k :: k in rooms ==>
           polled[k] == if now - rooms[k].lastSnapshotAt >= c.snapshotInterval * 1000000
                        then rooms[k].(lastSnapshotAt := now) else rooms[k]
  {
    hide AddPlayer, RemovePlayer, MarkOffline, Accept, Acceptable;
  }

  /** Whether the player is there: as its last join or leave says, or as it was. */
  function IsThere(was: bool, ops: seq<RoomOp>, p: string): bool
    decreases |ops|
  {
    if |ops| == 0 then was
    else
      var last := ops[|ops| - 1];
      if last.Add? && last.id == p then true
      else if last.Remove? && last.id == p then false
      else IsThere(was, ops[..|ops| - 1], p)
  }

  lemma {:induction false} ThereIff(c: Config, id: nat, room: Room, ops: seq<RoomOp>, p: string)
    ensures p in RoomAfter(c, id, room, ops).players <==> IsThere(p in room.players, ops, p)
    decreases |ops|
  {
    if |ops| != 0 {
      var before, last := ops[..|ops| - 1], ops[|ops| - 1];
      assert ops == before + [last] && [last][1..] == [];
      RunsCompose(c, id, room, before, [last]);
      ThereIff(c, id, room, before, p);
      var r := RoomAfter(c, id, room, before);
      assert RoomAfter(c, id, room, ops) == RoomStep(c, id, r, last);
      hide RoomAfter, Acceptable;
    }
  }

  // ---------- an honest player ----------

  /** Each input is newer, and no further from the last accepted place than the speed
      allows in the time since, and than a single update may reach. */
  ghost predicate Honest(c: Config, p: Player, ops: seq<RoomOp>)
    decreases |ops|
  {
    |ops| == 0 ||
    (&& ops[0].Submit? && ops[0].input.playerId == p.playerId && ops[0].input.sequence > p.lastInput
     && p.updatedAt <= ops[0].now <= ops[0].later
     && InReach(p.transform.position, ops[0].input.transform.position, c.maxSingle)
     && InReach(p.transform.position, ops[0].input.transform.position,
                c.maxSpeed * Seconds(ops[0].now - p.updatedAt))
     && Honest(c, Updated(p, ops[0].input, ops[0].later), ops[1..]))
  }

  lemma ReachWider(a: Vec, b: Vec, r: real, s: real)
    requires InReach(a, b, r) && r <= s
    ensures InReach(a, b, s)
  {
    ProductGrows(r, r, s, s);
    hide Dist2;
  }

  /** The time cut off to whole milliseconds costs no more than a millisecond of speed. */
  lemma CutCostsLittle(c: Config, nanos: int, ms: nat)
    requires 0 <= nanos && IsMillis(ms, nanos) && 0.0 <= c.maxSpeed <= 1000.0 * c.tolerance
    ensures c.maxSpeed * Seconds(nanos) <=
      if ms > 0 then c.maxSpeed * (ms as real / 1000.0) + c.tolerance else c.tolerance
  {
    var whole := ms as real / 1000.0;
    assert Seconds(nanos) <= whole + 0.001 by { assert nanos as real <= (ms + 1) as real * 1000000.0; }
    ProductGrows(c.maxSpeed, Seconds(nanos), c.maxSpeed, whole + 0.001);
    assert c.maxSpeed * (whole + 0.001) == c.maxSpeed * whole + c.maxSpeed * 0.001;
    if ms == 0 { assert whole == 0.0; }
  }

  /** What the speed and a single update reach is within what is allowed. */
  lemma HonestReaches(c: Config, a: Vec, b: Vec, nanos: int, ms: nat)
    requires 0 <= nanos && IsMillis(ms, nanos) && 0.0 <= c.maxSpeed <= 1000.0 * c.tolerance
    requires InReach(a, b, c.maxSingle) && InReach(a, b, c.maxSpeed * Seconds(nanos))
    ensures InReach(a, b, c.maxSingle + c.tolerance)
    ensures InReach(a, b, if ms > 0 then c.maxSpeed * (ms as real / 1000.0) + c.tolerance else c.tolerance)
  {
    CutCostsLittle(c, nanos, ms);
    hide InReach, Seconds, IsMillis;
    ReachWider(a, b, c.maxSingle, c.maxSingle + c.tolerance);
    ReachWider(a, b, c.maxSpeed * Seconds(nanos),
               if ms > 0 then c.maxSpeed * (ms as real / 1000.0) + c.tolerance else c.tolerance);
  }

  lemma HonestIsTaken(c: Config, id: nat, room: Room, p: string, ops: seq<RoomOp>)
    requires p in room.players && room.players[p].playerId == p && Honest(c, room.players[p], ops) && |ops| > 0
    requires 0.0 <= c.maxSpeed <= 1000.0 * c.tolerance
    ensures Emits(c, id, room, ops[0]).Some?
    ensures p in RoomStep(c, id, room, ops[0]).players
    ensures RoomStep(c, id, room, ops[0]).players[p] == Updated(room.players[p], ops[0].input, ops[0].later)
  {
    var x, op := room.players[p], ops[0];
    var nanos := op.now - x.updatedAt;
    var ms: nat := nanos / 1000000;
    hide RoomStep, Emits, InReach, Seconds;
    HonestReaches(c, x.transform.position, op.input.transform.position, nanos, ms);
    SubmitIff(c, id, room, op.input, op.now, op.later, ms);
  }

  /** A player who keeps to its speed is never rejected, as long as the tolerance covers
      one millisecond of it: every one of its inputs is accepted. */
  lemma {:induction false} HonestIsNeverRejected(c: Config, id: nat, room: Room, p: string, ops: seq<RoomOp>)
    requires p in room.players && room.players[p].playerId == p && Honest(c, room.players[p], ops)
    requires 0.0 <= c.maxSpeed <= 1000.0 * c.tolerance
    ensures |Emitted(c, id, room, ops)| == |ops|
    decreases |ops|
  {
    if |ops| != 0 {
      HonestIsTaken(c, id, room, p, ops);
      hide RoomStep, Emits, InReach;
      HonestIsNeverRejected(c, id, RoomStep(c, id, room, ops[0]), p, ops[1..]);
    }
  }

  // ---------- a walk at full speed ----------

  function NextStride(c: Config, x: Player, stride: int): RoomOp {
    var t := x.transform;
    var there := Vec(t.position.x + c.maxSpeed * Seconds(stride), t.position.y, t.position.z);
    Submit(Input(x.playerId, x.lastInput + 1, Transform(there, t.yaw, t.pitch), x.action),
           x.updatedAt + stride, x.updatedAt + stride)
  }

  /** n updates, `stride` nanoseconds apart, straight on at exactly the greatest speed. */
  function Walk(c: Config, x: Player, stride: int, n: nat): seq<RoomOp>
    decreases n
  {
    if n == 0 then []
    else
      var op := NextStride(c, x, stride);
      [op] + Walk(c, Updated(x, op.input, op.later), stride, n - 1)
  }

  lemma StraightOn(a: Vec, d: real)
    requires d >= 0.0
    ensures InReach(a, Vec(a.x + d, a.y, a.z), d)
  {
    assert (a.x - (a.x + d)) * (a.x - (a.x + d)) == d * d;
  }

  lemma {:induction false} WalkIsHonest(c: Config, x: Player, stride: int, n: nat)
    requires stride >= 0 && 0.0 <= c.maxSpeed && c.maxSpeed * Seconds(stride) <= c.maxSingle
    ensures Honest(c, x, Walk(c, x, stride, n)) && |Walk(c, x, stride, n)| == n
    decreases n
  {
    if n != 0 {
      var op := NextStride(c, x, stride);
      var y := Updated(x, op.input, op.later);
      var d := c.maxSpeed * Seconds(stride);
      ProductGrows(0.0, 0.0, c.maxSpeed, Seconds(stride));
      StraightOn(x.transform.position, d);
      ReachWider(x.transform.position, op.input.transform.position, d, c.maxSingle);
      WalkIsHonest(c, y, stride, n - 1);
      hide InReach, Seconds;
      assert Walk(c, x, stride, n)[1..] == Walk(c, y, stride, n - 1);
    }
  }

  /** A player who walks straight on at just its speed, for as long as it likes, is never
      rejected. */
  lemma WalkIsAccepted(c: Config, id: nat, room: Room, p: string, stride: int, n: nat)
    requires p in room.players && room.players[p].playerId == p
    requires stride >= 0 && 0.0 <= c.maxSpeed <= 1000.0 * c.tolerance && c.maxSpeed * Seconds(stride) <= c.maxSingle
    ensures |Emitted(c, id, room, Walk(c, room.players[p], stride, n))| == n
  {
    WalkIsHonest(c, room.players[p], stride, n);
    HonestIsNeverRejected(c, id, room, p, Walk(c, room.players[p], stride, n));
  }
}
