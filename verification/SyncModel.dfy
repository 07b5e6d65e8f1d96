/** State synchronisation: rooms with a versioned player table and a bounded log of
    accepted updates. Times are nanoseconds; coordinates are reals. */
module SyncModel {
  import opened Common

  datatype Vec = Vec(x: real, y: real, z: real)
  datatype Transform = Transform(position: Vec, yaw: real, pitch: real)
  datatype Action = Action(name: string, sequence: nat)

  datatype Player = Player(playerId: string, connectionId: nat, transform: Transform, action: Action,
                           lastInput: nat, online: bool, updatedAt: int)

  datatype Delta = Delta(roomId: nat, playerId: string, transform: Transform, action: Action,
                         input: nat, version: nat, createdAt: int)

  datatype Input = Input(playerId: string, sequence: nat, transform: Transform, action: Action)

  datatype Room = Room(version: nat, players: map<string, Player>, pending: seq<Delta>, lastSnapshotAt: int)

  datatype Config = Config(maxSingle: real, maxSpeed: real, tolerance: real, snapshotInterval: int, maxPending: nat)

  const NEW_ROOM := Room(0, map[], [], 0)
  const IDLE := Action("idle", 0)
  const NANOS_PER_MILLI := 1000000

  // ---------- movement authority ----------

  function Square(r: real): real { r * r }

  function SquaredDistance(a: Vec, b: Vec): real { Square(a.x - b.x) + Square(a.y - b.y) + Square(a.z - b.z) }

  /** The distance between two points is at most `d`. */
  predicate Within(a: Vec, b: Vec, d: real) { d >= 0.0 && SquaredDistance(a, b) <= Square(d) }

  /** A duration in whole milliseconds, cut towards zero. */
  function Millis(nanos: int): int {
    if nanos >= 0 then nanos / NANOS_PER_MILLI else -(-nanos / NANOS_PER_MILLI)
  }

  /** How far a player may move between an update and the next. */
  function Allowance(c: Config, updatedAt: int, now: int): real {
    var elapsed := Millis(now - updatedAt);
    if elapsed <= 0 then c.tolerance else c.maxSpeed * (elapsed as real / 1000.0) + c.tolerance
  }

  predicate MovementAllowed(c: Config, current: Player, next: Transform, now: int) {
    && Within(current.transform.position, next.position, c.maxSingle + c.tolerance)
    && Within(current.transform.position, next.position, Allowance(c, current.updatedAt, now))
  }

  // ---------- one room ----------

  function AddPlayer(room: Room, id: string, connection: nat, transform: Transform, now: int): Room {
    var p := if id in room.players
             then room.players[id].(connectionId := connection, transform := transform,
                 online := true, updatedAt := now)
             else Player(id, connection, transform, IDLE, 0, true, now);
    room.(players := room.players[id := p], version := room.version + 1)
  }

  function RemovePlayer(room: Room, id: string): Room {
    if id in room.players then room.(players := room.players - {id}, version := room.version + 1) else room
  }

  function MarkOffline(room: Room, id: string, now: int): Room {
    if id in room.players
    then room.(players := room.players[id := room.players[id].(online := false, updatedAt := now)],
        version := room.version + 1)
    else room
  }

  predicate Acceptable(c: Config, room: Room, input: Input, now: int) {
    && input.playerId in room.players
    && input.sequence > room.players[input.playerId].lastInput
    && MovementAllowed(c, room.players[input.playerId], input.transform, now)
  }

  function Updated(p: Player, input: Input, now: int): Player {
    p.(transform := input.transform, action := input.action, lastInput := input.sequence,
        online := true, updatedAt := now)
  }

  function DeltaOf(roomId: nat, room: Room, input: Input, now: int): Delta {
    Delta(roomId, input.playerId, input.transform, input.action, input.sequence, room.version + 1, now)
  }

  /** The last `n` of a log. */
  function Last<T>(log: seq<T>, n: nat): seq<T> { if |log| <= n then log else log[|log| - n..] }

  function Accept(c: Config, roomId: nat, room: Room, input: Input, now: int): Room
    requires input.playerId in room.players
  {
    Room(room.version + 1, room.players[input.playerId := Updated(room.players[input.playerId], input, now)],
         Last(room.pending + [DeltaOf(roomId, room, input, now)], c.maxPending), room.lastSnapshotAt)
  }

  predicate IsDue(c: Config, room: Room, now: int) { now - room.lastSnapshotAt >= c.snapshotInterval * NANOS_PER_MILLI }

  /** What happens to one room. A submission reads the clock twice: to check the
      movement, and when it accepts. */
  datatype RoomOp =
    | Add(id: string, connection: nat, transform: Transform, now: int)
    | Remove(id: string)
    | Offline(id: string, now: int)
    | Submit(input: Input, now: int, later: int)
    | DueSnapshot(now: int)
    | Drain

  function RoomStep(c: Config, roomId: nat, room: Room, op: RoomOp): Room {
    match op
    case Add(id, connection, transform, now) => AddPlayer(room, id, connection, transform, now)
    case Remove(id) => RemovePlayer(room, id)
    case Offline(id, now) => MarkOffline(room, id, now)
    case Submit(input, now, later) =>
      if Acceptable(c, room, input, now) then Accept(c, roomId, room, input, later) else room
    case DueSnapshot(now) => if IsDue(c, room, now) then room.(lastSnapshotAt := now) else room
    case Drain => room.(pending := [])
  }

  /** The update a step accepts and broadcasts, if any. */
  function Emits(c: Config, roomId: nat, room: Room, op: RoomOp): Option<Delta> {
    if op.Submit? && Acceptable(c, room, op.input, op.now)
      then Some(DeltaOf(roomId, room, op.input, op.later)) else None
  }

  function RoomAfter(c: Config, roomId: nat, room: Room, ops: seq<RoomOp>): Room
    decreases |ops|
  {
    if |ops| == 0 then room else RoomAfter(c, roomId, RoomStep(c, roomId, room, ops[0]), ops[1..])
  }

  /** All updates accepted over a run, in order. */
  function Emitted(c: Config, roomId: nat, room: Room, ops: seq<RoomOp>): seq<Delta>
    decreases |ops|
  {
    if |ops| == 0 then []
    else
      var rest := Emitted(c, roomId, RoomStep(c, roomId, room, ops[0]), ops[1..]);
      match Emits(c, roomId, room, ops[0]) case Some(d) => [d] + rest case None => rest
  }

  lemma {:induction false} RunsCompose(c: Config, roomId: nat, room: Room, a: seq<RoomOp>, b: seq<RoomOp>)
    ensures RoomAfter(c, roomId, room, a + b) == RoomAfter(c, roomId, RoomAfter(c, roomId, room, a), b)
    ensures Emitted(c, roomId, room, a + b) ==
      Emitted(c, roomId, room, a) + Emitted(c, roomId, RoomAfter(c, roomId, room, a), b)
    decreases |a|
  {
    hide RoomStep, Emits;
    if |a| == 0 {
      assert a + b == b;
    } else {
      assert (a + b)[0] == a[0] && (a + b)[1..] == a[1..] + b;
      RunsCompose(c, roomId, RoomStep(c, roomId, room, a[0]), a[1..], b);
    }
  }

  // ---------- the room table ----------

  datatype Op =
    | Register(room: nat)
    | Unregister(room: nat)
    | On(room: nat, op: RoomOp)
    | SnapshotsDue(now: int)

  type Rooms = map<nat, Room>

  function RegisterRoom(rooms: Rooms, id: nat): Rooms {
    if id == 0 || id in rooms then rooms else rooms[id := NEW_ROOM]
  }

  function OnRoom(c: Config, rooms: Rooms, id: nat, op: RoomOp): Rooms {
    if op.Add? then
      if id == 0 || op.id == "" then rooms
      else rooms[id := RoomStep(c, id, if id in rooms then rooms[id] else NEW_ROOM, op)]
    else if id in rooms then rooms[id := RoomStep(c, id, rooms[id], op)]
    else rooms
  }

  function SnapshotDueRooms(c: Config, rooms: Rooms, now: int): Rooms {
    map id | id in rooms :: RoomStep(c, id, rooms[id], DueSnapshot(now))
  }

  function Step(c: Config, rooms: Rooms, op: Op): Rooms {
    match op
    case Register(id) => RegisterRoom(rooms, id)
    case Unregister(id) => rooms - {id}
    case On(id, o) => OnRoom(c, rooms, id, o)
    case SnapshotsDue(now) => SnapshotDueRooms(c, rooms, now)
  }

  function After(c: Config, rooms: Rooms, ops: seq<Op>): Rooms
    decreases |ops|
  {
    if |ops| == 0 then rooms else After(c, Step(c, rooms, ops[0]), ops[1..])
  }

  /** What a run of the service means for one room. */
  function Seen(id: nat, op: Op): seq<RoomOp> {
    match op
    case On(room, o) => if room == id && !(o.Add? && (id == 0 || o.id == "")) then [o] else []
    case SnapshotsDue(now) => [DueSnapshot(now)]
    case _ => []
  }

  function Projected(id: nat, ops: seq<Op>): seq<RoomOp> {
    if |ops| == 0 then [] else Seen(id, ops[0]) + Projected(id, ops[1..])
  }

  lemma StepProjects(c: Config, rooms: Rooms, op: Op, id: nat)
    requires id in rooms && op != Unregister(id)
    ensures id in Step(c, rooms, op) && Step(c, rooms, op)[id] == RoomAfter(c, id, rooms[id], Seen(id, op))
  {
    hide RoomStep;
    if |Seen(id, op)| != 0 { assert Seen(id, op)[1..] == []; }
  }

  /** Rooms do not disturb each other: until it is unregistered, a room goes through
      exactly its own operations, whatever happens to the others. */
  lemma {:induction false} RoomsAreIndependent(c: Config, rooms: Rooms, ops: seq<Op>, id: nat)
    requires id in rooms && Unregister(id) !in ops
    ensures id in After(c, rooms, ops)
    ensures After(c, rooms, ops)[id] == RoomAfter(c, id, rooms[id], Projected(id, ops))
    decreases |ops|
  {
    if |ops| != 0 {
      assert ops[0] in ops && forall op :: op in ops[1..] ==> op in ops;
      StepProjects(c, rooms, ops[0], id);
      hide Step, Seen, RoomStep;
      RoomsAreIndependent(c, Step(c, rooms, ops[0]), ops[1..], id);
      RunsCompose(c, id, rooms[id], Seen(id, ops[0]), Projected(id, ops[1..]));
    }
  }
}
