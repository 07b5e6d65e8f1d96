/** The room table, the matchmaking queue and the player index of the room
    service, as values, with every locked block as one function on them. */
module RoomModel {
  import opened Common

  datatype PlayerRef = PlayerRef(playerId: string, connectionId: nat)
  datatype Member = Member(player: PlayerRef, ready: bool)
  datatype RoomState = Waiting | Playing | Closed
  datatype Options = Options(mode: string, maxPlayers: nat, autoStart: bool)
  datatype Room = Room(id: nat, mode: string, state: RoomState, maxPlayers: nat, autoStart: bool,
                       members: seq<Member>)
  datatype Request = Request(player: PlayerRef, mode: string, size: nat, timeout: int)
  datatype Ticket = Ticket(id: nat, request: Request, createdAt: int) {
    function Player(): string { request.player.playerId }
  }

  /** Matched tickets; a group always has its seed. */
  type Group = g: seq<Ticket> | |g| > 0 witness [Ticket(0, Request(PlayerRef("", 0), "", 0, 0), 0)]

  datatype State = State(nextRoomId: nat, nextTicketId: nat, rooms: map<nat, Room>,
                         queue: seq<Ticket>, tickets: map<string, nat>)

  const INITIAL := State(1, 1, map[], [], map[])

  datatype Refusal = EmptyPlayerId | ZeroMaxPlayers | ZeroRoomSize | PlayerInRoom | PlayerQueued
    | RoomNotFound | RoomIsClosed | RoomIsFull | PlayerInOtherRoom | PlayerNotInRoom
  datatype RoomResult = Accepted(room: Room) | Refused(why: Refusal, shown: Option<Room>)
  datatype TicketResult = Issued(ticket: Ticket) | NotIssued(why: Refusal)

  // ---------- helpers over members and tickets ----------

  predicate HasMember(members: seq<Member>, p: string) {
    exists m :: m in members && m.player.playerId == p
  }

  function IsPlayer(p: string): Member -> bool { (m: Member) => m.player.playerId == p }
  function IsNotPlayer(p: string): Member -> bool { (m: Member) => m.player.playerId != p }
  function HasId(id: nat): Ticket -> bool { (t: Ticket) => t.id == id }
  function IdIsNot(id: nat): Ticket -> bool { (t: Ticket) => t.id != id }
  function IdNotIn(ids: set<nat>): Ticket -> bool { (t: Ticket) => t.id !in ids }
  function IsLive(now: int): Ticket -> bool { (t: Ticket) => now - t.createdAt < t.request.timeout }
  function IsExpired(now: int): Ticket -> bool { (t: Ticket) => now - t.createdAt >= t.request.timeout }

  function IdsOf(q: seq<Ticket>): set<nat> { set t | t in q :: t.id }
  function PlayersOf(q: seq<Ticket>): set<string> { set t | t in q :: t.Player() }

  function Seats(g: seq<Ticket>): (ms: seq<Member>) {
    seq(|g|, i requires 0 <= i < |g| => Member(g[i].request.player, false))
  }

  predicate IsActiveIn(r: Room, p: string) { r.state != Closed && HasMember(r.members, p) }

  predicate InActiveRoom(rooms: map<nat, Room>, p: string) {
    exists id :: id in rooms && IsActiveIn(rooms[id], p)
  }

  // ---------- the locked helpers ----------

  function UpdateRoomState(r: Room): Room {
    if |r.members| == 0 then r.(state := Closed)
    else if r.autoStart && |r.members| >= r.maxPlayers then r.(state := Playing)
    else if r.state != Playing then r.(state := Waiting)
    else r
  }

  function RemoveTicket(s: State, p: string): State {
    if p in s.tickets
    then s.(queue := Filter(s.queue, IdIsNot(s.tickets[p])), tickets := s.tickets - {p})
    else s
  }

  function CreateRoom(s: State, host: PlayerRef, options: Options): (State, RoomResult) {
    if host.playerId == "" then (s, Refused(EmptyPlayerId, None))
    else if options.maxPlayers == 0 then (s, Refused(ZeroMaxPlayers, None))
    else if InActiveRoom(s.rooms, host.playerId) then (s, Refused(PlayerInRoom, None))
    else
      var s1 := RemoveTicket(s, host.playerId);
      var room := UpdateRoomState(Room(s.nextRoomId, options.mode, Waiting, options.maxPlayers,
                                       options.autoStart, [Member(host, false)]));
      (s1.(nextRoomId := s.nextRoomId + 1, rooms := s1.rooms[room.id := room]), Accepted(room))
  }

  // ---------- the public operations ----------

  function JoinRoom(s: State, id: nat, player: PlayerRef): (State, RoomResult) {
    if player.playerId == "" then (s, Refused(EmptyPlayerId, None))
    else if id !in s.rooms then (s, Refused(RoomNotFound, None))
    else
      var room := s.rooms[id];
      if room.state == Closed then (s, Refused(RoomIsClosed, Some(room)))
      else if HasMember(room.members, player.playerId) then (s, Accepted(room))
      else if InActiveRoom(s.rooms, player.playerId) then (s, Refused(PlayerInOtherRoom, None))
      else if |room.members| >= room.maxPlayers then (s, Refused(RoomIsFull, Some(room)))
      else
        var joined := UpdateRoomState(room.(members := room.members + [Member(player, false)]));
        (RemoveTicket(s, player.playerId).(rooms := s.rooms[id := joined]), Accepted(joined))
  }

  function LeaveRoom(s: State, id: nat, p: string): (State, RoomResult) {
    if id !in s.rooms then (s, Refused(RoomNotFound, None))
    else
      var room := s.rooms[id];
      var rest := Filter(room.members, IsNotPlayer(p));
      if |rest| == |room.members| then (s, Refused(PlayerNotInRoom, Some(room)))
      else
        var left := UpdateRoomState(room.(members := rest));
        (s.(rooms := s.rooms[id := left]), Accepted(left))
  }

  function CloseRoom(s: State, id: nat): (State, RoomResult) {
    if id !in s.rooms then (s, Refused(RoomNotFound, None))
    else
      var closed := s.rooms[id].(state := Closed);
      (s.(rooms := s.rooms[id := closed]), Accepted(closed))
  }

  function SetReady(s: State, id: nat, p: string, ready: bool): (State, RoomResult) {
    if id !in s.rooms then (s, Refused(RoomNotFound, None))
    else
      var room := s.rooms[id];
      if room.state == Closed then (s, Refused(RoomIsClosed, Some(room)))
      else
        var i := FirstIndex(room.members, IsPlayer(p));
        if i == |room.members| then (s, Refused(PlayerNotInRoom, Some(room)))
        else
          var updated := room.(members := room.members[i := room.members[i].(ready := ready)]);
          (s.(rooms := s.rooms[id := updated]), Accepted(updated))
  }

  function EnqueueMatch(s: State, request: Request, now: int): (State, TicketResult) {
    var p := request.player.playerId;
    if p == "" then (s, NotIssued(EmptyPlayerId))
    else if request.size == 0 then (s, NotIssued(ZeroRoomSize))
    else if InActiveRoom(s.rooms, p) then (s, NotIssued(PlayerInRoom))
    else if p in s.tickets then (s, NotIssued(PlayerQueued))
    else
      var t := Ticket(s.nextTicketId, request, now);
      (s.(nextTicketId := s.nextTicketId + 1, queue := s.queue + [t], tickets := s.tickets[p := t.id]),
       Issued(t))
  }

  function CancelMatch(s: State, ticketId: nat): (State, bool) {
    var i := FirstIndex(s.queue, HasId(ticketId));
    if i == |s.queue| then (s, false)
    else (s.(queue := s.queue[..i] + s.queue[i + 1..], tickets := s.tickets - {s.queue[i].Player()}), true)
  }

  function CancelMatchByPlayer(s: State, p: string): (State, bool) {
    if p !in s.tickets then (s, false) else (RemoveTicket(s, p), true)
  }

  // ---------- tick ----------

  function Expire(s: State, now: int): State {
    s.(queue := Filter(s.queue, IsLive(now)),
       tickets := s.tickets - PlayersOf(Filter(s.queue, IsExpired(now))))
  }

  predicate SameBucket(a: Ticket, b: Ticket) {
    a.request.mode == b.request.mode && a.request.size == b.request.size
  }

  function IsPartnerOf(seed: Ticket): Ticket -> bool {
    (t: Ticket) => t.id != seed.id && SameBucket(seed, t)
  }

  /** The group grown from one seed: the seed, then its bucket partners in queue
      order until the group has the preferred size. */
  function GroupOf(q: seq<Ticket>, seed: Ticket): (g: Group)
    ensures g[0] == seed
  {
    var partners := Filter(q, IsPartnerOf(seed));
    [seed] + if seed.request.size == 0 then []
             else if |partners| < seed.request.size then partners
             else partners[..seed.request.size - 1]
  }

  function IsFull(q: seq<Ticket>): Ticket -> bool {
    (seed: Ticket) => |GroupOf(q, seed)| >= seed.request.size
  }

  /** Takes a group out of the queue and the player index. */
  function TakeOut(s: State, g: seq<Ticket>): State {
    s.(queue := Filter(s.queue, IdNotIn(IdsOf(g))), tickets := s.tickets - PlayersOf(g))
  }

  /** Opens a room for a matched group; refused exactly when creating the room for
      the group's first player is refused. */
  function SeatGroup(s: State, g: Group): (State, bool) {
    var options := Options(g[0].request.mode, g[0].request.size, true);
    var (s1, result) := CreateRoom(s, g[0].request.player, options);
    if result.Refused? then (s1, false)
    else
      var room := result.room;
      var full := UpdateRoomState(room.(members := room.members + Seats(g[1..])));
      (s1.(rooms := s1.rooms[room.id := full]), true)
  }

  /** The room a matched group gets. */
  function FullRoom(id: nat, g: Group): Room {
    Room(id, g[0].request.mode, Playing, g[0].request.size, true, Seats(g))
  }

  /** The rooms of several groups, under consecutive ids. */
  function FullRooms(next: nat, groups: seq<Group>): seq<Room> {
    seq(|groups|, j requires 0 <= j < |groups| => FullRoom(next + j, groups[j]))
  }

  /** The matching loop: groups in the order the rooms are opened, and the state
      left behind. A refused room ends the loop with its group already taken out. */
  function Match(s: State): (State, seq<Group>)
    decreases |s.queue|
  {
    var i := FirstIndex(s.queue, IsFull(s.queue));
    if i == |s.queue| then (s, [])
    else
      var g := GroupOf(s.queue, s.queue[i]);
      var out := TakeOut(s, g);
      FilterShorter(s.queue, IdNotIn(IdsOf(g)), i);
      var (seated, ok) := SeatGroup(out, g);
      SeatKeepsQueue(out, g);
      if !ok then (seated, [])
      else
        var (done, groups) := Match(seated);
        (done, [g] + groups)
  }

  lemma SeatKeepsQueue(s: State, g: Group)
    ensures |SeatGroup(s, g).0.queue| <= |s.queue|
  {
  }

  datatype TickResult = TickResult(groups: seq<Group>, expired: seq<Ticket>)

  function Tick(s: State, now: int): (State, TickResult) {
    var (s', groups) := Match(Expire(s, now));
    (s', TickResult(groups, Filter(s.queue, IsExpired(now))))
  }

  // ---------- runs ----------

  datatype Op =
    | OpCreate(host: PlayerRef, options: Options)
    | OpJoin(id: nat, player: PlayerRef)
    | OpLeave(id: nat, p: string)
    | OpClose(id: nat)
    | OpReady(id: nat, p: string, ready: bool)
    | OpEnqueue(request: Request, now: int)
    | OpCancel(ticketId: nat)
    | OpCancelBy(p: string)
    | OpTick(now: int)

  function Step(s: State, op: Op): State {
    match op
    case OpCreate(host, options) => CreateRoom(s, host, options).0
    case OpJoin(id, player) => JoinRoom(s, id, player).0
    case OpLeave(id, p) => LeaveRoom(s, id, p).0
    case OpClose(id) => CloseRoom(s, id).0
    case OpReady(id, p, ready) => SetReady(s, id, p, ready).0
    case OpEnqueue(request, now) => EnqueueMatch(s, request, now).0
    case OpCancel(ticketId) => CancelMatch(s, ticketId).0
    case OpCancelBy(p) => CancelMatchByPlayer(s, p).0
    case OpTick(now) => Tick(s, now).0
  }

  function Run(s: State, ops: seq<Op>): State
    decreases |ops|
  {
    if |ops| == 0 then s else Run(Step(s, ops[0]), ops[1..])
  }
}
