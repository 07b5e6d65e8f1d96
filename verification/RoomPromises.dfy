/** What callers of the room service are promised, call by call, told on the tables
    alone, and what that adds up to: a room fills up, a full group is matched. */
module RoomPromises {
  import opened Common
  import opened RoomModel
  import opened RoomInvariant
  import opened RoomRuns
  import opened RoomTick

  // ---------- what a call leaves alone ----------

  /** Some open room has the player. */
  ghost predicate IsBusy(rooms: map<nat, Room>, p: string) {
    exists id, m :: id in rooms && rooms[id].state != Closed && m in rooms[id].members && m.player.playerId == p
  }

  lemma BusyIsActive(rooms: map<nat, Room>, p: string)
    ensures IsBusy(rooms, p) <==> InActiveRoom(rooms, p)
  {
    if InActiveRoom(rooms, p) {
      var id :| id in rooms && IsActiveIn(rooms[id], p);
      var m :| m in rooms[id].members && m.player.playerId == p;
    }
    forall id, m | id in rooms && rooms[id].state != Closed && m in rooms[id].members && m.player.playerId == p
      ensures InActiveRoom(rooms, p) { assert IsActiveIn(rooms[id], p); }
  }

  ghost predicate HasPlayer(r: Room, p: string) { exists m :: m in r.members && m.player.playerId == p }

  /** Only this room is new or changed. */
  ghost predicate OnlyRoom(s: State, s': State, id: nat) {
    && (forall k :: k in s'.rooms <==> k in s.rooms || k == id)
    && (forall k :: k in s.rooms && k != id ==> s'.rooms[k] == s.rooms[k])
  }

  lemma PutIsOnly(s: State, s': State, id: nat, room: Room)
    requires s'.rooms == s.rooms[id := room]
    ensures OnlyRoom(s, s', id)
  {
  }

  ghost predicate SameQueue(s: State, s': State) {
    s'.queue == s.queue && s'.tickets == s.tickets && s'.nextTicketId == s.nextTicketId
  }

  function NotOf(p: string): Ticket -> bool { (t: Ticket) => t.request.player.playerId != p }

  /** The player has no ticket any more, and nothing else about the queue changes. */
  ghost predicate LosesTicketOf(s: State, s': State, p: string) {
    && s'.queue == Filter(s.queue, NotOf(p)) && s'.nextTicketId == s.nextTicketId
    && (forall q :: q in s'.tickets <==> q in s.tickets && q != p)
    && (forall q :: q in s'.tickets ==> s'.tickets[q] == s.tickets[q])
  }

  lemma RemovingTicket(s: State, p: string)
    requires QueueInv(s)
    ensures LosesTicketOf(s, RemoveTicket(s, p), p)
    ensures RemoveTicket(s, p).rooms == s.rooms && RemoveTicket(s, p).nextRoomId == s.nextRoomId
  {
    if p in s.tickets {
      var own :| own in s.queue && own.Player() == p && own.id == s.tickets[p];
      forall t | t in s.queue ensures IdIsNot(own.id)(t) <==> NotOf(p)(t) {
        if t.id == own.id || t.Player() == own.Player() { SameTicket(s, t, own); }
      }
      FilterSame(s.queue, IdIsNot(own.id), NotOf(p));
    } else {
      forall t | t in s.queue ensures NotOf(p)(t) { assert TicketInv(s, t); }
      FilterAll(s.queue, NotOf(p));
    }
  }

  /** A room without members is closed; it plays if it was playing or has just become
      full and starts by itself; otherwise it waits. */
  predicate StateFollows(before: RoomState, r: Room) {
    var starts := before == Playing || (r.autoStart && |r.members| >= r.maxPlayers);
    && (|r.members| == 0 ==> r.state == Closed)
    && (|r.members| > 0 && starts ==> r.state == Playing)
    && (|r.members| > 0 && !starts ==> r.state == Waiting)
  }

  lemma UpdatedState(r: Room)
    ensures UpdateRoomState(r) == r.(state := UpdateRoomState(r).state) && StateFollows(r.state, UpdateRoomState(r))
  {
  }

  // ---------- rooms ----------

  ghost predicate Creates(s: State, s': State, host: PlayerRef, options: Options, room: Room) {
    && room == Room(s.nextRoomId, options.mode, room.state, options.maxPlayers, options.autoStart,
                    [Member(host, false)])
    && room.state == (if options.autoStart && options.maxPlayers == 1 then Playing else Waiting)
    && OnlyRoom(s, s', room.id) && s'.rooms[room.id] == room && s'.nextRoomId == s.nextRoomId + 1
    && LosesTicketOf(s, s', host.playerId)
  }

  /** A room is created exactly for a named host who is in no open room. */
  lemma CreateIff(s: State, host: PlayerRef, options: Options)
    requires QueueInv(s) && RoomInv(s)
    ensures var (s', r) := CreateRoom(s, host, options);
      && (r.Accepted? <==> host.playerId != "" && options.maxPlayers > 0 && !IsBusy(s.rooms, host.playerId))
      && (r.Refused? ==> s' == s)
      && (r.Accepted? ==> Creates(s, s', host, options, r.room))
  {
    BusyIsActive(s.rooms, host.playerId);
    var (s', r) := CreateRoom(s, host, options);
    if r.Accepted? { CreateEffect(s, host, options); }
    hide QueueInv, RoomInv, InActiveRoom, IsBusy, RemoveTicket, UpdateRoomState, Creates;
  }

  lemma CreateEffect(s: State, host: PlayerRef, options: Options)
    requires QueueInv(s) && RoomInv(s) && CreateRoom(s, host, options).1.Accepted?
    ensures var (s', r) := CreateRoom(s, host, options); Creates(s, s', host, options, r.room)
  {
    RemovingTicket(s, host.playerId);
    assert s.nextRoomId !in s.rooms;
    UpdatedState(Room(s.nextRoomId, options.mode, Waiting, options.maxPlayers, options.autoStart,
                      [Member(host, false)]));
    var (s', r) := CreateRoom(s, host, options);
    PutIsOnly(s, s', r.room.id, r.room);
    hide QueueInv, RoomInv, InActiveRoom, RemoveTicket, LosesTicketOf, UpdateRoomState, OnlyRoom;
  }

  /** The player sits down at the end, not ready, and leaves the queue. */
  ghost predicate SitsDown(s: State, s': State, id: nat, player: PlayerRef)
    requires id in s.rooms && id in s'.rooms
  {
    && s'.rooms[id] == s.rooms[id].(members := s.rooms[id].members + [Member(player, false)],
                                    state := s'.rooms[id].state)
    && StateFollows(s.rooms[id].state, s'.rooms[id])
    && OnlyRoom(s, s', id) && s'.nextRoomId == s.nextRoomId && LosesTicketOf(s, s', player.playerId)
  }

  ghost predicate MayJoin(s: State, id: nat, player: PlayerRef) {
    && player.playerId != "" && id in s.rooms && s.rooms[id].state != Closed
    && (HasPlayer(s.rooms[id], player.playerId)
        || (!IsBusy(s.rooms, player.playerId) && |s.rooms[id].members| < s.rooms[id].maxPlayers))
  }

  /** A player in no open room is accepted into an open one exactly while it has a free
      place; one who is in it already is accepted without any change. */
  lemma JoinIff(s: State, id: nat, player: PlayerRef)
    requires QueueInv(s)
    ensures var (s', r) := JoinRoom(s, id, player);
      && (r.Accepted? <==> MayJoin(s, id, player))
      && (r.Refused? ==> s' == s)
      && (r.Accepted? ==>
            && id in s'.rooms && r.room == s'.rooms[id]
            && if HasPlayer(s.rooms[id], player.playerId) then s' == s else SitsDown(s, s', id, player))
  {
    BusyIsActive(s.rooms, player.playerId);
    RemovingTicket(s, player.playerId);
    var (s', r) := JoinRoom(s, id, player);
    if id in s.rooms { UpdatedState(s.rooms[id].(members := s.rooms[id].members + [Member(player, false)])); }
    if r.Accepted? && s'.rooms == s.rooms[id := r.room] { PutIsOnly(s, s', id, r.room); }
    hide QueueInv, InActiveRoom, IsBusy, RemoveTicket, UpdateRoomState, LosesTicketOf, StateFollows, OnlyRoom;
  }

  /** Exactly a member can leave; the others stay in their order. */
  lemma LeaveIff(s: State, id: nat, p: string)
    ensures var (s', r) := LeaveRoom(s, id, p);
      && (r.Accepted? <==> id in s.rooms && HasPlayer(s.rooms[id], p))
      && (r.Refused? ==> s' == s)
      && (r.Accepted? ==>
            && SameQueue(s, s') && OnlyRoom(s, s', id) && s'.nextRoomId == s.nextRoomId && r.room == s'.rooms[id]
            && var old_room, room := s.rooms[id], s'.rooms[id];
            && room == old_room.(members := room.members, state := room.state)
            && room.members == Filter(old_room.members, IsNotPlayer(p))
            && (forall m :: m in room.members <==> m in old_room.members && m.player.playerId != p)
            && StateFollows(old_room.state, room))
  {
    if id in s.rooms {
      FilterSameLength(s.rooms[id].members, IsNotPlayer(p));
      UpdatedState(s.rooms[id].(members := Filter(s.rooms[id].members, IsNotPlayer(p))));
      hide UpdateRoomState, StateFollows;
    }
  }

  lemma CloseIff(s: State, id: nat)
    ensures var (s', r) := CloseRoom(s, id);
      && (r.Accepted? <==> id in s.rooms)
      && (r.Refused? ==> s' == s)
      && (r.Accepted? ==>
            && SameQueue(s, s') && OnlyRoom(s, s', id) && s'.nextRoomId == s.nextRoomId
            && s'.rooms[id] == s.rooms[id].(state := Closed) == r.room)
  {
  }

  /** Exactly a member of an open room can change the flag, its own and no other. */
  lemma ReadyIff(s: State, id: nat, p: string, ready: bool)
    requires RoomInv(s)
    ensures var (s', r) := SetReady(s, id, p, ready);
      && (r.Accepted? <==> id in s.rooms && s.rooms[id].state != Closed && HasPlayer(s.rooms[id], p))
      && (r.Refused? ==> s' == s)
      && (r.Accepted? ==>
            && SameQueue(s, s') && OnlyRoom(s, s', id) && s'.nextRoomId == s.nextRoomId && r.room == s'.rooms[id]
            && var ms, ms' := s.rooms[id].members, s'.rooms[id].members;
            && s'.rooms[id] == s.rooms[id].(members := ms') && |ms'| == |ms|
            && forall i :: 0 <= i < |ms| ==>
                 ms'[i] == Member(ms[i].player, if ms[i].player.playerId == p then ready else ms[i].ready))
  {
    if id in s.rooms {
      var ms := s.rooms[id].members;
      var i := FirstIndex(ms, IsPlayer(p));
      assert DistinctMembers(ms);
      if i == |ms| {
        forall m | m in ms ensures m.player.playerId != p {
          var j :| 0 <= j < |ms| && ms[j] == m;
          assert !IsPlayer(p)(ms[j]);
        }
      } else {
        assert IsPlayer(p)(ms[i]) && ms[i] in ms;
      }
    }
  }

  // ---------- the queue ----------

  /** A ticket is issued exactly to a named player in no open room and without one, for
      a room of some size; it goes to the end of the queue and bears the time. */
  lemma EnqueueIff(s: State, request: Request, now: int)
    requires QueueInv(s)
    ensures var (s', r) := EnqueueMatch(s, request, now); var p := request.player.playerId;
      && (r.Issued? <==> p != "" && request.size > 0 && !IsBusy(s.rooms, p)
                         && !exists t :: t in s.queue && t.request.player.playerId == p)
      && (r.NotIssued? ==> s' == s)
      && (r.Issued? ==>
            && r.ticket == Ticket(s.nextTicketId, request, now)
            && s' == s.(nextTicketId := s.nextTicketId + 1, queue := s.queue + [r.ticket],
                        tickets := s.tickets[p := r.ticket.id]))
  {
    var p := request.player.playerId;
    BusyIsActive(s.rooms, p);
    if p in s.tickets {
      var t :| t in s.queue && t.Player() == p && t.id == s.tickets[p];
    }
    forall t | t in s.queue && t.request.player.playerId == p ensures p in s.tickets { assert TicketInv(s, t); }
  }

  /** Cancelling by id or by player takes exactly that ticket out, if there is one. */
  lemma CancelIff(s: State, ticketId: nat, p: string)
    requires QueueInv(s)
    ensures var (s', ok) := CancelMatch(s, ticketId);
      && (ok <==> exists t :: t in s.queue && t.id == ticketId)
      && (!ok ==> s' == s)
      && (forall t :: t in s.queue && t.id == ticketId ==> LosesTicketOf(s, s', t.request.player.playerId))
      && s'.rooms == s.rooms && s'.nextRoomId == s.nextRoomId
    ensures var (s', ok) := CancelMatchByPlayer(s, p);
      && (ok <==> exists t :: t in s.queue && t.request.player.playerId == p)
      && LosesTicketOf(s, s', p) && s'.rooms == s.rooms && s'.nextRoomId == s.nextRoomId
  {
    CancelById(s, ticketId);
    RemovingTicket(s, p);
    if p in s.tickets {
      var t :| t in s.queue && t.Player() == p && t.id == s.tickets[p];
    }
    forall t | t in s.queue && t.request.player.playerId == p ensures p in s.tickets { assert TicketInv(s, t); }
  }

  lemma CancelById(s: State, ticketId: nat)
    requires QueueInv(s)
    ensures var (s', ok) := CancelMatch(s, ticketId);
      && (ok <==> exists t :: t in s.queue && t.id == ticketId)
      && (!ok ==> s' == s)
      && (forall t :: t in s.queue && t.id == ticketId ==> LosesTicketOf(s, s', t.request.player.playerId))
      && s'.rooms == s.rooms && s'.nextRoomId == s.nextRoomId
  {
    var i := FirstIndex(s.queue, HasId(ticketId));
    if i == |s.queue| {
      forall t | t in s.queue ensures t.id != ticketId {
        var j :| 0 <= j < |s.queue| && s.queue[j] == t;
        assert !HasId(ticketId)(s.queue[j]);
      }
    } else {
      assert HasId(ticketId)(s.queue[i]) && s.queue[i] in s.queue;
      CancelFirst(s, i);
      forall t | t in s.queue && t.id == ticketId ensures t == s.queue[i] { SameTicket(s, t, s.queue[i]); }
      hide QueueInv, LosesTicketOf;
    }
  }

  lemma CancelFirst(s: State, i: nat)
    requires QueueInv(s) && i < |s.queue|
    ensures var p := s.queue[i].Player();
      LosesTicketOf(s, s.(queue := s.queue[..i] + s.queue[i + 1..], tickets := s.tickets - {p}), p)
  {
    var own := s.queue[i];
    assert TicketInv(s, own);
    CancelAt(s, i);
    RemovingTicket(s, own.Player());
    hide QueueInv;
  }

  lemma {:induction false} MatchOnlyRemoves(s: State, t: Ticket)
    requires t in Match(s).0.queue
    ensures t in s.queue
    decreases |s.queue|
  {
    var i := FirstIndex(s.queue, IsFull(s.queue));
    if i < |s.queue| {
      var g := GroupOf(s.queue, s.queue[i]);
      var (seated, ok) := SeatGroup(TakeOut(s, g), g);
      FilterShorter(s.queue, IdNotIn(IdsOf(g)), i);
      SeatKeepsQueue(TakeOut(s, g), g);
      SeatOnlyRemoves(TakeOut(s, g), g, t);
      hide SeatGroup, GroupOf;
      if ok { MatchOnlyRemoves(seated, t); }
    }
  }

  lemma SeatOnlyRemoves(s: State, g: Group, t: Ticket)
    ensures t in SeatGroup(s, g).0.queue ==> t in s.queue
  {
    hide UpdateRoomState, InActiveRoom;
  }

  /** A tick hands back exactly the tickets as old as their timeout. */
  lemma ExpiresIff(s: State, now: int, t: Ticket)
    requires QueueInv(s) && RoomInv(s)
    ensures var (s', r) := Tick(s, now);
      && (t in r.expired <==> t in s.queue && now - t.createdAt >= t.request.timeout)
      && (t in r.expired ==> t !in s'.queue && t.request.player.playerId !in s'.tickets)
  {
    TickKeeps(s, now);
    var (s', r) := Tick(s, now);
    if t in r.expired {
      assert TicketInv(s, t);
      if t.Player() in s'.tickets {
        var u :| u in s'.queue && u.Player() == t.Player() && u.id == s'.tickets[t.Player()];
        MatchOnlyRemoves(Expire(s, now), u);
        SameTicket(s, t, u);
      }
      if t in s'.queue { MatchOnlyRemoves(Expire(s, now), t); }
    }
  }

  lemma RoomCallTickets(s: State, op: Op, t: Ticket)
    requires QueueInv(s) && RoomInv(s) && !op.OpEnqueue? && !op.OpCancel? && !op.OpCancelBy? && !op.OpTick?
    requires t in Step(s, op).queue
    ensures t in s.queue
  {
    hide QueueInv, RoomInv, CreateRoom, JoinRoom, LeaveRoom, SetReady, OnlyRoom, StateFollows, IsBusy, HasPlayer;
    match op
    case OpCreate(host, options) => CreateIff(s, host, options);
    case OpJoin(id, player) => JoinIff(s, id, player);
    case OpLeave(id, p) => LeaveIff(s, id, p);
    case OpClose(_) =>
    case OpReady(id, p, ready) => ReadyIff(s, id, p, ready);
  }

  /** The step's tickets are those that were there, and the one it issues. */
  lemma StepTickets(s: State, op: Op, t: Ticket)
    requires QueueInv(s) && RoomInv(s) && t in Step(s, op).queue && t !in s.queue
    ensures op == OpEnqueue(t.request, t.createdAt)
  {
    hide QueueInv, RoomInv, CreateRoom, JoinRoom, LeaveRoom, SetReady, CloseRoom, Match, IsBusy, EnqueueMatch,
      CancelMatch;
    match op
    case OpEnqueue(request, now) => EnqueueIff(s, request, now);
    case OpCancel(ticketId) => CancelIsRemoval(s, ticketId);
    case OpCancelBy(p) => RemoveTicketKeepsQueueInv(s, p);
    case OpTick(now) => MatchOnlyRemoves(Expire(s, now), t);
    case _ => RoomCallTickets(s, op, t);
  }

  /** Over every run, a queued ticket bears exactly the request it was issued for and
      the time it was issued at. */
  lemma {:induction false} TicketsWereAsked(s: State, ops: seq<Op>, t: Ticket)
    requires QueueInv(s) && RoomInv(s) && t in Run(s, ops).queue && t !in s.queue
    ensures OpEnqueue(t.request, t.createdAt) in ops
    decreases |ops|
  {
    if |ops| != 0 {
      StepKeeps(s, ops[0]);
      hide Step, QueueInv, RoomInv;
      if t in Step(s, ops[0]).queue {
        StepTickets(s, ops[0], t);
      } else {
        TicketsWereAsked(Step(s, ops[0]), ops[1..], t);
      }
    }
  }

  // ---------- a room fills up ----------

  function Joins(id: nat, players: seq<PlayerRef>): seq<Op> {
    seq(|players|, i requires 0 <= i < |players| => OpJoin(id, players[i]))
  }

  function Sitting(players: seq<PlayerRef>): seq<Member> {
    seq(|players|, i requires 0 <= i < |players| => Member(players[i], false))
  }

  predicate Different(players: seq<PlayerRef>) {
    forall i, j :: 0 <= i < j < |players| ==> players[i].playerId != players[j].playerId
  }

  /** Named players, all different, and in no open room. */
  ghost predicate Free(rooms: map<nat, Room>, players: seq<PlayerRef>) {
    && Different(players)
    && forall p :: p in players ==> p.playerId != "" && !IsBusy(rooms, p.playerId)
  }

  /** The room as it was, with these players added. */
  ghost predicate Seated(s: State, s': State, id: nat, players: seq<PlayerRef>)
    requires id in s.rooms
  {
    && OnlyRoom(s, s', id) && id in s'.rooms
    && s'.rooms[id] == s.rooms[id].(members := s.rooms[id].members + Sitting(players), state := s'.rooms[id].state)
    && s'.rooms[id].state == (if s.rooms[id].autoStart && |players| > 0
                                 && |s'.rooms[id].members| >= s.rooms[id].maxPlayers
                              then Playing else s.rooms[id].state)
    && forall t :: t in s'.queue <==>
         t in s.queue && !exists p :: p in players && p.playerId == t.request.player.playerId
  }

  lemma InsideIsBusy(rooms: map<nat, Room>, id: nat, p: string)
    requires id in rooms && rooms[id].state != Closed && HasPlayer(rooms[id], p)
    ensures IsBusy(rooms, p)
  {
  }

  /** A join makes nobody else busy. */
  lemma BusyAfterJoin(s: State, s': State, id: nat, player: PlayerRef, q: string)
    requires id in s.rooms && id in s'.rooms && SitsDown(s, s', id, player) && s.rooms[id].state != Closed
    requires IsBusy(s'.rooms, q) && q != player.playerId
    ensures IsBusy(s.rooms, q)
  {
    var a, m :| a in s'.rooms && s'.rooms[a].state != Closed && m in s'.rooms[a].members && m.player.playerId == q;
    assert a in s.rooms && m in s.rooms[a].members;
  }

  /** The first of the free players joins; the others stay free. */
  lemma FirstJoins(s: State, id: nat, players: seq<PlayerRef>)
    requires QueueInv(s) && RoomInv(s) && id in s.rooms && s.rooms[id].state == Waiting && |players| > 0
    requires Free(s.rooms, players) && |s.rooms[id].members| + |players| <= s.rooms[id].maxPlayers
    ensures var s' := Step(s, OpJoin(id, players[0]));
      && id in s'.rooms
      && SitsDown(s, s', id, players[0]) && Free(s'.rooms, players[1..])
      && (|players| > 1 ==> s'.rooms[id].state == Waiting)
  {
    var p := players[0];
    assert p in players;
    JoinIff(s, id, p);
    if HasPlayer(s.rooms[id], p.playerId) { InsideIsBusy(s.rooms, id, p.playerId); }
    var s' := Step(s, OpJoin(id, p));
    hide Step, QueueInv, RoomInv, LosesTicketOf, IsBusy, HasPlayer;
    forall q | q in players[1..] ensures q.playerId != "" && !IsBusy(s'.rooms, q.playerId) {
      assert q in players && q.playerId != p.playerId;
      if IsBusy(s'.rooms, q.playerId) { BusyAfterJoin(s, s', id, p, q.playerId); }
    }
  }

  lemma SeatedOneMore(s: State, s1: State, s': State, id: nat, players: seq<PlayerRef>)
    requires QueueInv(s) && id in s.rooms && id in s1.rooms && |players| > 0 && s.rooms[id].state == Waiting
    requires SitsDown(s, s1, id, players[0]) && Seated(s1, s', id, players[1..])
    requires |players| > 1 ==> s1.rooms[id].state == Waiting
    ensures Seated(s, s', id, players)
  {
    var p, rest := players[0], players[1..];
    assert players == [p] + rest;
    assert (s.rooms[id].members + [Member(p, false)]) + Sitting(rest) == s.rooms[id].members + Sitting(players);
    forall t ensures t in s'.queue <==>
      t in s.queue && !exists q :: q in players && q.playerId == t.request.player.playerId
    {
      assert t in s1.queue <==> t in s.queue && t.request.player.playerId != p.playerId;
      assert forall q :: q in players <==> q == p || q in rest;
    }
  }

  /** Free players who join a waiting room one after the other, as many as it has places
      for, all sit in it, in that order. */
  lemma {:induction false} AllJoin(s: State, id: nat, players: seq<PlayerRef>)
    requires QueueInv(s) && RoomInv(s) && id in s.rooms && s.rooms[id].state == Waiting
    requires Free(s.rooms, players) && |s.rooms[id].members| + |players| <= s.rooms[id].maxPlayers
    ensures Seated(s, Run(s, Joins(id, players)), id, players)
    decreases |players|
  {
    if |players| == 0 {
      SeatedNone(s, id);
    } else {
      var op := OpJoin(id, players[0]);
      var s1 := Step(s, op);
      FirstJoins(s, id, players);
      StepKeeps(s, op);
      JoinsCons(id, players);
      hide Step, QueueInv, RoomInv, Free, StateFollows, Seated, OnlyRoom, LosesTicketOf;
      if |players| > 1 {
        AllJoin(s1, id, players[1..]);
      } else {
        assert players[1..] == [] && Joins(id, players[1..]) == [];
        SeatedNone(s1, id);
      }
      SeatedOneMore(s, s1, Run(s1, Joins(id, players[1..])), id, players);
    }
  }

  lemma JoinsCons(id: nat, players: seq<PlayerRef>)
    requires |players| > 0
    ensures Joins(id, players) == [OpJoin(id, players[0])] + Joins(id, players[1..])
    ensures Joins(id, players)[1..] == Joins(id, players[1..])
  {
  }

  lemma SeatedNone(s: State, id: nat)
    requires id in s.rooms
    ensures Seated(s, s, id, [])
  {
    assert s.rooms[id].members + Sitting([]) == s.rooms[id].members;
  }

  /** A room created for n players is filled by n - 1 different joiners: it has exactly
      the host and them, in that order and not ready, plays if it starts by itself, no
      other room changes, none of them has a ticket any more, and nobody else gets in. */
  lemma RoomFills(s: State, host: PlayerRef, options: Options, joiners: seq<PlayerRef>, late: PlayerRef)
    requires QueueInv(s) && RoomInv(s) && options.maxPlayers == |joiners| + 1 && Free(s.rooms, [host] + joiners)
    requires Free(s.rooms, [late]) && late.playerId != host.playerId
    requires forall p :: p in joiners ==> p.playerId != late.playerId
    ensures var id := s.nextRoomId; var s' := Run(s, [OpCreate(host, options)] + Joins(id, joiners));
      && OnlyRoom(s, s', id) && id in s'.rooms
      && s'.rooms[id] == Room(id, options.mode, if options.autoStart then Playing else Waiting, options.maxPlayers,
                              options.autoStart, Sitting([host] + joiners))
      && (forall t :: t in s'.queue <==>
            t in s.queue && !exists p :: p in [host] + joiners && p.playerId == t.request.player.playerId)
      && JoinRoom(s', id, late).1.Refused? && JoinRoom(s', id, late).0 == s'
  {
    var id := s.nextRoomId;
    var ops := [OpCreate(host, options)] + Joins(id, joiners);
    var s1 := Step(s, ops[0]);
    HostSits(s, host, options, joiners);
    StepKeeps(s, ops[0]);
    assert ops[1..] == Joins(id, joiners);
    hide Step, RoomInv, Free, OnlyRoom, LosesTicketOf, IsBusy;
    if |joiners| == 0 {
      assert Joins(id, joiners) == [];
      SeatedNone(s1, id);
    } else {
      AllJoin(s1, id, joiners);
    }
    var s' := Run(s1, Joins(id, joiners));
    assert Run(s, ops) == s';
    FilledUp(s, s1, s', host, options, joiners);
    FullForLate(s, s', id, [host] + joiners, late);
    EveryRun(s1, Joins(id, joiners));
    JoinIff(s', id, late);
  }

  lemma HostSits(s: State, host: PlayerRef, options: Options, joiners: seq<PlayerRef>)
    requires QueueInv(s) && RoomInv(s) && options.maxPlayers == |joiners| + 1 && Free(s.rooms, [host] + joiners)
    ensures var s1 := Step(s, OpCreate(host, options)); var id := s.nextRoomId;
      && id !in s.rooms && id in s1.rooms && Creates(s, s1, host, options, s1.rooms[id]) && Free(s1.rooms, joiners)
  {
    assert host in [host] + joiners;
    CreateIff(s, host, options);
    var id, s1 := s.nextRoomId, Step(s, OpCreate(host, options));
    assert id !in s.rooms;
    hide Step, QueueInv, RoomInv, LosesTicketOf;
    var all := [host] + joiners;
    forall i, j | 0 <= i < j < |joiners| ensures joiners[i].playerId != joiners[j].playerId {
      assert all[i + 1] == joiners[i] && all[j + 1] == joiners[j];
    }
    forall p | p in joiners ensures p.playerId != "" && !IsBusy(s1.rooms, p.playerId) {
      var i :| 0 <= i < |joiners| && joiners[i] == p;
      assert all[i + 1] == p && p in all && all[0].playerId != all[i + 1].playerId;
      if IsBusy(s1.rooms, p.playerId) { BusyAfterCreate(s, s1, host, options, p.playerId); }
    }
  }

  lemma BusyAfterCreate(s: State, s': State, host: PlayerRef, options: Options, q: string)
    requires s.nextRoomId !in s.rooms && s.nextRoomId in s'.rooms
    requires Creates(s, s', host, options, s'.rooms[s.nextRoomId]) && IsBusy(s'.rooms, q) && q != host.playerId
    ensures IsBusy(s.rooms, q)
  {
    var a, m :| a in s'.rooms && s'.rooms[a].state != Closed && m in s'.rooms[a].members && m.player.playerId == q;
    assert a in s.rooms && m in s.rooms[a].members;
  }

  lemma FilledUp(s: State, s1: State, s': State, host: PlayerRef, options: Options, joiners: seq<PlayerRef>)
    requires var id := s.nextRoomId;
      id !in s.rooms && id in s1.rooms && Creates(s, s1, host, options, s1.rooms[id]) && Seated(s1, s', id, joiners)
    requires options.maxPlayers == |joiners| + 1
    ensures var id := s.nextRoomId;
      && OnlyRoom(s, s', id) && id in s'.rooms
      && s'.rooms[id] == Room(id, options.mode, if options.autoStart then Playing else Waiting, options.maxPlayers,
                              options.autoStart, Sitting([host] + joiners))
      && forall t :: t in s'.queue <==>
           t in s.queue && !exists p :: p in [host] + joiners && p.playerId == t.request.player.playerId
  {
    assert [Member(host, false)] + Sitting(joiners) == Sitting([host] + joiners);
    forall t ensures t in s'.queue <==>
      t in s.queue && !exists p :: p in [host] + joiners && p.playerId == t.request.player.playerId
    {
      assert t in s1.queue <==> t in s.queue && t.request.player.playerId != host.playerId;
      assert forall p :: p in [host] + joiners <==> p == host || p in joiners;
    }
  }

  /** A full room refuses a player who is not in it. */
  lemma FullForLate(s: State, s': State, id: nat, players: seq<PlayerRef>, late: PlayerRef)
    requires id in s'.rooms && s'.rooms[id].members == Sitting(players) && |players| >= s'.rooms[id].maxPlayers
    requires forall p :: p in players ==> p.playerId != late.playerId
    ensures !MayJoin(s', id, late)
  {
    forall m | m in s'.rooms[id].members ensures m.player.playerId != late.playerId {
      var i :| 0 <= i < |players| && Sitting(players)[i] == m;
      assert players[i] in players;
    }
  }

  // ---------- a full group is matched ----------

  function Asks(players: seq<PlayerRef>, mode: string, size: nat, timeout: int, now: int): seq<Op> {
    seq(|players|, i requires 0 <= i < |players| => OpEnqueue(Request(players[i], mode, size, timeout), now))
  }

  function Tickets(next: nat, players: seq<PlayerRef>, mode: string, size: nat, timeout: int, now: int): seq<Ticket> {
    seq(|players|, i requires 0 <= i < |players| => Ticket(next + i, Request(players[i], mode, size, timeout), now))
  }

  /** None of the players has a ticket. */
  ghost predicate NoneAsked(q: seq<Ticket>, players: seq<PlayerRef>) {
    forall t, p :: t in q && p in players ==> t.request.player.playerId != p.playerId
  }

  /** The first of the free players gets a ticket; the others still have none. */
  lemma FirstAsks(s: State, players: seq<PlayerRef>, request: Request, now: int)
    requires Inv(s) && Free(s.rooms, players) && NoneAsked(s.queue, players) && |players| > 0
    requires request.player == players[0] && request.size > 0
    ensures var s1 := Step(s, OpEnqueue(request, now));
      && Inv(s1) && s1.rooms == s.rooms && s1.nextRoomId == s.nextRoomId && s1.nextTicketId == s.nextTicketId + 1
      && s1.queue == s.queue + [Ticket(s.nextTicketId, request, now)]
      && Free(s1.rooms, players[1..]) && NoneAsked(s1.queue, players[1..])
  {
    assert players[0] in players;
    EnqueueIff(s, request, now);
    StepKeepsAll(s, OpEnqueue(request, now));
    hide Inv, IsBusy;
    assert forall p :: p in players[1..] ==> p in players && p.playerId != players[0].playerId;
  }

  /** Free players who ask one after the other all get their tickets. */
  lemma {:induction false} AllAsk(s: State, players: seq<PlayerRef>, mode: string, size: nat, timeout: int, now: int)
    requires Inv(s) && Free(s.rooms, players) && size > 0 && NoneAsked(s.queue, players)
    ensures var s' := Run(s, Asks(players, mode, size, timeout, now));
      && Inv(s') && s'.rooms == s.rooms && s'.nextRoomId == s.nextRoomId
      && s'.queue == s.queue + Tickets(s.nextTicketId, players, mode, size, timeout, now)
    decreases |players|
  {
    hide Step, Inv, Free, NoneAsked;
    if |players| == 0 {
      NothingAfter(s.queue);
    } else {
      var rest, request := players[1..], Request(players[0], mode, size, timeout);
      var s1 := Step(s, OpEnqueue(request, now));
      FirstAsks(s, players, request, now);
      AllAsk(s1, rest, mode, size, timeout, now);
      AsksCons(players, mode, size, timeout, now);
      TicketsCons(s.nextTicketId, players, mode, size, timeout, now);
      Associate(s.queue, [Ticket(s.nextTicketId, request, now)],
                Tickets(s1.nextTicketId, rest, mode, size, timeout, now));
    }
  }

  lemma AsksCons(players: seq<PlayerRef>, mode: string, size: nat, timeout: int, now: int)
    requires |players| > 0
    ensures var ops := Asks(players, mode, size, timeout, now);
      && ops[0] == OpEnqueue(Request(players[0], mode, size, timeout), now)
      && ops[1..] == Asks(players[1..], mode, size, timeout, now)
  {
  }

  lemma TicketsCons(next: nat, players: seq<PlayerRef>, mode: string, size: nat, timeout: int, now: int)
    requires |players| > 0
    ensures Tickets(next, players, mode, size, timeout, now) ==
      [Ticket(next, Request(players[0], mode, size, timeout), now)]
      + Tickets(next + 1, players[1..], mode, size, timeout, now)
  {
  }

  lemma {:induction false} InFlattened<T>(parts: seq<seq<T>>, i: nat, x: T)
    requires i < |parts| && x in parts[i]
    ensures x in Flatten(parts)
    decreases |parts|
  {
    if i > 0 { InFlattened(parts[1..], i - 1, x); }
  }

  /** A queue that is one full group, none of it expired, is matched by the next tick. */
  lemma LoneGroupPlays(s: State, now: int, size: nat)
    requires Inv(s) && |s.queue| == size && size > 0
    requires forall t :: t in s.queue ==> t.request.size == size && t.request.mode == s.queue[0].request.mode
    requires forall t :: t in s.queue ==> now - t.createdAt < t.request.timeout
    ensures var (s', r) := Tick(s, now);
      && r.groups == [s.queue] && r.expired == [] && s'.queue == []
      && OpensRooms(s.rooms, s.nextRoomId, [s.queue], s'.rooms)
  {
    var (s', r) := Tick(s, now);
    var b := BucketOf(s.queue[0]);
    TickChunksBucket(s, now, b);
    TickOpensRooms(s, now);
    TickConserves(s, now);
    FilterAll(s.queue, IsLive(now));
    FilterNone(s.queue, IsExpired(now));
    FilterAll(s.queue, InBucket(b));
    hide Tick, Inv;
    AllInGroups(s.queue, r.groups, b, multiset(s'.queue));
    FilterAll(r.groups, OpenedFor(b));
    FilterAll(s'.queue, InBucket(b));
    OneChunk(s.queue, r.groups, s'.queue);
  }

  lemma AllInGroups(q: seq<Ticket>, groups: seq<Group>, b: Bucket, rest: multiset<Ticket>)
    requires multiset(q) == multiset(Flatten(groups)) + rest && forall t :: t in q ==> InBucket(b)(t)
    ensures forall g :: g in groups ==> OpenedFor(b)(g)
  {
    forall g | g in groups ensures OpenedFor(b)(g) {
      var i :| 0 <= i < |groups| && groups[i] == g;
      InFlattened(groups, i, g[0]);
      assert g[0] in multiset(Flatten(groups)) && g[0] in multiset(q) && g[0] in q;
      assert InBucket(b)(g[0]);
    }
  }

  lemma OneChunk<T>(s: seq<T>, parts: seq<seq<T>>, left: seq<T>)
    requires |s| > 0 && CutInto(s, |s|, parts, left)
    ensures parts == [s] && left == []
  {
    CutCounts(s, |s|, parts, left);
    assert |s| / |s| == 1 && |s| % |s| == 0;
    assert IsPart(s, |s|, 0, parts[0]) && 0 * |s| == 0;
    assert parts == [parts[0]] && parts[0] == s[0..|s|] == s;
  }

  /** n free players who ask for a room of n, with nobody else waiting, all sit in one
      new playing room after a tick before their timeout, in the order in which they
      asked. */
  lemma GroupIsMatched(s: State, players: seq<PlayerRef>, mode: string, timeout: int, now: int, later: int)
    requires Inv(s) && s.queue == [] && |players| > 0 && Free(s.rooms, players) && later - now < timeout
    ensures var s' := Run(s, Asks(players, mode, |players|, timeout, now) + [OpTick(later)]);
      && OnlyRoom(s, s', s.nextRoomId) && s.nextRoomId in s'.rooms && s'.queue == []
      && s'.rooms[s.nextRoomId] == Room(s.nextRoomId, mode, Playing, |players|, true, Sitting(players))
  {
    var asks := Asks(players, mode, |players|, timeout, now);
    var s1 := Run(s, asks);
    AllAsk(s, players, mode, |players|, timeout, now);
    assert s1.queue == Tickets(s.nextTicketId, players, mode, |players|, timeout, now);
    RunsCompose(s, asks, [OpTick(later)]);
    hide Inv, Run, Free;
    GroupPlays(s1, s.nextTicketId, players, mode, timeout, now, later);
  }

  lemma GroupPlays(s: State, next: nat, players: seq<PlayerRef>, mode: string, timeout: int, now: int, later: int)
    requires Inv(s) && |players| > 0 && later - now < timeout
    requires s.queue == Tickets(next, players, mode, |players|, timeout, now)
    ensures var s' := Run(s, [OpTick(later)]);
      && OnlyRoom(s, s', s.nextRoomId) && s.nextRoomId in s'.rooms && s'.queue == []
      && s'.rooms[s.nextRoomId] == Room(s.nextRoomId, mode, Playing, |players|, true, Sitting(players))
  {
    hide Inv, Tick;
    var id, q := s.nextRoomId, s.queue;
    LoneGroupPlays(s, later, |players|);
    var s' := Step(s, OpTick(later));
    assert s' == Tick(s, later).0;
    OneStep(s, OpTick(later));
    assert Seats(q) == Sitting(players);
    assert [s.queue][0] == q && s'.rooms[id + 0] == FullRoom(id + 0, [s.queue][0]);
  }

  lemma OneStep(s: State, op: Op)
    ensures Run(s, [op]) == Step(s, op)
  {
    assert [op][1..] == [] && Run(Step(s, op), []) == Step(s, op);
  }

  lemma {:induction false} RunsCompose(s: State, a: seq<Op>, b: seq<Op>)
    ensures Run(s, a + b) == Run(Run(s, a), b)
    decreases |a|
  {
    hide Step;
    if |a| == 0 {
      assert a + b == b;
    } else {
      assert (a + b)[0] == a[0] && (a + b)[1..] == a[1..] + b;
      RunsCompose(Step(s, a[0]), a[1..], b);
    }
  }
}
