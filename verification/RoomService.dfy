/** The room service itself: three coupled tables updated in place, each locked
    block one method, proved against the functions of RoomModel. */
module RoomService {
  import opened Common
  import opened RoomModel
  import M = RoomModel

  class RoomMatchService {
    var nextRoomId: nat
    var nextTicketId: nat
    var rooms: map<nat, Room>
    var matchQueue: seq<Ticket>
    var playerTickets: map<string, nat>

    ghost function View(): State
      reads this
    {
      State(nextRoomId, nextTicketId, rooms, matchQueue, playerTickets)
    }

    constructor ()
      ensures View() == INITIAL
    {
      nextRoomId, nextTicketId := 1, 1;
      rooms, matchQueue, playerTickets := map[], [], map[];
    }

    /** Scans the room table in an arbitrary order for an open room of the player. */
    method FindActiveRoomIdByPlayer(p: string) returns (found: Option<nat>)
      ensures found.None? <==> !InActiveRoom(rooms, p)
      ensures found.Some? ==> found.value in rooms && IsActiveIn(rooms[found.value], p)
    {
      var pending := rooms.Keys;
      while pending != {}
        invariant pending <= rooms.Keys
        invariant forall id :: id in rooms && id !in pending ==> !IsActiveIn(rooms[id], p)
        decreases |pending|
      {
        var id :| id in pending;
        if rooms[id].state != Closed && HasMember(rooms[id].members, p) {
          return Some(id);
        }
        pending := pending - {id};
      }
      return None;
    }

    method RemovePlayerTicket(p: string)
      modifies this`matchQueue, this`playerTickets
      ensures View() == RemoveTicket(old(View()), p)
    {
      if p !in playerTickets { return; }
      var ticketId := playerTickets[p];
      matchQueue := Filter(matchQueue, IdIsNot(ticketId));
      playerTickets := playerTickets - {p};
    }

    method CreateRoom(host: PlayerRef, options: Options) returns (r: RoomResult)
      modifies this
      ensures (View(), r) == M.CreateRoom(old(View()), host, options)
    {
      if host.playerId == "" { return Refused(EmptyPlayerId, None); }
      if options.maxPlayers == 0 { return Refused(ZeroMaxPlayers, None); }
      var current := FindActiveRoomIdByPlayer(host.playerId);
      if current.Some? { return Refused(PlayerInRoom, None); }
      RemovePlayerTicket(host.playerId);
      var room := Room(nextRoomId, options.mode, Waiting, options.maxPlayers, options.autoStart,
                       [Member(host, false)]);
      nextRoomId := nextRoomId + 1;
      room := UpdateRoomState(room);
      rooms := rooms[room.id := room];
      r := Accepted(room);
    }

    method JoinRoom(id: nat, player: PlayerRef) returns (r: RoomResult)
      modifies this
      ensures (View(), r) == M.JoinRoom(old(View()), id, player)
    {
      if player.playerId == "" { return Refused(EmptyPlayerId, None); }
      if id !in rooms { return Refused(RoomNotFound, None); }
      var room := rooms[id];
      if room.state == Closed { return Refused(RoomIsClosed, Some(room)); }
      if HasMember(room.members, player.playerId) { return Accepted(room); }
      var current := FindActiveRoomIdByPlayer(player.playerId);
      if current.Some? && current.value != id { return Refused(PlayerInOtherRoom, None); }
      if |room.members| >= room.maxPlayers { return Refused(RoomIsFull, Some(room)); }
      RemovePlayerTicket(player.playerId);
      room := UpdateRoomState(room.(members := room.members + [Member(player, false)]));
      rooms := rooms[id := room];
      r := Accepted(room);
    }

    method LeaveRoom(id: nat, p: string) returns (r: RoomResult)
      modifies this`rooms
      ensures (View(), r) == M.LeaveRoom(old(View()), id, p)
    {
      if id !in rooms { return Refused(RoomNotFound, None); }
      var room := rooms[id];
      var before := |room.members|;
      room := room.(members := Filter(room.members, IsNotPlayer(p)));
      if |room.members| == before {
        return Refused(PlayerNotInRoom, Some(rooms[id]));
      }
      room := if |room.members| == 0 then room.(state := Closed) else UpdateRoomState(room);
      rooms := rooms[id := room];
      r := Accepted(room);
    }

    method CloseRoom(id: nat) returns (r: RoomResult)
      modifies this`rooms
      ensures (View(), r) == M.CloseRoom(old(View()), id)
    {
      if id !in rooms { return Refused(RoomNotFound, None); }
      rooms := rooms[id := rooms[id].(state := Closed)];
      r := Accepted(rooms[id]);
    }

    method SetReady(id: nat, p: string, ready: bool) returns (r: RoomResult)
      modifies this`rooms
      ensures (View(), r) == M.SetReady(old(View()), id, p, ready)
    {
      if id !in rooms { return Refused(RoomNotFound, None); }
      var room := rooms[id];
      if room.state == Closed { return Refused(RoomIsClosed, Some(room)); }
      var i := FirstIndex(room.members, IsPlayer(p));
      if i == |room.members| { return Refused(PlayerNotInRoom, Some(room)); }
      room := room.(members := room.members[i := room.members[i].(ready := ready)]);
      rooms := rooms[id := room];
      r := Accepted(room);
    }

    method EnqueueMatch(request: Request, now: int) returns (r: TicketResult)
      modifies this
      ensures (View(), r) == M.EnqueueMatch(old(View()), request, now)
    {
      if request.player.playerId == "" { return NotIssued(EmptyPlayerId); }
      if request.size == 0 { return NotIssued(ZeroRoomSize); }
      var current := FindActiveRoomIdByPlayer(request.player.playerId);
      if current.Some? { return NotIssued(PlayerInRoom); }
      if request.player.playerId in playerTickets { return NotIssued(PlayerQueued); }
      var ticket := Ticket(nextTicketId, request, now);
      nextTicketId := nextTicketId + 1;
      playerTickets := playerTickets[request.player.playerId := ticket.id];
      matchQueue := matchQueue + [ticket];
      r := Issued(ticket);
    }

    method CancelMatch(ticketId: nat) returns (ok: bool)
      modifies this`matchQueue, this`playerTickets
      ensures (View(), ok) == M.CancelMatch(old(View()), ticketId)
    {
      var i := FirstIndex(matchQueue, HasId(ticketId));
      if i == |matchQueue| { return false; }
      playerTickets := playerTickets - {matchQueue[i].Player()};
      matchQueue := matchQueue[..i] + matchQueue[i + 1..];
      ok := true;
    }

    method CancelMatchByPlayer(p: string) returns (ok: bool)
      modifies this`matchQueue, this`playerTickets
      ensures (View(), ok) == M.CancelMatchByPlayer(old(View()), p)
    {
      if p !in playerTickets { return false; }
      RemovePlayerTicket(p);
      ok := true;
    }

    // ---------- tick ----------

    /** Erases expired tickets while walking the queue. */
    method ExpireTickets(now: int) returns (expired: seq<Ticket>)
      modifies this`matchQueue, this`playerTickets
      ensures View() == Expire(old(View()), now)
      ensures expired == Filter(old(matchQueue), IsExpired(now))
    {
      expired := [];
      ghost var before := View();
      ghost var seen := 0;
      var at := 0;
      WalkBegins(before, now);
      hide Walked;
      while at < |matchQueue|
        invariant Walked(before, now, seen, at, expired, View())
        invariant |matchQueue| - at == |before.queue| - seen
        decreases |before.queue| - seen
      {
        var ticket := matchQueue[at];
        WalkStep(before, now, seen, at, expired, View());
        if now - ticket.createdAt >= ticket.request.timeout {
          expired := expired + [ticket];
          playerTickets := playerTickets - {ticket.Player()};
          matchQueue := matchQueue[..at] + matchQueue[at + 1..];
        } else {
          at := at + 1;
        }
        seen := seen + 1;
      }
      WalkEnds(before, now, seen, at, expired, View());
    }

    /** Grows one group from a seed by walking the queue. */
    method GrowGroup(seed: Ticket) returns (group: Group)
      ensures group == GroupOf(matchQueue, seed)
    {
      group := [seed];
      var i := 0;
      while i < |matchQueue| && |group| < seed.request.size
        invariant i <= |matchQueue|
        invariant group == [seed] + Filter(matchQueue[..i], IsPartnerOf(seed))
        invariant seed.request.size == 0 ==> i == 0
        invariant seed.request.size > 0 ==> |group| <= seed.request.size
      {
        FilterNext(matchQueue, i, IsPartnerOf(seed));
        if matchQueue[i].id != seed.id && SameBucket(seed, matchQueue[i]) {
          group := group + [matchQueue[i]];
        }
        i := i + 1;
      }
      FilterAppend(matchQueue[..i], matchQueue[i..], IsPartnerOf(seed));
      assert matchQueue == matchQueue[..i] + matchQueue[i..];
      assert i == |matchQueue| ==> matchQueue[i..] == [];
    }

    /** Looks for the first seed whose group is full; without one, the last group
        grown is returned, short or empty. */
    method FindGroup() returns (group: seq<Ticket>)
      ensures var i := FirstIndex(matchQueue, IsFull(matchQueue));
        if i < |matchQueue| then group == GroupOf(matchQueue, matchQueue[i]) && |group| >= group[0].request.size
        else |group| == 0 || |group| < group[0].request.size
    {
      group := [];
      var i := 0;
      while i < |matchQueue|
        invariant i <= |matchQueue|
        invariant forall j :: 0 <= j < i ==> !IsFull(matchQueue)(matchQueue[j])
        invariant |group| == 0 || |group| < group[0].request.size
      {
        var seed := matchQueue[i];
        group := GrowGroup(seed);
        if |group| >= seed.request.size {
          assert IsFull(matchQueue)(matchQueue[i]);
          return;
        }
        i := i + 1;
      }
    }

    method TakeGroupOut(group: seq<Ticket>)
      modifies this`matchQueue, this`playerTickets
      ensures View() == TakeOut(old(View()), group)
    {
      var i := 0;
      while i < |group|
        invariant i <= |group|
        invariant matchQueue == old(matchQueue)
        invariant playerTickets == old(playerTickets) - PlayersOf(group[..i])
      {
        playerTickets := playerTickets - {group[i].Player()};
        i := i + 1;
        assert group[..i] == group[..i - 1] + [group[i - 1]];
        PlayersOfNext(group[..i - 1], group[i - 1]);
      }
      assert group[..i] == group;
      matchQueue := Filter(matchQueue, IdNotIn(IdsOf(group)));
    }

    /** Opens the room of a matched group and seats the group's other players in it. */
    method OpenRoomFor(group: Group) returns (room: Option<Room>)
      requires |group| >= group[0].request.size
      modifies this
      ensures (View(), room.Some?) == SeatGroup(old(View()), group)
      ensures room.Some? ==> room.value == FullRoom(old(nextRoomId), group) && nextRoomId == old(nextRoomId) + 1
    {
      var options := Options(group[0].request.mode, group[0].request.size, true);
      var result := CreateRoom(group[0].request.player, options);
      if result.Refused? { return None; }
      var stored := rooms[result.room.id];
      var i := 1;
      while i < |group|
        invariant 1 <= i <= |group|
        invariant stored == result.room.(members := result.room.members + Seats(group[1..][..i - 1]))
      {
        stored := stored.(members := stored.members + [Member(group[i].request.player, false)]);
        i := i + 1;
        assert Seats(group[1..][..i - 1]) == Seats(group[1..][..i - 2]) + [Member(group[i - 1].request.player, false)];
      }
      assert group[1..][..i - 1] == group[1..];
      stored := UpdateRoomState(stored);
      rooms := rooms[stored.id := stored];
      assert [Member(group[0].request.player, false)] + Seats(group[1..]) == Seats(group);
      return Some(stored);
    }

    /** One round of the matching loop: finds a group, takes it out and opens its
        room. A group whose room is refused is gone from the queue all the same. */
    method FormRoom() returns (room: Option<Room>, ghost group: Group)
      modifies this
      ensures room.None? ==> Match(old(View())) == (View(), [])
      ensures room.Some? ==> Match(old(View())) == (Match(View()).0, [group] + Match(View()).1)
      ensures room.Some? ==> |matchQueue| < |old(matchQueue)| && nextRoomId == old(nextRoomId) + 1
      ensures room.Some? ==> room.value == FullRoom(old(nextRoomId), group)
    {
      hide Match, SeatGroup, TakeOut, GroupOf, IsFull;
      var found := FindGroup();
      if |found| == 0 || |found| < found[0].request.size {
        MatchStops(View());
        room := None;
        group := *;
        return;
      }
      group := found;
      MatchRound(View(), found);
      TakeGroupOut(found);
      room := OpenRoomFor(found);
    }

    /** Opens rooms for as long as a full group is found. */
    method FormRooms() returns (created: seq<Room>)
      modifies this
      ensures View() == Match(old(View())).0
      ensures created == FullRooms(old(nextRoomId), Match(old(View())).1)
    {
      created := [];
      ghost var start := View();
      ghost var groups: seq<Group> := [];
      var createdRoom := true;
      MatchBegins(start);
      hide Match, FullRooms, FullRoom, MatchedSoFar;
      while createdRoom
        invariant created == FullRooms(start.nextRoomId, groups)
        invariant createdRoom ==> MatchedSoFar(start, groups, View())
        invariant !createdRoom ==> Match(start) == (View(), groups)
        decreases createdRoom, |matchQueue|
      {
        createdRoom := false;
        ghost var before := View();
        var room, group := FormRoom();
        if room.Some? {
          MatchGoesOn(start, groups, before, group, View());
          created := created + [room.value];
          groups := groups + [group];
          createdRoom := true;
        } else {
          MatchEnds(start, groups, before, View());
        }
      }
    }

    /** One matchmaking tick: expiry, then matching. */
    method Tick(now: int) returns (created: seq<Room>, expired: seq<Ticket>)
      modifies this
      ensures View() == M.Tick(old(View()), now).0
      ensures expired == M.Tick(old(View()), now).1.expired
      ensures created == FullRooms(old(nextRoomId), M.Tick(old(View()), now).1.groups)
    {
      expired := ExpireTickets(now);
      created := FormRooms();
    }
  }

  /** The matching that began at `start` has formed `groups` and goes on from `s`. */
  ghost predicate MatchedSoFar(start: State, groups: seq<Group>, s: State) {
    && s.nextRoomId == start.nextRoomId + |groups|
    && Match(start) == (Match(s).0, groups + Match(s).1)
  }

  lemma MatchBegins(s: State)
    ensures MatchedSoFar(s, [], s) && FullRooms(s.nextRoomId, []) == []
  {
    assert [] + Match(s).1 == Match(s).1;
  }

  lemma MatchGoesOn(start: State, groups: seq<Group>, s: State, g: Group, s': State)
    requires MatchedSoFar(start, groups, s)
    requires Match(s) == (Match(s').0, [g] + Match(s').1) && s'.nextRoomId == s.nextRoomId + 1
    ensures MatchedSoFar(start, groups + [g], s')
    ensures FullRooms(start.nextRoomId, groups + [g]) ==
        FullRooms(start.nextRoomId, groups) + [FullRoom(s.nextRoomId, g)]
  {
    hide Match;
    Associate(groups, [g], Match(s').1);
    FullRoomsNext(start.nextRoomId, groups, g);
  }

  lemma FullRoomsNext(next: nat, groups: seq<Group>, g: Group)
    ensures FullRooms(next, groups + [g]) == FullRooms(next, groups) + [FullRoom(next + |groups|, g)]
  {
    hide FullRoom;
  }

  lemma MatchEnds(start: State, groups: seq<Group>, s: State, s': State)
    requires MatchedSoFar(start, groups, s) && Match(s) == (s', [])
    ensures Match(start) == (s', groups)
  {
    assert groups + [] == groups;
  }

  lemma MatchStops(s: State)
    requires FirstIndex(s.queue, IsFull(s.queue)) == |s.queue|
    ensures Match(s) == (s, [])
  {
  }

  lemma MatchRound(s: State, g: Group)
    requires var i := FirstIndex(s.queue, IsFull(s.queue)); i < |s.queue| && g == GroupOf(s.queue, s.queue[i])
    ensures var (seated, ok) := SeatGroup(TakeOut(s, g), g);
      && Match(s) == (if ok then (Match(seated).0, [g] + Match(seated).1) else (seated, []))
      && |seated.queue| < |s.queue|
  {
    FilterShorter(s.queue, IdNotIn(IdsOf(g)), FirstIndex(s.queue, IsFull(s.queue)));
    SeatKeepsQueue(TakeOut(s, g), g);
  }

  /** The expiry walk after `seen` tickets: the live ones so far, then the rest. */
  ghost predicate Walked(before: State, now: int, seen: nat, at: nat, expired: seq<Ticket>, s: State) {
    && seen <= |before.queue|
    && at == |Filter(before.queue[..seen], IsLive(now))|
    && expired == Filter(before.queue[..seen], IsExpired(now))
    && s == before.(queue := Filter(before.queue[..seen], IsLive(now)) + before.queue[seen..],
                    tickets := before.tickets - PlayersOf(expired))
  }

  lemma WalkBegins(s: State, now: int)
    ensures Walked(s, now, 0, 0, [], s)
  {
    assert s.tickets - PlayersOf([]) == s.tickets;
    assert s.queue[..0] == [] && [] + s.queue[0..] == s.queue;
  }

  lemma WalkStep(before: State, now: int, seen: nat, at: nat, expired: seq<Ticket>, s: State)
    requires Walked(before, now, seen, at, expired, s) && at < |s.queue|
    ensures var t := s.queue[at];
      if now - t.createdAt >= t.request.timeout then
        Walked(before, now, seen + 1, at, expired + [t],
               s.(queue := s.queue[..at] + s.queue[at + 1..], tickets := s.tickets - {t.Player()}))
      else
        Walked(before, now, seen + 1, at + 1, expired, s)
  {
    var q := before.queue;
    var live := Filter(q[..seen], IsLive(now));
    var t := q[seen];
    FilterNext(q, seen, IsLive(now));
    FilterNext(q, seen, IsExpired(now));
    CutAt(live, q, seen);
    if IsExpired(now)(t) {
      PlayersOfNext(expired, t);
      assert (before.tickets - PlayersOf(expired)) - {t.Player()} == before.tickets - PlayersOf(expired + [t]);
    }
  }

  lemma CutAt<T>(live: seq<T>, q: seq<T>, seen: nat)
    requires seen < |q|
    ensures var all := live + q[seen..];
      && all[|live|] == q[seen]
      && all[..|live|] + all[|live| + 1..] == live + q[seen + 1..]
      && all == (live + [q[seen]]) + q[seen + 1..]
  {
  }

  lemma WalkEnds(before: State, now: int, seen: nat, at: nat, expired: seq<Ticket>, s: State)
    requires Walked(before, now, seen, at, expired, s) && at >= |s.queue|
    ensures s == Expire(before, now) && expired == Filter(before.queue, IsExpired(now))
  {
    assert seen == |before.queue| && before.queue[..seen] == before.queue;
  }

  lemma PlayersOfNext(q: seq<Ticket>, t: Ticket)
    ensures PlayersOf(q + [t]) == PlayersOf(q) + {t.Player()}
  {
    assert t in q + [t];
  }

  lemma FilterNext<T(!new)>(s: seq<T>, i: nat, f: T -> bool)
    requires i < |s|
    ensures Filter(s[..i + 1], f) == Filter(s[..i], f) + if f(s[i]) then [s[i]] else []
  {
    assert s[..i + 1] == s[..i] + [s[i]];
    FilterAppend(s[..i], [s[i]], f);
    assert [s[i]][1..] == [];
  }
}
