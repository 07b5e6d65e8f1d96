/** The state synchronisation service itself: the room table updated in place, proved
    against the functions of SyncModel. */
module SyncService {
  import opened Common
  import opened SyncModel
  import M = SyncModel
  import R = SyncReplay

  datatype Error = RoomIdIsZero | PlayerIdIsEmpty | RoomNotRegistered | PlayerNotFound | OutOfOrder | MovementRejected
  datatype Result = Rejected(error: Error) | Taken(state: Player, delta: Option<Delta>)

  /** The first reason to reject an input, in the order they are looked at. */
  function Objection(c: Config, rooms: Rooms, id: nat, input: Input, now: int): Option<Error> {
    if id == 0 then Some(RoomIdIsZero)
    else if input.playerId == "" then Some(PlayerIdIsEmpty)
    else if id !in rooms then Some(RoomNotRegistered)
    else if input.playerId !in rooms[id].players then Some(PlayerNotFound)
    else if input.sequence <= rooms[id].players[input.playerId].lastInput then Some(OutOfOrder)
    else if !MovementAllowed(c, rooms[id].players[input.playerId], input.transform, now) then Some(MovementRejected)
    else None
  }

  datatype Snapshot = Snapshot(roomId: nat, version: nat, players: seq<Player>)

  // ---------- listing a table ----------

  lemma InsertKeepsSorted(ps: seq<Player>, k: nat, p: Player)
    requires R.Sorted(ps) && k <= |ps|
    requires forall i :: 0 <= i < k ==> R.Before(ps[i].playerId, p.playerId)
    requires k < |ps| ==> R.Before(p.playerId, ps[k].playerId)
    ensures R.Sorted(ps[..k] + [p] + ps[k..])
  {
    forall i | k <= i < |ps| ensures R.Before(p.playerId, ps[i].playerId) {
      if i > k { R.BeforeIsTransitive(p.playerId, ps[k].playerId, ps[i].playerId); }
    }
    hide R.Before;
  }

  ghost predicate DistinctIds(ps: seq<Player>) {
    forall i, j :: 0 <= i < j < |ps| ==> ps[i].playerId != ps[j].playerId
  }

  lemma MembersAfterInsert(ps: seq<Player>, k: nat, p: Player)
    requires k <= |ps|
    ensures forall x :: x in ps[..k] + [p] + ps[k..] <==> x in ps || x == p
  {
    assert ps == ps[..k] + ps[k..];
  }

  method SortById(ps: seq<Player>) returns (r: seq<Player>)
    requires DistinctIds(ps)
    ensures R.Sorted(r) && |r| == |ps| && forall p :: p in r <==> p in ps
  {
    r := [];
    for n := 0 to |ps|
      invariant |r| == n && R.Sorted(r) && forall p :: p in r <==> p in ps[..n]
    {
      var p := ps[n];
      var k := 0;
      while k < |r| && R.Before(r[k].playerId, p.playerId)
        invariant k <= |r|
        invariant forall i :: 0 <= i < k ==> R.Before(r[i].playerId, p.playerId)
      {
        k := k + 1;
      }
      if k < |r| {
        assert r[k] in ps[..n];
        R.BeforeIsTotal(r[k].playerId, p.playerId);
      }
      InsertKeepsSorted(r, k, p);
      MembersAfterInsert(r, k, p);
      assert ps[..n + 1] == ps[..n] + [p];
      r := r[..k] + [p] + r[k..];
    }
    assert ps[..|ps|] == ps;
  }

  ghost predicate TableOk(players: map<string, Player>) { forall id :: id in players ==> players[id].playerId == id }

  /** While due snapshots are taken: of the rooms not `left`, each due one has been
      listed once and marked, and nothing else has changed. */
  ghost predicate OneEach(c: Config, before: Rooms, rooms: Rooms, left: set<nat>, snapshots: seq<Snapshot>, now: int) {
    && rooms.Keys == before.Keys
    && (forall id :: id in rooms ==>
          rooms[id] == if id in left then before[id] else RoomStep(c, id, before[id], DueSnapshot(now)))
    && (forall i :: 0 <= i < |snapshots| ==> snapshots[i].roomId !in left && IsSnapshotOf(c, before, snapshots[i], now))
    && (forall id :: id in rooms && id !in left && IsDue(c, before[id], now) ==>
           exists s :: s in snapshots && s.roomId == id)
    && (forall i, j :: 0 <= i < j < |snapshots| ==> snapshots[i].roomId != snapshots[j].roomId)
  }

  ghost predicate IsSnapshotOf(c: Config, rooms: Rooms, s: Snapshot, now: int) {
    && s.roomId in rooms && IsDue(c, rooms[s.roomId], now)
    && s.version == rooms[s.roomId].version && R.IsListing(rooms[s.roomId].players, s.players)
  }

  lemma NoneYet(c: Config, rooms: Rooms, now: int)
    ensures OneEach(c, rooms, rooms, rooms.Keys, [], now)
  {
  }

  lemma StillLeft(c: Config, before: Rooms, rooms: Rooms, left: set<nat>, snapshots: seq<Snapshot>, now: int, id: nat)
    requires OneEach(c, before, rooms, left, snapshots, now) && id in left && id in rooms
    ensures id in before && rooms[id] == before[id]
  {
  }

  lemma OneSkipped(c: Config, before: Rooms, rooms: Rooms, left: set<nat>, snapshots: seq<Snapshot>, now: int, id: nat)
    requires OneEach(c, before, rooms, left, snapshots, now) && id in left && id in before && !IsDue(c, before[id], now)
    ensures OneEach(c, before, rooms, left - {id}, snapshots, now)
  {
  }

  lemma OneTaken(c: Config, before: Rooms, rooms: Rooms, left: set<nat>, snapshots: seq<Snapshot>, now: int,
      id: nat, s: Snapshot)
    requires OneEach(c, before, rooms, left, snapshots, now) && id in left &&
      IsSnapshotOf(c, before, s, now) && s.roomId == id
    ensures OneEach(c, before, rooms[id := before[id].(lastSnapshotAt := now)], left - {id}, snapshots + [s], now)
  {
    hide R.IsListing;
    var more := snapshots + [s];
    forall r | r in rooms && r !in left - {id} && IsDue(c, before[r], now)
      ensures exists x :: x in more && x.roomId == r {
      if r == id {
        assert s in more;
      } else {
        var x :| x in snapshots && x.roomId == r;
        assert x in more;
      }
    }
  }

  lemma AllTaken(c: Config, before: Rooms, rooms: Rooms, snapshots: seq<Snapshot>, now: int)
    requires OneEach(c, before, rooms, {}, snapshots, now)
    ensures rooms == SnapshotDueRooms(c, before, now)
    ensures forall s :: s in snapshots ==> IsSnapshotOf(c, before, s, now)
    ensures forall id :: id in before && IsDue(c, before[id], now) ==> exists s :: s in snapshots && s.roomId == id
    ensures forall i, j :: 0 <= i < j < |snapshots| ==> snapshots[i].roomId != snapshots[j].roomId
  {
  }

  class StateSyncService {
    const config: Config
    var rooms: map<nat, Room>

    /** Players are stored under their own id. */
    ghost predicate Valid()
      reads this
    {
      forall id :: id in rooms ==> TableOk(rooms[id].players)
    }

    constructor (config: Config)
      ensures this.config == config && rooms == map[] && Valid()
    {
      this.config := config;
      rooms := map[];
    }

    method RegisterRoom(id: nat) returns (inserted: bool)
      requires Valid()
      modifies this
      ensures Valid() && rooms == M.RegisterRoom(old(rooms), id)
      ensures inserted <==> rooms != old(rooms)
    {
      if id == 0 { return false; }
      inserted := id !in rooms;
      if inserted {
        rooms := rooms[id := NEW_ROOM];
        assert id in rooms && id !in old(rooms);
      }
    }

    method UnregisterRoom(id: nat) returns (removed: bool)
      requires Valid()
      modifies this
      ensures Valid() && rooms == old(rooms) - {id} && (removed <==> id in old(rooms))
    {
      removed := id in rooms;
      rooms := rooms - {id};
    }

    /** Joins a player, creating the room if need be. A player already there keeps its
        last input and action. */
    method AddPlayer(id: nat, playerId: string, connection: nat, transform: Transform, now: int) returns (r: Result)
      requires Valid()
      modifies this
      ensures Valid() && rooms == OnRoom(config, old(rooms), id, Add(playerId, connection, transform, now))
      ensures id == 0 ==> r == Rejected(RoomIdIsZero)
      ensures id != 0 && playerId == "" ==> r == Rejected(PlayerIdIsEmpty)
      ensures id != 0 && playerId != "" ==> id in rooms && playerId in rooms[id].players
      ensures id != 0 && playerId != "" ==> r == Taken(rooms[id].players[playerId], None)
    {
      if id == 0 { return Rejected(RoomIdIsZero); }
      if playerId == "" { return Rejected(PlayerIdIsEmpty); }
      var room := if id in rooms then rooms[id] else NEW_ROOM;
      var state := Player(playerId, connection, transform, IDLE, 0, true, now);
      if playerId in room.players {
        state := room.players[playerId];
        state := state.(connectionId := connection);
        state := state.(transform := transform);
        state := state.(online := true, updatedAt := now);
      }
      room := room.(players := room.players[playerId := state]);
      room := room.(version := room.version + 1);
      rooms := rooms[id := room];
      r := Taken(state, None);
    }

    method RemovePlayer(id: nat, playerId: string) returns (removed: bool)
      requires Valid()
      modifies this
      ensures Valid() && rooms == OnRoom(config, old(rooms), id, Remove(playerId))
      ensures removed <==> id in old(rooms) && playerId in old(rooms)[id].players
    {
      if id !in rooms { return false; }
      var room := rooms[id];
      removed := playerId in room.players;
      if removed {
        room := room.(players := room.players - {playerId});
        room := room.(version := room.version + 1);
      }
      rooms := rooms[id := room];
    }

    method MarkPlayerOffline(id: nat, playerId: string, now: int) returns (marked: bool)
      requires Valid()
      modifies this
      ensures Valid() && rooms == OnRoom(config, old(rooms), id, Offline(playerId, now))
      ensures marked <==> id in old(rooms) && playerId in old(rooms)[id].players
    {
      if id !in rooms { return false; }
      var room := rooms[id];
      if playerId !in room.players {
        assert rooms == rooms[id := room];
        return false;
      }
      var state := room.players[playerId];
      state := state.(online := false, updatedAt := now);
      room := room.(players := room.players[playerId := state]);
      room := room.(version := room.version + 1);
      rooms := rooms[id := room];
      marked := true;
    }

    /** The movement check on squared distances. */
    method IsMovementAllowed(current: Player, next: Transform, now: int) returns (ok: bool)
      ensures ok == MovementAllowed(config, current, next, now)
    {
      var a, b := current.transform.position, next.position;
      if !Within(a, b, config.maxSingle + config.tolerance) { return false; }
      var elapsed := Millis(now - current.updatedAt);
      if elapsed <= 0 { return Within(a, b, config.tolerance); }
      var seconds := elapsed as real / 1000.0;
      var allowed := config.maxSpeed * seconds + config.tolerance;
      ok := Within(a, b, allowed);
    }

    /** Takes an input that is in order and within the movement authority; whatever is
        rejected changes nothing. */
    method SubmitState(id: nat, input: Input, now: int, later: int) returns (r: Result)
      requires Valid()
      modifies this
      ensures Valid()
      ensures r.Rejected? ==> rooms == old(rooms) && Objection(config, old(rooms), id, input, now) == Some(r.error)
      ensures r.Taken? <==>
          id != 0 && input.playerId != "" && id in old(rooms) && Acceptable(config, old(rooms)[id], input, now)
      ensures r.Taken? ==> rooms == OnRoom(config, old(rooms), id, Submit(input, now, later))
      ensures r.Taken? ==> r.delta == Emits(config, id, old(rooms)[id], Submit(input, now, later))
      ensures r.Taken? ==> r.state == rooms[id].players[input.playerId]
    {
      if id == 0 { return Rejected(RoomIdIsZero); }
      if input.playerId == "" { return Rejected(PlayerIdIsEmpty); }
      if id !in rooms { return Rejected(RoomNotRegistered); }
      var room := rooms[id];
      if input.playerId !in room.players { return Rejected(PlayerNotFound); }
      var state := room.players[input.playerId];
      if input.sequence <= state.lastInput { return Rejected(OutOfOrder); }
      var allowed := IsMovementAllowed(state, input.transform, now);
      if !allowed { return Rejected(MovementRejected); }
      room, r := AcceptInput(id, room, state, input, later);
      rooms := rooms[id := room];
    }

    method AcceptInput(id: nat, before: Room, player: Player, input: Input, now: int) returns (room: Room, r: Result)
      requires input.playerId in before.players && before.players[input.playerId] == player
      ensures room == Accept(config, id, before, input, now)
      ensures r == Taken(room.players[input.playerId], Some(DeltaOf(id, before, input, now)))
    {
      var state := player.(transform := input.transform);
      state := state.(action := input.action);
      state := state.(lastInput := input.sequence);
      state := state.(online := true);
      state := state.(updatedAt := now);
      room := before.(players := before.players[input.playerId := state]);
      room := room.(version := room.version + 1);
      var delta := Delta(id, input.playerId, input.transform, input.action, input.sequence, room.version, now);
      var pending := room.pending + [delta];
      if |pending| > config.maxPending { pending := pending[|pending| - config.maxPending..]; }
      room := room.(pending := pending);
      r := Taken(state, Some(delta));
    }

    /** Lists a room's players, walking the table in an arbitrary order. */
    method BuildSnapshot(id: nat) returns (snapshot: Option<Snapshot>)
      requires Valid()
      ensures snapshot.None? <==> id !in rooms
      ensures snapshot.Some? ==> snapshot.value.roomId == id && snapshot.value.version == rooms[id].version
      ensures snapshot.Some? ==> R.IsListing(rooms[id].players, snapshot.value.players)
    {
      if id !in rooms { return None; }
      var players := rooms[id].players;
      var list: seq<Player> := [];
      var left := players.Keys;
      while left != {}
        invariant left <= players.Keys && DistinctIds(list)
        invariant forall i :: 0 <= i < |list| ==>
          list[i].playerId in players && players[list[i].playerId] == list[i] && list[i].playerId !in left
        invariant forall p :: p in players && p !in left ==> players[p] in list
        decreases |left|
      {
        var p :| p in left;
        left := left - {p};
        list := list + [players[p]];
      }
      var sorted := SortById(list);
      assert forall i :: 0 <= i < |sorted| ==> sorted[i] in list;
      snapshot := Some(Snapshot(id, rooms[id].version, sorted));
    }

    /** Takes the snapshots that are due, one for each such room. */
    method BuildDueSnapshots(now: int) returns (snapshots: seq<Snapshot>)
      requires Valid()
      modifies this
      ensures Valid() && rooms == SnapshotDueRooms(config, old(rooms), now)
      ensures forall s :: s in snapshots ==> IsSnapshotOf(config, old(rooms), s, now)
      ensures forall id :: id in old(rooms) && IsDue(config, old(rooms)[id], now) ==>
        exists s :: s in snapshots && s.roomId == id
      ensures forall i, j :: 0 <= i < j < |snapshots| ==> snapshots[i].roomId != snapshots[j].roomId
    {
      hide OneEach, SnapshotDueRooms;
      snapshots := [];
      var left := rooms.Keys;
      NoneYet(config, rooms, now);
      while left != {}
        invariant left <= rooms.Keys && Valid() && OneEach(config, old(rooms), rooms, left, snapshots, now)
        decreases |left|
      {
        var id :| id in left;
        ghost var all := left;
        StillLeft(config, old(rooms), rooms, all, snapshots, now, id);
        left := left - {id};
        if now - rooms[id].lastSnapshotAt >= config.snapshotInterval * NANOS_PER_MILLI {
          ghost var was := rooms;
          rooms := rooms[id := rooms[id].(lastSnapshotAt := now)];
          var snapshot := BuildSnapshot(id);
          OneTaken(config, old(rooms), was, all, snapshots, now, id, snapshot.value);
          snapshots := snapshots + [snapshot.value];
        } else {
          OneSkipped(config, old(rooms), rooms, all, snapshots, now, id);
        }
      }
      AllTaken(config, old(rooms), rooms, snapshots, now);
    }

    method DrainDeltas(id: nat) returns (deltas: seq<Delta>)
      requires Valid()
      modifies this
      ensures Valid() && rooms == OnRoom(config, old(rooms), id, Drain)
      ensures deltas == if id in old(rooms) then old(rooms)[id].pending else []
    {
      if id !in rooms { return []; }
      deltas := rooms[id].pending;
      rooms := rooms[id := rooms[id].(pending := [])];
    }
  }
}
