/** Whole runs of the room service: what they keep when no one leaves a closed
    room that others are still in, and what that one step breaks. */
module RoomRuns {
  import opened Common
  import opened RoomModel
  import opened RoomInvariant

  /** The step the service does not guard: leaving a closed room in which other
      members remain sets it back to waiting or playing. */
  ghost predicate Reopens(s: State, id: nat, p: string) {
    && id in s.rooms
    && s.rooms[id].state == Closed
    && HasMember(s.rooms[id].members, p)
    && exists m :: m in s.rooms[id].members && m.player.playerId != p
  }

  /** A member left behind is already queued or active somewhere else. */
  ghost predicate StrandsMember(s: State, id: nat, p: string)
    requires id in s.rooms
  {
    exists m :: m in s.rooms[id].members && m.player.playerId != p
      && (m.player.playerId in s.tickets || InActiveRoom(s.rooms, m.player.playerId))
  }

  ghost predicate Guarded(s: State, op: Op) {
    op.OpLeave? ==> !Reopens(s, op.id, op.p)
  }

  // ---------- leaving ----------

  lemma LeaveResult(s: State, id: nat, p: string)
    requires id in s.rooms
    ensures var (s', r) := LeaveRoom(s, id, p); var room := s.rooms[id];
      && (r.Accepted? <==> HasMember(room.members, p))
      && (r.Accepted? ==> s' == s.(rooms := s.rooms[id := r.room]))
      && (r.Accepted? ==> r.room.members == Filter(room.members, IsNotPlayer(p)))
      && (r.Accepted? ==> (r.room.members == [] <==> forall m :: m in room.members ==> m.player.playerId == p))
      && (!r.Accepted? ==> s' == s)
      && (Reopens(s, id, p) ==> s'.rooms[id].state != Closed)
  {
    var room := s.rooms[id];
    FilterSameLength(room.members, IsNotPlayer(p));
    var rest := Filter(room.members, IsNotPlayer(p));
    if rest != [] { assert rest[0] in rest; }
    forall m | m in room.members ensures m in rest || m.player.playerId == p { }
  }

  /** Leaving moves a room's state backwards exactly when the room was closed with
      other members still in it. */
  lemma LeaveForwardIff(s: State, id: nat, p: string)
    ensures Forward(s, LeaveRoom(s, id, p).0) <==> !Reopens(s, id, p)
  {
    if id in s.rooms {
      LeaveResult(s, id, p);
      var s' := LeaveRoom(s, id, p).0;
      if Reopens(s, id, p) {
        assert s'.rooms[id].members != [];
        assert s'.rooms[id].state != Closed;
      }
    }
  }

  /** Leaving keeps the whole invariant exactly when it does not reopen a closed
      room around a member who is queued or active elsewhere. */
  lemma LeaveInvIff(s: State, id: nat, p: string)
    requires Inv(s)
    ensures Inv(LeaveRoom(s, id, p).0) <==> !(Reopens(s, id, p) && StrandsMember(s, id, p))
  {
    LeaveKeeps(s, id, p);
    if id in s.rooms {
      LeaveResult(s, id, p);
      var s' := LeaveRoom(s, id, p).0;
      if Reopens(s, id, p) && StrandsMember(s, id, p) {
        LeaveBreaks(s, id, p);
      } else {
        LeaveKeepsActive(s, id, p);
      }
    }
  }

  lemma TicketOf(s: State, p: string) returns (t: Ticket)
    requires QueueInv(s) && p in s.tickets
    ensures t in s.queue && t.Player() == p && t.id == s.tickets[p]
  {
    t :| t in s.queue && t.Player() == p && t.id == s.tickets[p];
  }

  lemma LeaveBreaks(s: State, id: nat, p: string)
    requires Inv(s) && Reopens(s, id, p) && StrandsMember(s, id, p)
    ensures !ActiveInv(LeaveRoom(s, id, p).0)
  {
    hide QueueInv, RoomInv, UpdateRoomState;
    LeaveResult(s, id, p);
    var s' := LeaveRoom(s, id, p).0;
    UpdateKeepsMembers(s.rooms[id].(members := Filter(s.rooms[id].members, IsNotPlayer(p))));
    var m :| m in s.rooms[id].members && m.player.playerId != p
      && (m.player.playerId in s.tickets || InActiveRoom(s.rooms, m.player.playerId));
    var who := m.player.playerId;
    assert m in s'.rooms[id].members;
    assert IsActiveIn(s'.rooms[id], who);
    if who in s.tickets {
      var t := TicketOf(s, who);
      assert t in s'.queue && InActiveRoom(s'.rooms, t.Player());
    } else {
      var other :| other in s.rooms && IsActiveIn(s.rooms[other], who);
      assert other != id && IsActiveIn(s'.rooms[other], who);
    }
  }

  lemma LeaveKeepsActive(s: State, id: nat, p: string)
    requires Inv(s) && id in s.rooms
    requires !(Reopens(s, id, p) && StrandsMember(s, id, p))
    ensures ActiveInv(LeaveRoom(s, id, p).0)
  {
    LeaveResult(s, id, p);
    var s' := LeaveRoom(s, id, p).0;
    forall x | IsActiveIn(s'.rooms[id], x)
      ensures HasMember(s.rooms[id].members, x)
      ensures s.rooms[id].state == Closed ==> x !in s.tickets && !InActiveRoom(s.rooms, x)
    {
      var m :| m in s'.rooms[id].members && m.player.playerId == x;
      assert m in s.rooms[id].members;
    }
    forall a, b, x | a in s'.rooms && b in s'.rooms && IsActiveIn(s'.rooms[a], x) && IsActiveIn(s'.rooms[b], x)
      ensures a == b
    {
      if a != id { assert IsActiveIn(s.rooms[a], x) && InActiveRoom(s.rooms, x); }
      if b != id { assert IsActiveIn(s.rooms[b], x) && InActiveRoom(s.rooms, x); }
      if s.rooms[id].state != Closed {
        assert a == id ==> IsActiveIn(s.rooms[id], x);
        assert b == id ==> IsActiveIn(s.rooms[id], x);
      }
    }
    forall t | t in s'.queue ensures !InActiveRoom(s'.rooms, t.Player()) {
      assert TicketInv(s, t) && !InActiveRoom(s.rooms, t.Player());
      forall a | a in s'.rooms ensures !IsActiveIn(s'.rooms[a], t.Player()) {
        assert a in s.rooms && !IsActiveIn(s.rooms[a], t.Player());
        assert a != id ==> s'.rooms[a] == s.rooms[a];
      }
    }
  }

  // ---------- the other steps ----------

  /** Steps that drop tickets and leave the rooms alone. */
  lemma FewerTickets(s: State, s': State)
    requires ActiveInv(s) && s'.rooms == s.rooms
    requires forall t :: t in s'.queue ==> t in s.queue
    ensures ActiveInv(s')
  {
  }

  /** Replacing one room by one whose active players are `newcomers`, active nowhere and
     not queued, or were active in it before. */
  lemma PutActiveRoom(s: State, s': State, r: Room, newcomers: set<string>)
    requires ActiveInv(s)
    requires s'.rooms == s.rooms[r.id := r]
    requires forall t :: t in s'.queue ==> t in s.queue && t.Player() !in newcomers
    requires forall x :: x in newcomers ==> !InActiveRoom(s.rooms, x)
    requires forall x :: IsActiveIn(r, x) ==> x in newcomers || (r.id in s.rooms && IsActiveIn(s.rooms[r.id], x))
    ensures ActiveInv(s')
  {
    forall a, b, x | a in s'.rooms && b in s'.rooms && IsActiveIn(s'.rooms[a], x) && IsActiveIn(s'.rooms[b], x)
      ensures a == b
    {
      if a != r.id { assert IsActiveIn(s.rooms[a], x) && InActiveRoom(s.rooms, x); }
      if b != r.id { assert IsActiveIn(s.rooms[b], x) && InActiveRoom(s.rooms, x); }
    }
    forall t | t in s'.queue ensures !InActiveRoom(s'.rooms, t.Player()) {
      assert !InActiveRoom(s.rooms, t.Player());
      forall a | a in s'.rooms ensures !IsActiveIn(s'.rooms[a], t.Player()) {
        assert a != r.id ==> s'.rooms[a] == s.rooms[a];
        assert a in s.rooms ==> !IsActiveIn(s.rooms[a], t.Player());
      }
    }
  }

  lemma CreateKeepsActive(s: State, host: PlayerRef, options: Options)
    requires Inv(s)
    ensures ActiveInv(CreateRoom(s, host, options).0)
  {
    var (s', r) := CreateRoom(s, host, options);
    if r.Accepted? {
      RemoveTicketKeepsQueueInv(s, host.playerId);
      PutActiveRoom(s, s', r.room, {host.playerId});
    }
  }

  lemma UpdateKeepsMembers(r: Room)
    ensures var r' := UpdateRoomState(r); r'.id == r.id && r'.members == r.members
  {
  }

  lemma JoinAddsOne(ms: seq<Member>, player: PlayerRef)
    ensures forall x :: HasMember(ms + [Member(player, false)], x) ==> x == player.playerId || HasMember(ms, x)
  {
    forall x | HasMember(ms + [Member(player, false)], x) && x != player.playerId ensures HasMember(ms, x) {
      var m :| m in ms + [Member(player, false)] && m.player.playerId == x;
      assert m in ms;
    }
  }

  lemma JoinKeepsActive(s: State, id: nat, player: PlayerRef)
    requires Inv(s)
    ensures ActiveInv(JoinRoom(s, id, player).0)
  {
    assert id in s.rooms ==> s.rooms[id].id == id;
    hide QueueInv, RoomInv, ActiveInv, UpdateRoomState;
    var (s', r) := JoinRoom(s, id, player);
    if r.Accepted? && s' != s {
      RemoveTicketKeepsQueueInv(s, player.playerId);
      JoinAddsOne(s.rooms[id].members, player);
      UpdateKeepsMembers(s.rooms[id].(members := s.rooms[id].members + [Member(player, false)]));
      PutActiveRoom(s, s', r.room, {player.playerId});
    }
  }

  lemma CancelKeepsActive(s: State, ticketId: nat, p: string)
    requires Inv(s)
    ensures ActiveInv(CancelMatch(s, ticketId).0) && ActiveInv(CancelMatchByPlayer(s, p).0)
  {
    FewerTickets(s, CancelMatch(s, ticketId).0);
    FewerTickets(s, CancelMatchByPlayer(s, p).0);
  }

  lemma CloseKeepsActive(s: State, id: nat)
    requires Inv(s)
    ensures ActiveInv(CloseRoom(s, id).0)
  {
    if id in s.rooms { PutActiveRoom(s, CloseRoom(s, id).0, s.rooms[id].(state := Closed), {}); }
  }

  lemma ReadyKeepsActive(s: State, id: nat, p: string, ready: bool)
    requires Inv(s)
    ensures ActiveInv(SetReady(s, id, p, ready).0)
  {
    var (s', r) := SetReady(s, id, p, ready);
    if r.Accepted? {
      var ms, ms' := s.rooms[id].members, r.room.members;
      forall x | IsActiveIn(r.room, x) ensures IsActiveIn(s.rooms[id], x) {
        var m :| m in ms' && m.player.playerId == x;
        var i :| 0 <= i < |ms'| && ms'[i] == m;
        assert ms[i] in ms && ms[i].player.playerId == x;
      }
      PutActiveRoom(s, s', r.room, {});
    }
  }

  lemma EnqueueKeepsActive(s: State, request: Request, now: int)
    requires Inv(s)
    ensures ActiveInv(EnqueueMatch(s, request, now).0)
  {
  }

  lemma SeatKeepsActive(s: State, g: Group)
    requires QueueInv(s) && RoomInv(s) && ActiveInv(s) && IsGroup(s, g)
    requires forall t :: t in g ==> !InActiveRoom(s.rooms, t.Player())
    ensures SeatGroup(s, g).1 && ActiveInv(SeatGroup(s, g).0)
  {
    SeatGroupSpec(s, g);
    assert g[0] in g;
    var r := FullRoom(s.nextRoomId, g);
    forall t | t in s.queue ensures t.Player() !in PlayersOf(g) { assert TicketInv(s, t); }
    forall x | IsActiveIn(r, x) ensures x in PlayersOf(g) {
      var m :| m in r.members && m.player.playerId == x;
      var i :| 0 <= i < |g| && m == Seats(g)[i];
      assert g[i] in g;
    }
    PutActiveRoom(s, SeatGroup(s, g).0, r, PlayersOf(g));
  }

  lemma PutForward(s: State, s': State, r: Room)
    requires s'.rooms == s.rooms[r.id := r]
    requires r.id in s.rooms ==> Rank(s.rooms[r.id].state) <= Rank(r.state)
    ensures Forward(s, s')
  {
  }

  /** Under the invariant a round of the matching loop never has its room refused,
      so no group is taken out of the queue without getting its room. */
  lemma RoundKeepsAll(s: State, i: nat)
    requires Inv(s) && i < |s.queue| && IsFull(s.queue)(s.queue[i])
    ensures var g := GroupOf(s.queue, s.queue[i]); var out := TakeOut(s, g); var (seated, ok) := SeatGroup(out, g);
      && ok && Inv(seated) && Forward(s, seated) && IsGroup(out, g)
      && seated.queue == out.queue && |seated.queue| < |s.queue|
      && seated.nextRoomId == s.nextRoomId + 1
      && seated.rooms == s.rooms[s.nextRoomId := FullRoom(s.nextRoomId, g)]
  {
    var g := GroupOf(s.queue, s.queue[i]);
    var out := TakeOut(s, g);
    RoundFacts(s, i);
    FewerTickets(s, out);
    GroupFacts(s, s.queue[i]);
    SeatKeeps(out, g);
    SeatKeepsActive(out, g);
    SeatGroupSpec(out, g);
    assert s.nextRoomId !in s.rooms;
    PutForward(s, SeatGroup(out, g).0, FullRoom(s.nextRoomId, g));
    hide Forward;
    FilterShorter(s.queue, IdNotIn(IdsOf(g)), i);
  }

  lemma {:induction false} MatchKeepsActive(s: State)
    requires Inv(s)
    ensures Inv(Match(s).0) && Forward(s, Match(s).0)
    decreases |s.queue|
  {
    var i := FirstIndex(s.queue, IsFull(s.queue));
    if i < |s.queue| {
      RoundKeepsAll(s, i);
      var g := GroupOf(s.queue, s.queue[i]);
      MatchKeepsActive(SeatGroup(TakeOut(s, g), g).0);
    }
  }

  lemma TickKeepsActive(s: State, now: int)
    requires Inv(s)
    ensures Inv(Tick(s, now).0) && Forward(s, Tick(s, now).0)
  {
    ExpireKeeps(s, now);
    FewerTickets(s, Expire(s, now));
    MatchKeepsActive(Expire(s, now));
  }

  lemma RoomStepKeepsActive(s: State, op: Op)
    requires Inv(s) && Guarded(s, op)
    requires op.OpCreate? || op.OpJoin? || op.OpLeave? || op.OpClose? || op.OpReady?
    ensures ActiveInv(Step(s, op))
  {
    hide ActiveInv, QueueInv, RoomInv;
    match op
    case OpCreate(host, options) => CreateKeepsActive(s, host, options);
    case OpJoin(id, player) => JoinKeepsActive(s, id, player);
    case OpLeave(id, p) => LeaveInvIff(s, id, p);
    case OpClose(id) => CloseKeepsActive(s, id);
    case OpReady(id, p, ready) => ReadyKeepsActive(s, id, p, ready);
  }

  lemma QueueStepKeepsActive(s: State, op: Op)
    requires Inv(s)
    requires op.OpEnqueue? || op.OpCancel? || op.OpCancelBy? || op.OpTick?
    ensures ActiveInv(Step(s, op))
  {
    hide ActiveInv, QueueInv, RoomInv;
    match op
    case OpEnqueue(request, now) => EnqueueKeepsActive(s, request, now);
    case OpCancel(ticketId) => CancelKeepsActive(s, ticketId, "");
    case OpCancelBy(p) => CancelKeepsActive(s, 0, p);
    case OpTick(now) => TickKeepsActive(s, now);
  }

  lemma StepForward(s: State, op: Op)
    requires Inv(s) && Guarded(s, op)
    ensures Forward(s, Step(s, op))
  {
    var s' := Step(s, op);
    assert forall id :: id in s.rooms ==> id < s.nextRoomId;
    hide Inv, QueueInv, RoomInv, ActiveInv, Reopens, Tick;
    match op
    case OpCreate(host, options) =>
      if s' != s { PutForward(s, s', s'.rooms[s.nextRoomId]); }
    case OpJoin(id, player) =>
      if s' != s { PutForward(s, s', s'.rooms[id]); }
    case OpLeave(id, p) => LeaveForwardIff(s, id, p);
    case OpClose(id) =>
      if s' != s { PutForward(s, s', s'.rooms[id]); }
    case OpReady(id, p, ready) =>
      if s' != s { PutForward(s, s', s'.rooms[id]); }
    case OpTick(now) => TickKeepsActive(s, now);
    case _ => assert s'.rooms == s.rooms;
  }

  /** One guarded step keeps the invariant and never moves a room backwards. */
  lemma StepKeepsAll(s: State, op: Op)
    requires Inv(s) && Guarded(s, op)
    ensures Inv(Step(s, op)) && Forward(s, Step(s, op))
  {
    StepKeeps(s, op);
    if op.OpEnqueue? || op.OpCancel? || op.OpCancelBy? || op.OpTick? {
      QueueStepKeepsActive(s, op);
    } else {
      RoomStepKeepsActive(s, op);
    }
    StepForward(s, op);
  }

  // ---------- runs ----------

  ghost predicate GuardedRun(s: State, ops: seq<Op>)
    decreases |ops|
  {
    |ops| == 0 || (Guarded(s, ops[0]) && GuardedRun(Step(s, ops[0]), ops[1..]))
  }

  /** Every run, guarded or not, keeps the queue and the player index in bijection
      and every room well formed. */
  lemma {:induction false} EveryRun(s: State, ops: seq<Op>)
    requires QueueInv(s) && RoomInv(s)
    ensures QueueInv(Run(s, ops)) && RoomInv(Run(s, ops))
    decreases |ops|
  {
    if |ops| != 0 {
      StepKeeps(s, ops[0]);
      EveryRun(Step(s, ops[0]), ops[1..]);
    }
  }

  /** Every guarded run keeps the whole invariant, and room states only advance. */
  lemma {:induction false} EveryGuardedRun(s: State, ops: seq<Op>)
    requires Inv(s) && GuardedRun(s, ops)
    ensures Inv(Run(s, ops)) && Forward(s, Run(s, ops))
    decreases |ops|
  {
    if |ops| != 0 {
      StepKeepsAll(s, ops[0]);
      EveryGuardedRun(Step(s, ops[0]), ops[1..]);
    }
  }

  lemma InitialIsFine()
    ensures Inv(INITIAL)
  {
  }

  /** Under the invariant a player's active room is unique, so whichever room a scan
      of the unordered table finds first is the answer. */
  lemma ActiveRoomIsUnique(s: State, a: nat, b: nat, p: string)
    requires Inv(s) && a in s.rooms && b in s.rooms
    requires IsActiveIn(s.rooms[a], p) && IsActiveIn(s.rooms[b], p)
    ensures a == b
    ensures p !in s.tickets
  {
    if p in s.tickets {
      var t :| t in s.queue && t.Player() == p && t.id == s.tickets[p];
      assert InActiveRoom(s.rooms, t.Player());
    }
  }

  // ---------- the unguarded run ----------

  const ANN := PlayerRef("ann", 1)
  const BOB := PlayerRef("bob", 2)
  const FOUR := Options("default", 4, true)

  function Met(): State {
    CloseRoom(JoinRoom(CreateRoom(INITIAL, ANN, FOUR).0, 1, BOB).0, 1).0
  }

  lemma MetState()
    ensures Met() == Run(INITIAL, [OpCreate(ANN, FOUR), OpJoin(1, BOB), OpClose(1)])
    ensures Met() == State(2, 1, map[1 := Room(1, "default", Closed, 4, true,
        [Member(ANN, false), Member(BOB, false)])],
                           [], map[])
  {
    var s1 := CreateRoom(INITIAL, ANN, FOUR).0;
    assert s1.rooms == map[1 := Room(1, "default", Waiting, 4, true, [Member(ANN, false)])];
    var s2 := JoinRoom(s1, 1, BOB).0;
    assert !HasMember(s1.rooms[1].members, "bob") && !InActiveRoom(s1.rooms, "bob");
    assert s2.rooms[1] == Room(1, "default", Waiting, 4, true, [Member(ANN, false), Member(BOB, false)]);
    var ops := [OpCreate(ANN, FOUR), OpJoin(1, BOB), OpClose(1)];
    assert ops[1..] == [OpJoin(1, BOB), OpClose(1)] && ops[1..][1..] == [OpClose(1)] && ops[1..][1..][1..] == [];
    assert Run(s2, [OpClose(1)]) == Run(CloseRoom(s2, 1).0, []);
  }

  lemma ReopenedRoom(s: State)
    requires 1 in s.rooms
    requires s.rooms[1] == Room(1, "default", Closed, 4, true, [Member(ANN, false), Member(BOB, false)])
    ensures LeaveRoom(s, 1, "ann").0 ==
      s.(rooms := s.rooms[1 := Room(1, "default", Waiting, 4, true, [Member(BOB, false)])])
  {
    var ms := [Member(ANN, false), Member(BOB, false)];
    assert ms[1..] == [Member(BOB, false)] && ms[1..][1..] == [];
    assert Filter(ms[1..], IsNotPlayer("ann")) == [ms[1..][0]] + Filter(ms[1..][1..], IsNotPlayer("ann"));
    assert Filter(ms, IsNotPlayer("ann")) == [Member(BOB, false)];
  }

  ghost predicate InTwoRooms(s: State, a: nat, b: nat, p: string) {
    a != b && a in s.rooms && b in s.rooms && IsActiveIn(s.rooms[a], p) && IsActiveIn(s.rooms[b], p)
  }

  /** Without the guard: after ann and bob's room is closed, bob opens another, and
      ann leaving the closed one puts bob into two active rooms. */
  lemma UnguardedRunBreaks()
    ensures exists ops: seq<Op> :: InTwoRooms(Run(INITIAL, ops), 1, 2, "bob")
    ensures forall s :: InTwoRooms(s, 1, 2, "bob") ==> !ActiveInv(s)
  {
    MetState();
    var prefix := [OpCreate(ANN, FOUR), OpJoin(1, BOB), OpClose(1)];
    var suffix := [OpCreate(BOB, FOUR), OpLeave(1, "ann")];
    RunAppend(INITIAL, prefix, suffix);
    var s3 := CreateRoom(Met(), BOB, FOUR).0;
    assert !InActiveRoom(Met().rooms, "bob");
    var s4 := LeaveRoom(s3, 1, "ann").0;
    ReopenedRoom(s3);
    assert suffix[1..] == [OpLeave(1, "ann")] && suffix[1..][1..] == [];
    assert Run(Met(), suffix) == Run(s3, suffix[1..]) == Run(s4, []);
    assert Member(BOB, false) in s4.rooms[1].members && Member(BOB, false) in s4.rooms[2].members;
    assert InTwoRooms(Run(INITIAL, prefix + suffix), 1, 2, "bob");
  }

  lemma {:induction false} RunAppend(s: State, a: seq<Op>, b: seq<Op>)
    ensures Run(s, a + b) == Run(Run(s, a), b)
    decreases |a|
  {
    if |a| == 0 {
      assert a + b == b;
    } else {
      assert (a + b)[1..] == a[1..] + b;
      RunAppend(Step(s, a[0]), a[1..], b);
    }
  }
}
