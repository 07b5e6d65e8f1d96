/** What every run of room operations keeps, and exactly which step breaks it. */
module RoomInvariant {
  import opened Common
  import opened RoomModel

  /** The queue and the player index describe the same tickets. */
  ghost predicate QueueInv(s: State) {
    && OldestFirst(s.queue)
    && (forall t :: t in s.queue ==> TicketInv(s, t))
    && (forall p :: p in s.tickets ==> exists t :: t in s.queue && t.Player() == p && t.id == s.tickets[p])
  }

  ghost predicate OldestFirst(q: seq<Ticket>) {
    forall i, j :: 0 <= i < j < |q| ==> q[i].id < q[j].id
  }

  ghost predicate TicketInv(s: State, t: Ticket) {
    && t.id < s.nextTicketId
    && t.Player() != ""
    && t.request.size > 0
    && t.Player() in s.tickets
    && s.tickets[t.Player()] == t.id
  }

  ghost predicate DistinctMembers(ms: seq<Member>) {
    forall i, j :: 0 <= i < j < |ms| ==> ms[i].player.playerId != ms[j].player.playerId
  }

  ghost predicate RoomOk(r: Room) {
    && DistinctMembers(r.members)
    && (forall m :: m in r.members ==> m.player.playerId != "")
    && 0 < r.maxPlayers
    && |r.members| <= r.maxPlayers
    && (r.state != Closed ==> 1 <= |r.members|)
    && (r.state == Waiting && r.autoStart ==> |r.members| < r.maxPlayers)
  }

  ghost predicate RoomInv(s: State) {
    forall id :: id in s.rooms ==> s.rooms[id].id == id && id < s.nextRoomId && RoomOk(s.rooms[id])
  }

  /** No player is in two active rooms, and no queued player is in one. */
  ghost predicate ActiveInv(s: State) {
    && (forall a, b, p :: a in s.rooms && b in s.rooms && IsActiveIn(s.rooms[a], p) && IsActiveIn(s.rooms[b], p) ==>
           a == b)
    && (forall t :: t in s.queue ==> !InActiveRoom(s.rooms, t.Player()))
  }

  ghost predicate Inv(s: State) { QueueInv(s) && RoomInv(s) && ActiveInv(s) }

  function Rank(r: RoomState): nat {
    match r case Waiting => 0 case Playing => 1 case Closed => 2
  }

  /** Rooms are never forgotten and their state never moves backwards. */
  ghost predicate Forward(s: State, s': State) {
    forall id :: id in s.rooms ==> id in s'.rooms && Rank(s.rooms[id].state) <= Rank(s'.rooms[id].state)
  }

  // ---------- small facts ----------

  lemma {:induction false} FilterKeepsOrder(q: seq<Ticket>, keep: Ticket -> bool)
    requires OldestFirst(q)
    ensures OldestFirst(Filter(q, keep))
  {
    if |q| != 0 {
      FilterKeepsOrder(q[1..], keep);
      var r := Filter(q[1..], keep);
      forall j | 0 <= j < |r| ensures q[0].id < r[j].id {
        assert r[j] in r;
      }
      var all := Filter(q, keep);
      forall i, j | 0 <= i < j < |all| ensures all[i].id < all[j].id {
        if keep(q[0]) {
          assert all == [q[0]] + r;
          assert all[j] == r[j - 1];
          if i != 0 { assert all[i] == r[i - 1]; }
        }
      }
    }
  }

  lemma {:induction false} FilterKeepsDistinct(ms: seq<Member>, keep: Member -> bool)
    requires DistinctMembers(ms)
    ensures DistinctMembers(Filter(ms, keep))
  {
    if |ms| != 0 {
      FilterKeepsDistinct(ms[1..], keep);
      var r := Filter(ms[1..], keep);
      forall j | 0 <= j < |r| ensures ms[0].player.playerId != r[j].player.playerId {
        assert r[j] in r;
      }
    }
  }

  lemma {:induction false} FilterSameLength<T(!new)>(s: seq<T>, f: T -> bool)
    ensures |Filter(s, f)| == |s| <==> forall x :: x in s ==> f(x)
  {
    if x :| x in s && !f(x) {
      var i :| 0 <= i < |s| && s[i] == x;
      FilterShorter(s, f, i);
    } else {
      FilterAll(s, f);
    }
  }

  /** Two tickets with the same id, or of the same player, are the same ticket. */
  lemma SameTicket(s: State, a: Ticket, b: Ticket)
    requires QueueInv(s) && a in s.queue && b in s.queue
    requires a.id == b.id || a.Player() == b.Player()
    ensures a == b
  {
    assert TicketInv(s, a) && TicketInv(s, b);
    var i :| 0 <= i < |s.queue| && s.queue[i] == a;
    var j :| 0 <= j < |s.queue| && s.queue[j] == b;
  }

  /** Dropping tickets together with their players keeps the two structures in step. */
  lemma DropKeepsQueueInv(s: State, keep: Ticket -> bool, gone: set<string>)
    requires QueueInv(s)
    requires forall t :: t in s.queue ==> (keep(t) <==> t.Player() !in gone)
    ensures QueueInv(s.(queue := Filter(s.queue, keep), tickets := s.tickets - gone))
  {
    FilterKeepsOrder(s.queue, keep);
    var s' := s.(queue := Filter(s.queue, keep), tickets := s.tickets - gone);
    forall p | p in s'.tickets
      ensures exists t :: t in s'.queue && t.Player() == p && t.id == s'.tickets[p]
    {
      var t :| t in s.queue && t.Player() == p && t.id == s.tickets[p];
      assert t in s'.queue;
    }
    forall t | t in s'.queue ensures TicketInv(s', t) { assert TicketInv(s, t); }
  }

  /** Dropping one ticket by id together with its player's entry. */
  lemma DropOne(s: State, own: Ticket)
    requires QueueInv(s) && own in s.queue
    ensures QueueInv(s.(queue := Filter(s.queue, IdIsNot(own.id)), tickets := s.tickets - {own.Player()}))
    ensures forall t :: t in Filter(s.queue, IdIsNot(own.id)) <==> t in s.queue && t.Player() != own.Player()
  {
    forall t | t in s.queue ensures IdIsNot(own.id)(t) <==> t.Player() !in {own.Player()} {
      if t.id == own.id || t.Player() == own.Player() { SameTicket(s, t, own); }
    }
    DropKeepsQueueInv(s, IdIsNot(own.id), {own.Player()});
  }

  lemma RemoveTicketKeepsQueueInv(s: State, p: string)
    requires QueueInv(s)
    ensures QueueInv(RemoveTicket(s, p))
    ensures forall t :: t in RemoveTicket(s, p).queue <==> t in s.queue && t.Player() != p
  {
    if p in s.tickets {
      var own :| own in s.queue && own.Player() == p && own.id == s.tickets[p];
      DropOne(s, own);
    } else {
      forall t | t in s.queue ensures t.Player() != p { assert TicketInv(s, t); }
    }
  }

  // ---------- the queue and the room table, on every step ----------

  /** The queue invariant only reads the queue, the index and the ticket counter. */
  lemma FrameQueue(s: State, s': State)
    requires QueueInv(s)
    requires s'.queue == s.queue && s'.tickets == s.tickets && s'.nextTicketId >= s.nextTicketId
    ensures QueueInv(s')
  {
    forall t | t in s'.queue ensures TicketInv(s', t) { assert TicketInv(s, t); }
  }

  lemma SameRooms(s: State, s': State)
    requires RoomInv(s) && s'.rooms == s.rooms && s'.nextRoomId == s.nextRoomId
    ensures RoomInv(s')
  {
  }

  lemma PutRoom(s: State, s': State, r: Room)
    requires RoomInv(s) && RoomOk(r) && r.id < s'.nextRoomId && s.nextRoomId <= s'.nextRoomId
    requires s'.rooms == s.rooms[r.id := r]
    ensures RoomInv(s')
  {
  }

  lemma CreateKeeps(s: State, host: PlayerRef, options: Options)
    requires QueueInv(s) && RoomInv(s)
    ensures var s' := CreateRoom(s, host, options).0; QueueInv(s') && RoomInv(s')
  {
    var (s', r) := CreateRoom(s, host, options);
    if r.Accepted? {
      RemoveTicketKeepsQueueInv(s, host.playerId);
      FrameQueue(RemoveTicket(s, host.playerId), s');
      assert RoomOk(r.room);
      PutRoom(s, s', r.room);
    }
  }

  lemma JoinKeeps(s: State, id: nat, player: PlayerRef)
    requires QueueInv(s) && RoomInv(s)
    ensures var s' := JoinRoom(s, id, player).0; QueueInv(s') && RoomInv(s')
  {
    hide QueueInv;
    var (s', r) := JoinRoom(s, id, player);
    if r.Accepted? && s' != s {
      RemoveTicketKeepsQueueInv(s, player.playerId);
      FrameQueue(RemoveTicket(s, player.playerId), s');
      var ms := s.rooms[id].members;
      var ms' := ms + [Member(player, false)];
      assert RoomOk(s.rooms[id]);
      forall i, j | 0 <= i < j < |ms'| ensures ms'[i].player.playerId != ms'[j].player.playerId {
        if j == |ms| { assert ms'[i] in ms; }
      }
      assert RoomOk(r.room);
      PutRoom(s, s', r.room);
    }
  }

  lemma LeaveKeeps(s: State, id: nat, p: string)
    requires QueueInv(s) && RoomInv(s)
    ensures var s' := LeaveRoom(s, id, p).0; QueueInv(s') && RoomInv(s')
  {
    var (s', r) := LeaveRoom(s, id, p);
    if r.Accepted? {
      FrameQueue(s, s');
      FilterKeepsDistinct(s.rooms[id].members, IsNotPlayer(p));
      assert RoomOk(r.room);
      PutRoom(s, s', r.room);
    }
  }

  lemma CloseKeeps(s: State, id: nat)
    requires QueueInv(s) && RoomInv(s)
    ensures var s' := CloseRoom(s, id).0; QueueInv(s') && RoomInv(s')
  {
    FrameQueue(s, CloseRoom(s, id).0);
    if id in s.rooms { PutRoom(s, CloseRoom(s, id).0, s.rooms[id].(state := Closed)); }
  }

  lemma ReadyKeeps(s: State, id: nat, p: string, ready: bool)
    requires QueueInv(s) && RoomInv(s)
    ensures var s' := SetReady(s, id, p, ready).0; QueueInv(s') && RoomInv(s')
  {
    var (s', r) := SetReady(s, id, p, ready);
    if r.Accepted? {
      FrameQueue(s, s');
      var ms, ms' := s.rooms[id].members, r.room.members;
      assert |ms'| == |ms| && forall i :: 0 <= i < |ms| ==> ms'[i].player == ms[i].player;
      assert RoomOk(s.rooms[id]);
      forall m | m in ms' ensures m.player.playerId != "" {
        var i :| 0 <= i < |ms'| && ms'[i] == m;
        assert ms[i] in ms;
      }
      assert RoomOk(r.room);
      PutRoom(s, s', r.room);
    }
  }

  lemma EnqueueKeeps(s: State, request: Request, now: int)
    requires QueueInv(s) && RoomInv(s)
    ensures var s' := EnqueueMatch(s, request, now).0; QueueInv(s') && RoomInv(s')
  {
    var (s', r) := EnqueueMatch(s, request, now);
    if r.Issued? {
      forall t | t in s'.queue ensures TicketInv(s', t) {
        if t in s.queue { assert TicketInv(s, t); }
      }
      forall i, j | 0 <= i < j < |s'.queue| ensures s'.queue[i].id < s'.queue[j].id {
        assert s'.queue[i] in s.queue;
        assert TicketInv(s, s'.queue[i]);
      }
      forall p | p in s'.tickets
        ensures exists t :: t in s'.queue && t.Player() == p && t.id == s'.tickets[p]
      {
        if p in s.tickets {
          var t :| t in s.queue && t.Player() == p && t.id == s.tickets[p];
          assert t in s'.queue;
        } else {
          assert r.ticket in s'.queue;
        }
      }
    }
  }

  lemma {:induction false} RemoveAt(q: seq<Ticket>, i: nat)
    requires i < |q|
    requires OldestFirst(q)
    ensures Filter(q, IdIsNot(q[i].id)) == q[..i] + q[i + 1..]
  {
    if i == 0 {
      FilterAll(q[1..], IdIsNot(q[0].id));
      assert q[..0] + q[1..] == q[1..];
    } else {
      RemoveAt(q[1..], i - 1);
      assert q[1..][i - 1] == q[i];
      assert [q[0]] + (q[1..][..i - 1] + q[1..][i..]) == q[..i] + q[i + 1..];
    }
  }

  lemma NoSuchTicket(q: seq<Ticket>, ticketId: nat)
    requires FirstIndex(q, HasId(ticketId)) == |q|
    ensures Filter(q, IdIsNot(ticketId)) == q
  {
    forall j | 0 <= j < |q| ensures IdIsNot(ticketId)(q[j]) { assert !HasId(ticketId)(q[j]); }
    FilterPrefix(q, |q|, IdIsNot(ticketId));
  }

  /** Cancelling by ticket id removes exactly that ticket. */
  lemma CancelIsRemoval(s: State, ticketId: nat)
    requires QueueInv(s)
    ensures CancelMatch(s, ticketId).0.queue == Filter(s.queue, IdIsNot(ticketId))
    ensures QueueInv(CancelMatch(s, ticketId).0)
  {
    hide QueueInv, OldestFirst, Filter;
    var q := s.queue;
    var i := FirstIndex(q, HasId(ticketId));
    if i == |q| {
      NoSuchTicket(q, ticketId);
    } else {
      CancelAt(s, i);
    }
  }

  lemma CancelAt(s: State, i: nat)
    requires QueueInv(s) && i < |s.queue|
    ensures s.queue[..i] + s.queue[i + 1..] == Filter(s.queue, IdIsNot(s.queue[i].id))
    ensures QueueInv(s.(queue := s.queue[..i] + s.queue[i + 1..], tickets := s.tickets - {s.queue[i].Player()}))
  {
    RemoveAt(s.queue, i);
    hide QueueInv;
    DropOne(s, s.queue[i]);
  }

  lemma CancelKeeps(s: State, ticketId: nat)
    requires QueueInv(s) && RoomInv(s)
    ensures var s' := CancelMatch(s, ticketId).0; QueueInv(s') && RoomInv(s')
  {
    CancelIsRemoval(s, ticketId);
    SameRooms(s, CancelMatch(s, ticketId).0);
  }

  lemma CancelByKeeps(s: State, p: string)
    requires QueueInv(s) && RoomInv(s)
    ensures var s' := CancelMatchByPlayer(s, p).0; QueueInv(s') && RoomInv(s')
  {
    RemoveTicketKeepsQueueInv(s, p);
    SameRooms(s, CancelMatchByPlayer(s, p).0);
  }

  lemma ExpireKeeps(s: State, now: int)
    requires QueueInv(s) && RoomInv(s)
    ensures QueueInv(Expire(s, now)) && RoomInv(Expire(s, now))
  {
    var gone := PlayersOf(Filter(s.queue, IsExpired(now)));
    forall t | t in s.queue ensures IsLive(now)(t) <==> t.Player() !in gone {
      if t.Player() in gone {
        var u :| u in Filter(s.queue, IsExpired(now)) && u.Player() == t.Player();
        SameTicket(s, t, u);
      } else {
        assert IsExpired(now)(t) ==> t in Filter(s.queue, IsExpired(now));
      }
    }
    DropKeepsQueueInv(s, IsLive(now), gone);
  }

  lemma TakeOutKeeps(s: State, g: seq<Ticket>)
    requires QueueInv(s) && RoomInv(s)
    requires forall t :: t in g ==> t in s.queue
    ensures QueueInv(TakeOut(s, g)) && RoomInv(TakeOut(s, g))
    ensures forall t :: t in TakeOut(s, g).queue <==> t in s.queue && t !in g
  {
    forall t | t in s.queue
      ensures IdNotIn(IdsOf(g))(t) <==> t.Player() !in PlayersOf(g)
      ensures IdNotIn(IdsOf(g))(t) <==> t !in g
    {
      if t.id in IdsOf(g) {
        var u :| u in g && u.id == t.id;
        SameTicket(s, t, u);
      }
      if t.Player() in PlayersOf(g) {
        var u :| u in g && u.Player() == t.Player();
        SameTicket(s, t, u);
      }
    }
    DropKeepsQueueInv(s, IdNotIn(IdsOf(g)), PlayersOf(g));
  }

  lemma GroupMembers(q: seq<Ticket>, seed: Ticket)
    requires OldestFirst(q) && seed in q && seed.request.size > 0
    ensures var g := GroupOf(q, seed);
      && |g| <= seed.request.size
      && (forall t :: t in g ==> t in q && SameBucket(seed, t))
      && (forall i, j :: 0 <= i < j < |g| ==> g[i].id != g[j].id)
  {
    var g := GroupOf(q, seed);
    var partners := Filter(q, IsPartnerOf(seed));
    FilterKeepsOrder(q, IsPartnerOf(seed));
    forall j | 1 <= j < |g| ensures g[j] == partners[j - 1] && g[j] in partners { }
  }

  /** A group has tickets of the queue, all of the seed's bucket, of distinct
      players, and never more than the seed's size. */
  lemma GroupFacts(s: State, seed: Ticket)
    requires QueueInv(s) && seed in s.queue
    ensures var g := GroupOf(s.queue, seed);
      && |g| <= seed.request.size
      && (forall t :: t in g ==> t in s.queue && SameBucket(seed, t))
      && (forall i, j :: 0 <= i < j < |g| ==> g[i].Player() != g[j].Player())
  {
    assert TicketInv(s, seed);
    GroupMembers(s.queue, seed);
    var g := GroupOf(s.queue, seed);
    forall i, j | 0 <= i < j < |g| ensures g[i].Player() != g[j].Player() {
      assert g[i] in g && g[j] in g;
      if g[i].Player() == g[j].Player() { SameTicket(s, g[i], g[j]); }
    }
  }

  ghost predicate IsGroup(s: State, g: Group) {
    && |g| == g[0].request.size
    && (forall t :: t in g ==> t.Player() != "" && t.Player() !in s.tickets && SameBucket(g[0], t))
    && (forall i, j :: 0 <= i < j < |g| ==> g[i].Player() != g[j].Player())
  }

  /** Seating a group is refused exactly when its first player is in an active
      room; otherwise it adds one full, playing room and touches nothing else. */
  lemma SeatGroupSpec(s: State, g: Group)
    requires IsGroup(s, g)
    ensures SeatGroup(s, g).1 <==> !InActiveRoom(s.rooms, g[0].Player())
    ensures SeatGroup(s, g).0 ==
      if SeatGroup(s, g).1
      then s.(nextRoomId := s.nextRoomId + 1, rooms := s.rooms[s.nextRoomId := FullRoom(s.nextRoomId, g)])
      else s
  {
    assert g[0] in g;
    assert [Member(g[0].request.player, false)] + Seats(g[1..]) == Seats(g);
    var (seated, ok) := SeatGroup(s, g);
    if ok {
      assert seated.rooms == s.rooms[s.nextRoomId := FullRoom(s.nextRoomId, g)];
    }
  }

  lemma SeatKeeps(s: State, g: Group)
    requires QueueInv(s) && RoomInv(s) && IsGroup(s, g)
    ensures QueueInv(SeatGroup(s, g).0) && RoomInv(SeatGroup(s, g).0)
  {
    SeatGroupSpec(s, g);
    FrameQueue(s, SeatGroup(s, g).0);
    var r := FullRoom(s.nextRoomId, g);
    forall m | m in r.members ensures m.player.playerId != "" {
      var i :| 0 <= i < |g| && m == Seats(g)[i];
      assert g[i] in g;
    }
    assert RoomOk(r);
  }

  /** One round of the matching loop: a full group leaves the queue as a group
      that can be seated. */
  lemma RoundFacts(s: State, i: nat)
    requires QueueInv(s) && RoomInv(s) && i < |s.queue| && IsFull(s.queue)(s.queue[i])
    ensures var g := GroupOf(s.queue, s.queue[i]); var out := TakeOut(s, g);
      && QueueInv(out) && RoomInv(out) && IsGroup(out, g)
      && (forall t :: t in out.queue <==> t in s.queue && t !in g)
  {
    var seed := s.queue[i];
    assert seed in s.queue;
    var g := GroupOf(s.queue, seed);
    GroupFacts(s, seed);
    TakeOutKeeps(s, g);
    forall t | t in g ensures t.Player() != "" { assert TicketInv(s, t); }
  }

  lemma {:induction false} MatchKeeps(s: State)
    requires QueueInv(s) && RoomInv(s)
    ensures QueueInv(Match(s).0) && RoomInv(Match(s).0)
    decreases |s.queue|
  {
    var i := FirstIndex(s.queue, IsFull(s.queue));
    if i < |s.queue| {
      var g := GroupOf(s.queue, s.queue[i]);
      var out := TakeOut(s, g);
      RoundFacts(s, i);
      SeatKeeps(out, g);
      FilterShorter(s.queue, IdNotIn(IdsOf(g)), i);
      SeatKeepsQueue(out, g);
      if SeatGroup(out, g).1 { MatchKeeps(SeatGroup(out, g).0); }
    }
  }

  lemma RoomStepKeeps(s: State, op: Op)
    requires QueueInv(s) && RoomInv(s)
    requires op.OpCreate? || op.OpJoin? || op.OpLeave? || op.OpClose? || op.OpReady?
    ensures QueueInv(Step(s, op)) && RoomInv(Step(s, op))
  {
    hide QueueInv, RoomInv;
    match op
    case OpCreate(host, options) => CreateKeeps(s, host, options);
    case OpJoin(id, player) => JoinKeeps(s, id, player);
    case OpLeave(id, p) => LeaveKeeps(s, id, p);
    case OpClose(id) => CloseKeeps(s, id);
    case OpReady(id, p, ready) => ReadyKeeps(s, id, p, ready);
  }

  lemma QueueStepKeeps(s: State, op: Op)
    requires QueueInv(s) && RoomInv(s)
    requires op.OpEnqueue? || op.OpCancel? || op.OpCancelBy? || op.OpTick?
    ensures QueueInv(Step(s, op)) && RoomInv(Step(s, op))
  {
    hide QueueInv, RoomInv;
    match op
    case OpEnqueue(request, now) => EnqueueKeeps(s, request, now);
    case OpCancel(ticketId) => CancelKeeps(s, ticketId);
    case OpCancelBy(p) => CancelByKeeps(s, p);
    case OpTick(now) => TickKeeps(s, now);
  }

  lemma TickKeeps(s: State, now: int)
    requires QueueInv(s) && RoomInv(s)
    ensures QueueInv(Tick(s, now).0) && RoomInv(Tick(s, now).0)
  {
    ExpireKeeps(s, now);
    MatchKeeps(Expire(s, now));
  }

  /** Queue/index agreement and well-formed rooms survive every step of every run. */
  lemma StepKeeps(s: State, op: Op)
    requires QueueInv(s) && RoomInv(s)
    ensures QueueInv(Step(s, op)) && RoomInv(Step(s, op))
  {
    if op.OpEnqueue? || op.OpCancel? || op.OpCancelBy? || op.OpTick? {
      QueueStepKeeps(s, op);
    } else {
      RoomStepKeeps(s, op);
    }
  }
}
