/** Exactly when a tick loses tickets, in any state that room operations can reach,
    guarded or not. */
module RoomLoss {
  import opened Common
  import opened RoomModel
  import opened RoomInvariant
  import opened RoomTick

  /** The groups the queue alone would give, whatever the rooms. */
  function Groups(q: seq<Ticket>): seq<Group>
    decreases |q|
  {
    var i := FirstIndex(q, IsFull(q));
    if i == |q| then []
    else
      var g := GroupOf(q, q[i]);
      FilterShorter(q, IdNotIn(IdsOf(g)), i);
      [g] + Groups(Filter(q, IdNotIn(IdsOf(g))))
  }

  /** Each group's first player is free to get a room. */
  ghost predicate FirstsAreFree(rooms: map<nat, Room>, groups: seq<Group>) {
    forall g: Group :: g in groups ==> !InActiveRoom(rooms, g[0].Player())
  }

  ghost predicate Conserves(q: seq<Ticket>, groups: seq<Group>, left: seq<Ticket>) {
    multiset(q) == multiset(Flatten(groups)) + multiset(left)
  }

  lemma {:induction false} GroupsAreQueued(s: State, g: Group)
    requires QueueInv(s) && RoomInv(s) && g in Groups(s.queue)
    ensures g[0] in s.queue
    decreases |s.queue|
  {
    var q := s.queue;
    var i := FirstIndex(q, IsFull(q));
    if i < |q| {
      var first := GroupOf(q, q[i]);
      RoundFacts(s, i);
      FilterShorter(q, IdNotIn(IdsOf(first)), i);
      if g != first { GroupsAreQueued(TakeOut(s, first), g); }
    }
  }

  /** A group leaves the queue: what was queued is the group and the rest. */
  lemma GroupAndRest(s: State, i: nat)
    requires QueueInv(s) && i == FirstIndex(s.queue, IsFull(s.queue)) && i < |s.queue|
    ensures var g := GroupOf(s.queue, s.queue[i]);
      multiset(s.queue) == multiset(g) + multiset(TakeOut(s, g).queue)
  {
    var q := s.queue;
    SizesArePositive(s);
    FirstFullGroup(q);
    var b := BucketOf(q[i]);
    TakeOutTakes(q, b, b.size);
    FilterSplits(q, IdNotIn(IdsOf(GroupOf(q, q[i]))));
  }

  lemma SamePart<T>(whole: multiset<T>, part: multiset<T>, rest: multiset<T>, other: multiset<T>)
    requires whole == part + rest
    ensures whole == part + other <==> rest == other
  {
    assert rest == whole - part;
    if whole == part + other { assert other == whole - part; }
  }

  lemma SamePartOfTwo<T>(whole: multiset<T>, part: multiset<T>, rest: multiset<T>, a: multiset<T>, b: multiset<T>)
    requires whole == part + rest
    ensures whole == part + a + b <==> rest == a + b
  {
    assert part + a + b == part + (a + b);
    SamePart(whole, part, rest, a + b);
  }

  lemma ConservesMore(q: seq<Ticket>, g: Group, rest: seq<Ticket>, groups: seq<Group>, left: seq<Ticket>)
    requires multiset(q) == multiset(g) + multiset(rest)
    ensures Conserves(q, [g] + groups, left) <==> Conserves(rest, groups, left)
  {
    assert ([g] + groups)[1..] == groups;
    var m := multiset(Flatten(groups)) + multiset(left);
    assert multiset(Flatten([g] + groups)) == multiset(g) + multiset(Flatten(groups));
    SamePart(multiset(q), multiset(g), multiset(rest), m);
  }

  lemma SeatsAreOfPlayers(g: seq<Ticket>, p: string)
    ensures HasMember(Seats(g), p) ==> exists t: Ticket :: t in g && t.Player() == p
  {
    if HasMember(Seats(g), p) {
      var m :| m in Seats(g) && m.player.playerId == p;
      var j :| 0 <= j < |g| && Seats(g)[j] == m;
      assert g[j] in g;
    }
  }

  /** The room of one group does not make later groups' players busy. */
  lemma StillFree(s: State, g: Group, groups: seq<Group>)
    requires s.nextRoomId !in s.rooms
    requires forall h: Group, t: Ticket :: h in groups && t in g ==> h[0].Player() != t.Player()
    ensures FirstsAreFree(s.rooms[s.nextRoomId := FullRoom(s.nextRoomId, g)], groups) <==>
        FirstsAreFree(s.rooms, groups)
  {
    var rooms' := s.rooms[s.nextRoomId := FullRoom(s.nextRoomId, g)];
    forall h: Group | h in groups
      ensures InActiveRoom(rooms', h[0].Player()) <==> InActiveRoom(s.rooms, h[0].Player())
    {
      var p := h[0].Player();
      SeatsAreOfPlayers(g, p);
      if InActiveRoom(s.rooms, p) {
        var id :| id in s.rooms && IsActiveIn(s.rooms[id], p);
        assert id in rooms' && IsActiveIn(rooms'[id], p);
      }
    }
  }

  lemma {:induction false} MatchConservesIff(s: State)
    requires QueueInv(s) && RoomInv(s)
    ensures Conserves(s.queue, Match(s).1, Match(s).0.queue) <==> FirstsAreFree(s.rooms, Groups(s.queue))
    decreases |s.queue|
  {
    var q := s.queue;
    var i := FirstIndex(q, IsFull(q));
    if i < |q| {
      var g := GroupOf(q, q[i]);
      var out := TakeOut(s, g);
      RoundFacts(s, i);
      GroupAndRest(s, i);
      SeatGroupSpec(out, g);
      FilterShorter(q, IdNotIn(IdsOf(g)), i);
      var later := Groups(out.queue);
      assert Groups(q) == [g] + later;
      assert Match(s) == if SeatGroup(out, g).1
        then (Match(SeatGroup(out, g).0).0, [g] + Match(SeatGroup(out, g).0).1) else (SeatGroup(out, g).0, []);
      hide Groups, Match, SeatGroup, TakeOut, GroupOf, FirstsAreFree, Conserves, IsFull, FirstIndex;
      if SeatGroup(out, g).1 {
        Seated(s, g, out, later);
      } else {
        Refused(s, g, out, later);
      }
    }
  }

  lemma Refused(s: State, g: Group, out: State, later: seq<Group>)
    requires InActiveRoom(s.rooms, g[0].Player()) && multiset(s.queue) == multiset(g) + multiset(out.queue)
    ensures !Conserves(s.queue, [], out.queue) && !FirstsAreFree(s.rooms, [g] + later)
  {
    assert ([g] + later)[0] in [g] + later;
    assert |multiset(s.queue)| == |g| + |multiset(out.queue)|;
    assert multiset(Flatten<Ticket>([])) + multiset(out.queue) == multiset(out.queue);
  }

  lemma Seated(s: State, g: Group, out: State, later: seq<Group>)
    requires QueueInv(out) && RoomInv(out) && IsGroup(out, g) && SeatGroup(out, g).1
    requires out == TakeOut(s, g) && |out.queue| < |s.queue| && later == Groups(out.queue)
    requires multiset(s.queue) == multiset(g) + multiset(out.queue)
    requires Match(s) == (Match(SeatGroup(out, g).0).0, [g] + Match(SeatGroup(out, g).0).1)
    ensures Conserves(s.queue, Match(s).1, Match(s).0.queue) <==> FirstsAreFree(s.rooms, [g] + later)
    decreases |s.queue|, 0
  {
    var seated := SeatGroup(out, g).0;
    SeatGroupSpec(out, g);
    SeatKeeps(out, g);
    MatchConservesIff(seated);
    ConservesMore(s.queue, g, out.queue, Match(seated).1, Match(seated).0.queue);
    forall h: Group, t: Ticket | h in later && t in g ensures h[0].Player() != t.Player() {
      GroupsAreQueued(out, h);
      assert TicketInv(out, h[0]);
    }
    StillFree(out, g, later);
  }

  lemma ExpiredAndLive(s: State, now: int)
    ensures multiset(s.queue) == multiset(Filter(s.queue, IsExpired(now))) + multiset(Filter(s.queue, IsLive(now)))
  {
    FilterSplits(s.queue, IsLive(now));
    FilterSame(s.queue, Not(IsLive(now)), IsExpired(now));
  }

  ghost predicate AccountsForAll(s: State, r: TickResult, s': State) {
    multiset(s.queue) == multiset(r.expired) + multiset(Flatten(r.groups)) + multiset(s'.queue)
  }

  /** In every state that room operations reach, guarded or not: a tick accounts for
      every ticket, as expired, matched or still queued, if and only if no group that the
      live queue alone would give starts with a player who is in an open room already. */
  lemma TickConservesIff(s: State, now: int)
    requires QueueInv(s) && RoomInv(s)
    ensures AccountsForAll(s, Tick(s, now).1, Tick(s, now).0) <==>
        FirstsAreFree(s.rooms, Groups(Filter(s.queue, IsLive(now))))
  {
    var e := Expire(s, now);
    ExpireKeeps(s, now);
    hide QueueInv, RoomInv, FirstsAreFree, Groups, Match, Filter;
    MatchConservesIff(e);
    ExpiredAndLive(s, now);
    var (s', groups) := Match(e);
    SamePartOfTwo(multiset(s.queue), multiset(Filter(s.queue, IsExpired(now))), multiset(e.queue),
                  multiset(Flatten(groups)), multiset(s'.queue));
    hide Flatten;
  }
}
