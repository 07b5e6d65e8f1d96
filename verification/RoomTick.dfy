/** What one matchmaking tick does, bucket by bucket: the live tickets of a bucket
    are cut in queue order into groups of the bucket's room size. */
module RoomTick {
  import opened Arithmetic
  import opened Common
  import opened RoomModel
  import opened RoomInvariant
  import opened RoomRuns

  /** Tickets are matched only with tickets of the same mode and room size. */
  datatype Bucket = Bucket(mode: string, size: nat)

  function BucketOf(t: Ticket): Bucket { Bucket(t.request.mode, t.request.size) }

  function InBucket(b: Bucket): Ticket -> bool { (t: Ticket) => BucketOf(t) == b }

  function OpenedFor(b: Bucket): Group -> bool { (g: Group) => BucketOf(g[0]) == b }

  /** Consecutive full groups of k, leaving out a shorter last one. */
  function Chunks<T>(s: seq<T>, k: nat): seq<seq<T>>
    requires k > 0
  {
    if |s| < k then [] else [s[..k]] + Chunks(s[k..], k)
  }

  /** What is left when no further full group of k can be cut off. */
  function Rest<T>(s: seq<T>, k: nat): seq<T>
    requires k > 0
  {
    if |s| < k then s else Rest(s[k..], k)
  }

  /** `s` cut into parts of k, the j-th holding positions j*k up to (j+1)*k, and fewer
      than k last elements left over, all in order. */
  ghost predicate CutInto<T>(s: seq<T>, k: nat, parts: seq<seq<T>>, left: seq<T>) {
    && |s| == |parts| * k + |left|
    && |left| < k
    && left == s[|s| - |left|..]
    && (forall j :: 0 <= j < |parts| ==> IsPart(s, k, j, parts[j]))
  }

  ghost predicate IsPart<T>(s: seq<T>, k: nat, j: nat, part: seq<T>) {
    0 <= j * k <= j * k + k <= |s| && part == s[j * k..j * k + k]
  }

  /** There are |s| / k parts, and |s| mod k elements are left over. */
  lemma CutCounts<T>(s: seq<T>, k: nat, parts: seq<seq<T>>, left: seq<T>)
    requires CutInto(s, k, parts, left)
    ensures k > 0 && |parts| == |s| / k && |left| == |s| % k
  {
    DivUnique(|s|, k, |parts|, |left|);
  }

  lemma PartShift<T>(s: seq<T>, k: nat, j: nat, part: seq<T>)
    requires 0 < j && k <= |s| && IsPart(s[k..], k, j - 1, part)
    ensures IsPart(s, k, j, part)
  {
    assert (j - 1) * k == j * k - k;
    assert s[k..][(j - 1) * k..(j - 1) * k + k] == s[j * k..j * k + k];
  }

  lemma CutOneMore<T>(s: seq<T>, k: nat, parts: seq<seq<T>>, left: seq<T>)
    requires 0 < k <= |s| && CutInto(s[k..], k, parts, left)
    ensures CutInto(s, k, [s[..k]] + parts, left)
  {
    assert (|parts| + 1) * k == |parts| * k + k;
    assert s[k..][|s[k..]| - |left|..] == s[|s| - |left|..];
    var all := [s[..k]] + parts;
    forall j | 0 <= j < |all| ensures IsPart(s, k, j, all[j]) {
      if j != 0 {
        assert all[j] == parts[j - 1];
        PartShift(s, k, j, parts[j - 1]);
      }
    }
  }

  lemma {:induction false} ChunksCutInto<T>(s: seq<T>, k: nat)
    requires k > 0
    ensures CutInto(s, k, Chunks(s, k), Rest(s, k))
    decreases |s|
  {
    if |s| >= k {
      ChunksCutInto(s[k..], k);
      CutOneMore(s, k, Chunks(s[k..], k), Rest(s[k..], k));
    }
  }

  // ---------- one round ----------

  /** A ticket's partners are its bucket without itself. */
  lemma PartnersAreBucket(q: seq<Ticket>, seed: Ticket, x: nat)
    requires OldestFirst(q)
    requires var bucket := Filter(q, InBucket(BucketOf(seed))); x < |bucket| && bucket[x] == seed
    ensures var bucket := Filter(q, InBucket(BucketOf(seed)));
      Filter(q, IsPartnerOf(seed)) == bucket[..x] + bucket[x + 1..]
  {
    var bucket := Filter(q, InBucket(BucketOf(seed)));
    FilterTwice(q, InBucket(BucketOf(seed)), IdIsNot(seed.id), IsPartnerOf(seed));
    FilterKeepsOrder(q, InBucket(BucketOf(seed)));
    RemoveAt(bucket, x);
  }

  /** A seed's group is full exactly when its bucket has enough tickets. */
  lemma FullIff(q: seq<Ticket>, seed: Ticket)
    requires OldestFirst(q) && seed in q && seed.request.size > 0
    ensures IsFull(q)(seed) <==> |Filter(q, InBucket(BucketOf(seed)))| >= seed.request.size
  {
    var bucket := Filter(q, InBucket(BucketOf(seed)));
    assert seed in bucket;
    var x :| 0 <= x < |bucket| && bucket[x] == seed;
    PartnersAreBucket(q, seed, x);
  }

  lemma HeadTake<T>(s: seq<T>, k: nat)
    requires 0 < k <= |s|
    ensures [s[0]] + (if |s| - 1 < k then s[1..] else s[1..][..k - 1]) == s[..k]
  {
  }

  lemma NoneBefore(q: seq<Ticket>, i: nat)
    requires OldestFirst(q) && i < |q| && i == FirstIndex(q, IsFull(q))
    requires forall t :: t in q ==> t.request.size > 0
    ensures var bucket := Filter(q, InBucket(BucketOf(q[i]))); |bucket| > 0 && bucket[0] == q[i]
  {
    var b := BucketOf(q[i]);
    FullIff(q, q[i]);
    forall t | t in q[..i] ensures !InBucket(b)(t) {
      var j :| 0 <= j < i && q[j] == t;
      assert !IsFull(q)(q[j]);
      FullIff(q, q[j]);
    }
    FilterNone(q[..i], InBucket(b));
    FilterAppend(q[..i], q[i..], InBucket(b));
    assert q == q[..i] + q[i..];
  }

  /** The first full seed is the oldest ticket of its bucket, so its group is the
      first `size` tickets of the bucket. */
  lemma FirstFullGroup(q: seq<Ticket>)
    requires OldestFirst(q)
    requires forall t :: t in q ==> t.request.size > 0
    ensures var i := FirstIndex(q, IsFull(q));
      i < |q| ==> var bucket := Filter(q, InBucket(BucketOf(q[i])));
        q[i].request.size <= |bucket| && GroupOf(q, q[i]) == bucket[..q[i].request.size]
  {
    var i := FirstIndex(q, IsFull(q));
    if i < |q| {
      var bucket := Filter(q, InBucket(BucketOf(q[i])));
      assert q[i] in q;
      FullIff(q, q[i]);
      NoneBefore(q, i);
      PartnersAreBucket(q, q[i], 0);
      assert Filter(q, IsPartnerOf(q[i])) == bucket[1..];
      HeadTake(bucket, q[i].request.size);
    }
  }

  /** Within a bucket, the first k tickets and the others are told apart by id. */
  lemma HeadOfBucket(bucket: seq<Ticket>, k: nat)
    requires OldestFirst(bucket) && k <= |bucket|
    ensures Filter(bucket, IdNotIn(IdsOf(bucket[..k]))) == bucket[k..]
    ensures Filter(bucket, Not(IdNotIn(IdsOf(bucket[..k])))) == bucket[..k]
  {
    var g := bucket[..k];
    forall i | 0 <= i < |bucket| ensures bucket[i].id in IdsOf(g) <==> i < k {
      if i < k { assert g[i] in g; }
    }
    FilterSuffix(bucket, k, IdNotIn(IdsOf(g)));
    FilterPrefix(bucket, k, Not(IdNotIn(IdsOf(g))));
  }

  lemma TakenAreInBucket(q: seq<Ticket>, b: Bucket, k: nat, t: Ticket)
    requires OldestFirst(q) && k <= |Filter(q, InBucket(b))|
    requires t in q && t.id in IdsOf(Filter(q, InBucket(b))[..k])
    ensures InBucket(b)(t)
  {
    var g := Filter(q, InBucket(b))[..k];
    var u :| u in g && u.id == t.id;
    assert u in Filter(q, InBucket(b));
    SameId(q, t, u);
  }

  /** Taking the first k tickets of a bucket out takes exactly those. */
  lemma TakeOutTakes(q: seq<Ticket>, b: Bucket, k: nat)
    requires OldestFirst(q) && k <= |Filter(q, InBucket(b))|
    ensures var g := Filter(q, InBucket(b))[..k]; Filter(q, Not(IdNotIn(IdsOf(g)))) == g
  {
    var ids := IdsOf(Filter(q, InBucket(b))[..k]);
    FilterKeepsOrder(q, InBucket(b));
    HeadOfBucket(Filter(q, InBucket(b)), k);
    forall t | t in q && t.id in ids ensures InBucket(b)(t) { TakenAreInBucket(q, b, k, t); }
    FilterTwice(q, InBucket(b), Not(IdNotIn(ids)), Not(IdNotIn(ids)));
  }

  /** It leaves the other buckets alone and this one without its first k. */
  lemma TakeOutBucket(q: seq<Ticket>, b: Bucket, k: nat, c: Bucket)
    requires OldestFirst(q) && k <= |Filter(q, InBucket(b))|
    ensures var left := Filter(q, IdNotIn(IdsOf(Filter(q, InBucket(b))[..k])));
      Filter(left, InBucket(c)) == if c == b then Filter(q, InBucket(b))[k..] else Filter(q, InBucket(c))
  {
    var ids := IdsOf(Filter(q, InBucket(b))[..k]);
    FilterKeepsOrder(q, InBucket(b));
    HeadOfBucket(Filter(q, InBucket(b)), k);
    var both := (t: Ticket) => t.id !in ids && BucketOf(t) == c;
    FilterTwice(q, IdNotIn(ids), InBucket(c), both);
    FilterTwice(q, InBucket(c), IdNotIn(ids), both);
    if c != b {
      forall t | t in Filter(q, InBucket(c)) ensures IdNotIn(ids)(t) {
        if t.id in ids { TakenAreInBucket(q, b, k, t); }
      }
      FilterAll(Filter(q, InBucket(c)), IdNotIn(ids));
    }
  }

  lemma SameId(q: seq<Ticket>, a: Ticket, b: Ticket)
    requires OldestFirst(q) && a in q && b in q && a.id == b.id
    ensures a == b
  {
    var i :| 0 <= i < |q| && q[i] == a;
    var j :| 0 <= j < |q| && q[j] == b;
  }

  // ---------- the whole loop ----------

  lemma SizesArePositive(s: State)
    requires QueueInv(s)
    ensures forall t :: t in s.queue ==> t.request.size > 0
  {
    forall t | t in s.queue ensures t.request.size > 0 { assert TicketInv(s, t); }
  }

  /** The loop opens, for every bucket, the groups that chunking its tickets gives,
      in order, and leaves the bucket's remainder queued. */
  lemma {:induction false} MatchChunks(s: State, b: Bucket)
    requires Inv(s) && b.size > 0
    ensures var (s', groups) := Match(s); var bucket := Filter(s.queue, InBucket(b));
      && Filter(groups, OpenedFor(b)) == Chunks(bucket, b.size)
      && Filter(s'.queue, InBucket(b)) == Rest(bucket, b.size)
    decreases |s.queue|
  {
    SizesArePositive(s);
    var q := s.queue;
    var i := FirstIndex(q, IsFull(q));
    var bucket := Filter(q, InBucket(b));
    if i == |q| {
      if |bucket| > 0 {
        var t := bucket[0];
        assert t in bucket;
        FullIff(q, t);
        var j :| 0 <= j < |q| && q[j] == t;
        assert !IsFull(q)(q[j]);
      }
    } else {
      var c := BucketOf(q[i]);
      var g := GroupOf(q, q[i]);
      FirstFullGroup(q);
      RoundKeepsAll(s, i);
      var seated := SeatGroup(TakeOut(s, g), g).0;
      TakeOutBucket(q, c, c.size, b);
      MatchChunks(seated, b);
      var (_, groups) := Match(seated);
      assert ([g] + groups)[1..] == groups;
    }
  }

  /** One new full room per group under consecutive fresh ids, old rooms untouched. */
  ghost predicate OpensRooms(rooms: map<nat, Room>, next: nat, groups: seq<Group>, rooms': map<nat, Room>) {
    && (forall id :: id in rooms' <==> id in rooms || next <= id < next + |groups|)
    && (forall id :: id in rooms ==> rooms'[id] == rooms[id])
    && (forall j :: 0 <= j < |groups| ==> rooms'[next + j] == FullRoom(next + j, groups[j]))
  }

  /** Every round of the loop gets its room, under the next id. */
  ghost predicate AllSeated(s: State)
    decreases |s.queue|
  {
    var i := FirstIndex(s.queue, IsFull(s.queue));
    i == |s.queue| ||
    var g := GroupOf(s.queue, s.queue[i]);
    var (seated, ok) := SeatGroup(TakeOut(s, g), g);
    && ok
    && s.nextRoomId !in s.rooms
    && seated.nextRoomId == s.nextRoomId + 1
    && seated.rooms == s.rooms[s.nextRoomId := FullRoom(s.nextRoomId, g)]
    && |seated.queue| < |s.queue|
    && AllSeated(seated)
  }

  lemma {:induction false} InvSeatsAll(s: State)
    requires Inv(s)
    ensures AllSeated(s)
    decreases |s.queue|
  {
    var i := FirstIndex(s.queue, IsFull(s.queue));
    if i < |s.queue| {
      var g := GroupOf(s.queue, s.queue[i]);
      RoundKeepsAll(s, i);
      assert s.nextRoomId !in s.rooms;
      InvSeatsAll(SeatGroup(TakeOut(s, g), g).0);
    }
  }

  /** The loop's rooms: one new full room per group under consecutive fresh ids. */
  lemma {:induction false} MatchRooms(s: State)
    requires AllSeated(s)
    ensures OpensRooms(s.rooms, s.nextRoomId, Match(s).1, Match(s).0.rooms)
    decreases |s.queue|
  {
    hide OpensRooms, FullRoom, SeatGroup, TakeOut, GroupOf;
    var i := FirstIndex(s.queue, IsFull(s.queue));
    if i < |s.queue| {
      var g := GroupOf(s.queue, s.queue[i]);
      var seated := SeatGroup(TakeOut(s, g), g).0;
      MatchRooms(seated);
      var later := Match(seated).1;
      OpensOneMore(s.rooms, s.nextRoomId, g, later, Match(seated).0.rooms);
      assert Match(s) == (Match(seated).0, [g] + later);
    } else {
      assert Match(s) == (s, []);
      OpensNone(s.rooms, s.nextRoomId);
    }
  }

  /** The loop's tickets: the queue keeps exactly the unmatched ones in order, and
      none is lost or duplicated. */
  lemma {:induction false} MatchTickets(s: State)
    requires Inv(s)
    ensures var (s', groups) := Match(s);
      && s'.queue == Filter(s.queue, IdNotIn(IdsOf(Flatten(groups))))
      && multiset(s.queue) == multiset(Flatten(groups)) + multiset(s'.queue)
    decreases |s.queue|
  {
    var q := s.queue;
    var i := FirstIndex(q, IsFull(q));
    if i == |q| {
      FilterAll(q, IdNotIn(IdsOf(Flatten(Match(s).1))));
    } else {
      SizesArePositive(s);
      var g := GroupOf(q, q[i]);
      FirstFullGroup(q);
      RoundKeepsAll(s, i);
      var seated := SeatGroup(TakeOut(s, g), g).0;
      MatchTickets(seated);
      var later := Match(seated).1;
      assert ([g] + later)[1..] == later;
      MatchQueueFrame(q, g, later, BucketOf(q[i]));
    }
  }

  lemma MatchQueueFrame(q: seq<Ticket>, g: Group, later: seq<Group>, c: Bucket)
    requires OldestFirst(q) && c.size <= |Filter(q, InBucket(c))| && g == Filter(q, InBucket(c))[..c.size]
    requires var left := Filter(q, IdNotIn(IdsOf(g)));
      multiset(left) == multiset(Flatten(later)) + multiset(Filter(left, IdNotIn(IdsOf(Flatten(later)))))
    ensures var left := Filter(q, IdNotIn(IdsOf(g))); var s' := Filter(left, IdNotIn(IdsOf(Flatten(later))));
      && s' == Filter(q, IdNotIn(IdsOf(g + Flatten(later))))
      && multiset(q) == multiset(g + Flatten(later)) + multiset(s')
  {
    var left := Filter(q, IdNotIn(IdsOf(g)));
    FilterTwice(q, IdNotIn(IdsOf(g)), IdNotIn(IdsOf(Flatten(later))), IdNotIn(IdsOf(g + Flatten(later))));
    TakeOutTakes(q, c, c.size);
    FilterSplits(q, IdNotIn(IdsOf(g)));
    assert multiset(g + Flatten(later)) == multiset(g) + multiset(Flatten(later));
  }

  lemma OpensNone(rooms: map<nat, Room>, next: nat)
    ensures OpensRooms(rooms, next, [], rooms)
  {
  }

  lemma OpensOneMore(rooms: map<nat, Room>, next: nat, g: Group, later: seq<Group>, rooms': map<nat, Room>)
    requires next !in rooms
    requires OpensRooms(rooms[next := FullRoom(next, g)], next + 1, later, rooms')
    ensures OpensRooms(rooms, next, [g] + later, rooms')
  {
    var groups := [g] + later;
    forall j | 0 <= j < |groups|
      ensures next + j in rooms' && rooms'[next + j] == FullRoom(next + j, groups[j])
    {
      if j != 0 { assert groups[j] == later[j - 1]; }
    }
  }

  lemma ExpireKeepsAll(s: State, now: int)
    requires Inv(s)
    ensures Inv(Expire(s, now))
  {
    ExpireKeeps(s, now);
    FewerTickets(s, Expire(s, now));
  }

  lemma TickBucket(s: State, now: int, b: Bucket)
    requires Inv(s) && b.size > 0
    ensures var (s', r) := Tick(s, now); var live := Filter(Filter(s.queue, IsLive(now)), InBucket(b));
      && Filter(r.groups, OpenedFor(b)) == Chunks(live, b.size)
      && Filter(s'.queue, InBucket(b)) == Rest(live, b.size)
  {
    ExpireKeepsAll(s, now);
    MatchChunks(Expire(s, now), b);
  }

  /** A tick, bucket by bucket: with n live tickets of a bucket of size k, exactly
      n / k rooms are formed, the j-th for tickets j*k up to (j+1)*k in queue order,
      and exactly the newest n mod k tickets stay queued in their order (the counts
      are CutCounts). */
  lemma TickChunksBucket(s: State, now: int, b: Bucket)
    requires Inv(s) && b.size > 0
    ensures var (s', r) := Tick(s, now);
      CutInto(Filter(Filter(s.queue, IsLive(now)), InBucket(b)), b.size,
              Filter(r.groups, OpenedFor(b)), Filter(s'.queue, InBucket(b)))
  {
    TickBucket(s, now, b);
    ChunksCutInto(Filter(Filter(s.queue, IsLive(now)), InBucket(b)), b.size);
  }

  /** A tick's rooms: every group gets one full playing room under a fresh id with its
      members in queue order, and no other room changes. */
  lemma TickOpensRooms(s: State, now: int)
    requires Inv(s)
    ensures var (s', r) := Tick(s, now); OpensRooms(s.rooms, s.nextRoomId, r.groups, s'.rooms)
  {
    ExpireKeepsAll(s, now);
    InvSeatsAll(Expire(s, now));
    MatchRooms(Expire(s, now));
  }

  /** A tick's tickets: each one is expired, matched or still queued, exactly once,
      and the queue keeps its order. */
  lemma TickConserves(s: State, now: int)
    requires Inv(s)
    ensures var (s', r) := Tick(s, now);
      && r.expired == Filter(s.queue, IsExpired(now))
      && s'.queue == Filter(Filter(s.queue, IsLive(now)), IdNotIn(IdsOf(Flatten(r.groups))))
      && multiset(s.queue) == multiset(r.expired) + multiset(Flatten(r.groups)) + multiset(s'.queue)
  {
    ExpireKeepsAll(s, now);
    MatchTickets(Expire(s, now));
    FilterSplits(s.queue, IsLive(now));
    FilterSame(s.queue, Not(IsLive(now)), IsExpired(now));
  }

  // ---------- the unguarded run, continued ----------

  const SOLO := Request(BOB, "default", 1, 1000)

  /** Conservation needs the guard: after the reopening of a closed room around a
      queued player, a tick takes the player's ticket out of the queue, is refused
      the room, and the ticket is neither expired, matched nor queued. */
  lemma UnguardedTickLosesTicket()
    ensures exists ops: seq<Op>, now: int :: LosesTicket(Run(INITIAL, ops), now)
  {
    var ops := [OpCreate(ANN, FOUR), OpJoin(1, BOB), OpClose(1)] + [OpEnqueue(SOLO, 0), OpLeave(1, "ann")];
    StrandedState();
    var s := Run(INITIAL, ops);
    assert Member(BOB, false) in s.rooms[1].members && IsActiveIn(s.rooms[1], "bob");
    SoloTick(s, Ticket(1, SOLO, 0));
    assert LosesTicket(Run(INITIAL, ops), 1);
  }

  lemma StrandedState()
    ensures var s := Run(INITIAL, [OpCreate(ANN, FOUR), OpJoin(1, BOB), OpClose(1)]
          + [OpEnqueue(SOLO, 0), OpLeave(1, "ann")]);
      && s.queue == [Ticket(1, SOLO, 0)]
      && 1 in s.rooms && s.rooms[1] == Room(1, "default", Waiting, 4, true, [Member(BOB, false)])
  {
    MetState();
    var prefix := [OpCreate(ANN, FOUR), OpJoin(1, BOB), OpClose(1)];
    var suffix := [OpEnqueue(SOLO, 0), OpLeave(1, "ann")];
    RunAppend(INITIAL, prefix, suffix);
    assert !InActiveRoom(Met().rooms, "bob");
    var s1 := EnqueueMatch(Met(), SOLO, 0).0;
    ReopenedRoom(s1);
    assert suffix[1..] == [OpLeave(1, "ann")] && suffix[1..][1..] == [];
    assert Run(Met(), suffix) == Run(s1, suffix[1..]) == Run(LeaveRoom(s1, 1, "ann").0, []);
  }

  ghost predicate LosesTicket(s: State, now: int) {
    var (s', r) := Tick(s, now);
    |s.queue| == 1 && s'.queue == [] && r.expired == [] && r.groups == []
  }

  lemma SoloTick(s: State, t: Ticket)
    requires t == Ticket(1, SOLO, 0) && s.queue == [t] && InActiveRoom(s.rooms, "bob")
    ensures LosesTicket(s, 1)
  {
    var e := Expire(s, 1);
    assert s.queue[1..] == [];
    assert e.queue == [t] && Filter(s.queue, IsExpired(1)) == [];
    assert GroupOf(e.queue, t) == [t];
    assert IsFull(e.queue)(e.queue[0]);
    assert FirstIndex(e.queue, IsFull(e.queue)) == 0;
    var out := TakeOut(e, [t]);
    assert [t][0] in [t] && t.id in IdsOf([t]);
    assert e.queue[1..] == [] && out.queue == [];
    assert SeatGroup(out, [t]) == (out, false);
  }
}
