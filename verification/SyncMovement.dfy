/** Movement authority: however a client chooses its updates, it cannot get further
    than its speed and the tolerance of each update allow. */
module SyncMovement {
  import opened SyncModel

  // ---------- distances ----------

  function Dot(u: Vec, v: Vec): real { u.x * v.x + u.y * v.y + u.z * v.z }

  function Minus(a: Vec, b: Vec): Vec { Vec(a.x - b.x, a.y - b.y, a.z - b.z) }

  lemma SquareOf(r: real)
    ensures Square(r) >= 0.0
  {
  }

  /** Lagrange's identity in three dimensions. */
  lemma Lagrange(u: Vec, v: Vec)
    ensures Dot(u, u) * Dot(v, v) - Square(Dot(u, v)) ==
      Square(u.x * v.y - u.y * v.x) + Square(u.x * v.z - u.z * v.x) + Square(u.y * v.z - u.z * v.y)
  {
  }

  lemma CauchySchwarz(u: Vec, v: Vec)
    ensures Square(Dot(u, v)) <= Dot(u, u) * Dot(v, v)
  {
    Lagrange(u, v);
    SquareOf(u.x * v.y - u.y * v.x);
    SquareOf(u.x * v.z - u.z * v.x);
    SquareOf(u.y * v.z - u.z * v.y);
  }

  lemma ProductGrows(a: real, b: real, x: real, y: real)
    requires 0.0 <= a <= x && 0.0 <= b <= y
    ensures a * b <= x * y
  {
    assert a * b <= x * b;
    assert x * b <= x * y;
  }

  lemma SquareReflects(r: real, m: real)
    requires 0.0 <= m && Square(r) <= Square(m)
    ensures r <= m
  {
    if r > m { SquareIsStrict(m, r); }
  }

  lemma SquareIsStrict(m: real, r: real)
    requires 0.0 <= m < r
    ensures Square(m) < Square(r)
  {
    var t := r - m;
    ProductIsPositive(t, t);
    ProductGrows(0.0, 0.0, m, t);
    assert r * r == (m + t) * (m + t) == m * m + 2.0 * (m * t) + t * t;
  }

  lemma ProductIsPositive(x: real, y: real)
    requires x > 0.0 && y > 0.0
    ensures x * y > 0.0
  {
  }

  /** The inner product of two steps of bounded length is bounded. */
  lemma DotBounded(u: Vec, v: Vec, d: real, e: real)
    requires d >= 0.0 && e >= 0.0 && Dot(u, u) <= Square(d) && Dot(v, v) <= Square(e)
    ensures Dot(u, v) <= d * e
  {
    CauchySchwarz(u, v);
    NonNegative(u);
    NonNegative(v);
    ProductGrows(Dot(u, u), Dot(v, v), Square(d), Square(e));
    assert Square(d) * Square(e) == Square(d * e);
    SquareReflects(Dot(u, v), d * e);
  }

  lemma NonNegative(u: Vec)
    ensures Dot(u, u) >= 0.0
  {
    SquareOf(u.x);
    SquareOf(u.y);
    SquareOf(u.z);
  }

  /** The triangle inequality, without square roots. */
  lemma Triangle(a: Vec, b: Vec, p: Vec, d: real, e: real)
    requires Within(a, b, d) && Within(b, p, e)
    ensures Within(a, p, d + e)
  {
    var u, v := Minus(a, b), Minus(b, p);
    DotBounded(u, v, d, e);
    SumOfSteps(a, b, p);
    assert Square(d + e) == Square(d) + 2.0 * (d * e) + Square(e);
  }

  lemma SumOfSteps(a: Vec, b: Vec, p: Vec)
    ensures var u, v := Minus(a, b), Minus(b, p);
      SquaredDistance(a, p) == SquaredDistance(a, b) + 2.0 * Dot(u, v) + SquaredDistance(b, p)
    ensures Dot(Minus(a, b), Minus(a, b)) == SquaredDistance(a, b)
    ensures Dot(Minus(b, p), Minus(b, p)) == SquaredDistance(b, p)
  {
    OneAxis(a.x, b.x, p.x);
    OneAxis(a.y, b.y, p.y);
    OneAxis(a.z, b.z, p.z);
  }

  lemma OneAxis(a: real, b: real, p: real)
    ensures Square(a - p) == Square(a - b) + 2.0 * ((a - b) * (b - p)) + Square(b - p)
  {
  }

  lemma Wider(a: Vec, b: Vec, d: real, e: real)
    requires Within(a, b, d) && d <= e
    ensures Within(a, b, e)
  {
    ProductGrows(d, d, e, e);
  }

  // ---------- speed ----------

  function Positive(r: real): real { if r > 0.0 then r else 0.0 }

  function Seconds(nanos: int): real { nanos as real / 1000000000.0 }

  /** How far a player gets in that time and that many updates. */
  function Reach(c: Config, nanos: int, updates: nat): real {
    Positive(c.maxSpeed) * Seconds(nanos) + updates as real * c.tolerance
  }

  lemma AllowanceWithinReach(c: Config, updatedAt: int, now: int, later: int)
    requires updatedAt <= now <= later
    ensures Allowance(c, updatedAt, now) <= Reach(c, later - updatedAt, 1)
  {
    var elapsed := Millis(now - updatedAt);
    var s := Positive(c.maxSpeed);
    var part, whole := elapsed as real / 1000.0, Seconds(later - updatedAt);
    assert 0.0 <= part <= whole by {
      assert elapsed * NANOS_PER_MILLI <= later - updatedAt;
    }
    ProductGrows(s, part, s, whole);
    if elapsed > 0 {
      assert c.maxSpeed * part <= s * part by { SlowerIsLess(c.maxSpeed, s, part); }
    }
  }

  lemma SlowerIsLess(a: real, b: real, t: real)
    requires a <= b && t >= 0.0
    ensures a * t <= b * t
  {
  }

  lemma ReachAdds(c: Config, n: int, m: int, k: nat, l: nat)
    ensures Reach(c, n, k) + Reach(c, m, l) == Reach(c, n + m, k + l)
  {
    var s := Positive(c.maxSpeed);
    assert Seconds(n) + Seconds(m) == Seconds(n + m);
    assert s * Seconds(n) + s * Seconds(m) == s * Seconds(n + m);
  }

  // ---------- runs ----------

  /** The clock does not run backwards over the operations. */
  predicate InOrder(ops: seq<RoomOp>, from: int)
    decreases |ops|
  {
    |ops| == 0 ||
    match ops[0]
    case Add(_, _, _, now) => from <= now && InOrder(ops[1..], now)
    case Offline(_, now) => from <= now && InOrder(ops[1..], now)
    case Submit(_, now, later) => from <= now <= later && InOrder(ops[1..], later)
    case DueSnapshot(now) => from <= now && InOrder(ops[1..], now)
    case _ => InOrder(ops[1..], from)
  }

  /** Nobody joins or leaves as this player. */
  predicate Stays(ops: seq<RoomOp>, p: string) {
    forall op :: op in ops ==> op != Remove(p) && !(op.Add? && op.id == p)
  }

  function Moves(ds: seq<Delta>, p: string): nat {
    if |ds| == 0 then 0 else (if ds[0].playerId == p then 1 else 0) + Moves(ds[1..], p)
  }

  function Multiple(n: nat, w: real): real { n as real * w }

  /** From one state of a player to a later one: not further than the time between
      their updates and the number of updates allow, and not further than that many
      single updates. */
  ghost predicate Bounded(c: Config, a: Player, b: Player, n: nat) {
    && a.updatedAt <= b.updatedAt
    && Within(a.transform.position, b.transform.position, Reach(c, b.updatedAt - a.updatedAt, n))
    && Within(a.transform.position, b.transform.position, Multiple(n, c.maxSingle + c.tolerance))
  }

  lemma BoundedAdds(c: Config, x: Player, y: Player, z: Player, n: nat, m: nat)
    requires Bounded(c, x, y, n) && Bounded(c, y, z, m)
    ensures Bounded(c, x, z, n + m)
  {
    var a, b, p := x.transform.position, y.transform.position, z.transform.position;
    var t, u := y.updatedAt - x.updatedAt, z.updatedAt - y.updatedAt;
    ReachAdds(c, t, u, n, m);
    var w := c.maxSingle + c.tolerance;
    MultiplesAdd(n, m, w);
    hide Within, Reach, Multiple;
    Triangle(a, b, p, Reach(c, t, n), Reach(c, u, m));
    Triangle(a, b, p, Multiple(n, w), Multiple(m, w));
  }

  lemma MultiplesAdd(n: nat, m: nat, w: real)
    ensures Multiple(n, w) + Multiple(m, w) == Multiple(n + m, w)
  {
  }

  lemma Standing(c: Config, a: Player, b: Player)
    requires a.updatedAt <= b.updatedAt && a.transform == b.transform
    ensures Bounded(c, a, b, 0)
  {
    assert SquaredDistance(a.transform.position, b.transform.position) == 0.0;
    SquareOf(Reach(c, b.updatedAt - a.updatedAt, 0));
    ProductGrows(0.0, 0.0, Positive(c.maxSpeed), Seconds(b.updatedAt - a.updatedAt));
  }

  lemma OneMove(c: Config, p: Player, input: Input, now: int, later: int)
    requires MovementAllowed(c, p, input.transform, now) && p.updatedAt <= now <= later
    ensures Bounded(c, p, Updated(p, input, later), 1)
  {
    AllowanceWithinReach(c, p.updatedAt, now, later);
    hide Within, Allowance, Reach;
    Wider(p.transform.position, input.transform.position,
      Allowance(c, p.updatedAt, now), Reach(c, later - p.updatedAt, 1));
  }

  lemma StepBounded(c: Config, id: nat, room: Room, op: RoomOp, p: string, from: int)
    requires p in room.players && room.players[p].updatedAt <= from
    requires Stays([op], p) && InOrder([op], from)
    ensures var room' := RoomStep(c, id, room, op); var e := Emits(c, id, room, op);
      && p in room'.players
      && Bounded(c, room.players[p], room'.players[p], if e.Some? && e.value.playerId == p then 1 else 0)
  {
    assert op in [op];
    var room' := RoomStep(c, id, room, op);
    assert p in room'.players;
    if op.Submit? && Acceptable(c, room, op.input, op.now) && op.input.playerId == p {
      OneMove(c, room.players[p], op.input, op.now, op.later);
    } else {
      hide Bounded, Acceptable;
      Standing(c, room.players[p], room'.players[p]);
    }
  }

  /** The last clock reading of an operation. */
  function Clock(op: RoomOp, from: int): int {
    match op
    case Add(_, _, _, now) => now
    case Offline(_, now) => now
    case Submit(_, _, later) => later
    case DueSnapshot(now) => now
    case _ => from
  }

  lemma UpdatedBy(c: Config, id: nat, room: Room, op: RoomOp, p: string, from: int)
    requires p in room.players && room.players[p].updatedAt <= from && InOrder([op], from)
    requires p in RoomStep(c, id, room, op).players
    ensures RoomStep(c, id, room, op).players[p].updatedAt <= Clock(op, from)
  {
    hide Acceptable;
  }

  lemma InOrderSplits(ops: seq<RoomOp>, from: int)
    requires |ops| > 0 && InOrder(ops, from)
    ensures InOrder([ops[0]], from) && InOrder(ops[1..], Clock(ops[0], from))
  {
    assert [ops[0]][1..] == [];
  }

  /** Over any run in which the player stays, with n of its updates accepted, the
      distance from where it started is at most its speed times the time between its
      first and last update plus n tolerances, and at most n single updates. */
  lemma {:induction false} DisplacementBounded(c: Config, id: nat, room: Room, ops: seq<RoomOp>, p: string, from: int)
    requires p in room.players && room.players[p].updatedAt <= from
    requires Stays(ops, p) && InOrder(ops, from)
    ensures p in RoomAfter(c, id, room, ops).players
    ensures Bounded(c, room.players[p], RoomAfter(c, id, room, ops).players[p], Moves(Emitted(c, id, room, ops), p))
    decreases |ops|
  {
    if |ops| == 0 {
      Standing(c, room.players[p], room.players[p]);
    } else {
      InOrderSplits(ops, from);
      assert ops[0] in ops && forall op :: op in ops[1..] ==> op in ops;
      assert Stays([ops[0]], p);
      StepBounded(c, id, room, ops[0], p, from);
      UpdatedBy(c, id, room, ops[0], p, from);
      hide RoomStep, Bounded, InOrder, Emits;
      var room' := RoomStep(c, id, room, ops[0]);
      DisplacementBounded(c, id, room', ops[1..], p, Clock(ops[0], from));
      var rest := Emitted(c, id, room', ops[1..]);
      var e := Emits(c, id, room, ops[0]);
      if e.Some? { assert ([e.value] + rest)[1..] == rest; }
      BoundedAdds(c, room.players[p], room'.players[p], RoomAfter(c, id, room, ops).players[p],
                  if e.Some? && e.value.playerId == p then 1 else 0, Moves(rest, p));
    }
  }
}
