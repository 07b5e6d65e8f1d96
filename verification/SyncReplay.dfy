/** A snapshot followed by the updates after it tells the state: clients that apply a
    gapless list of updates to a snapshot have the room's player table. */
module SyncReplay {
  import opened Common
  import opened SyncModel

  // ---------- replay ----------

  /** What a client does with an update it received. */
  function Apply(players: map<string, Player>, d: Delta): map<string, Player> {
    if d.playerId in players
    then players[d.playerId := players[d.playerId].(transform := d.transform, action := d.action, lastInput := d.input,
                                                    online := true, updatedAt := d.createdAt)]
    else players
  }

  function ApplyAll(players: map<string, Player>, ds: seq<Delta>): map<string, Player>
    decreases |ds|
  {
    if |ds| == 0 then players else ApplyAll(Apply(players, ds[0]), ds[1..])
  }

  /** The list carries every version from `from + 1` on. */
  predicate Gapless(ds: seq<Delta>, from: nat) { forall i :: 0 <= i < |ds| ==> ds[i].version == from + 1 + i }

  /** Every change of the table takes one version, and only an accepted update can be
      replayed. */
  lemma StepVersions(c: Config, id: nat, room: Room, op: RoomOp)
    ensures var room' := RoomStep(c, id, room, op);
      && room.version <= room'.version <= room.version + 1
      && (room'.version == room.version ==> room'.players == room.players)
      && match Emits(c, id, room, op)
         case Some(d) => d.version == room'.version == room.version + 1 && room'.players == Apply(room.players, d)
         case None => true
  {
  }

  predicate Increasing(ds: seq<Delta>) { forall i, j :: 0 <= i < j < |ds| ==> ds[i].version < ds[j].version }

  /** The updates of a run carry increasing versions, all of them new. */
  lemma {:induction false} EmittedVersions(c: Config, id: nat, room: Room, ops: seq<RoomOp>)
    ensures room.version <= RoomAfter(c, id, room, ops).version
    ensures forall d :: d in Emitted(c, id, room, ops) ==>
        room.version < d.version <= RoomAfter(c, id, room, ops).version
    ensures Increasing(Emitted(c, id, room, ops))
    decreases |ops|
  {
    if |ops| != 0 {
      StepVersions(c, id, room, ops[0]);
      hide RoomStep, Emits;
      EmittedVersions(c, id, RoomStep(c, id, room, ops[0]), ops[1..]);
      var rest := Emitted(c, id, RoomStep(c, id, room, ops[0]), ops[1..]);
      match Emits(c, id, room, ops[0])
      case Some(d) =>
        assert Emitted(c, id, room, ops) == [d] + rest;
        assert forall i :: 0 <= i < |rest| ==> rest[i] in rest;
      case None =>
        assert Emitted(c, id, room, ops) == rest;
    }
  }

  /** Replay over a run: updates of the run without a gap, as many as there are new
      versions, turn the first table into the last. */
  lemma {:induction false} ReplayOwn(c: Config, id: nat, room: Room, ops: seq<RoomOp>, ds: seq<Delta>)
    requires Gapless(ds, room.version) && room.version + |ds| == RoomAfter(c, id, room, ops).version
    requires forall d :: d in ds ==> d in Emitted(c, id, room, ops)
    ensures ApplyAll(room.players, ds) == RoomAfter(c, id, room, ops).players
    decreases |ops|
  {
    if |ops| != 0 {
      var room' := RoomStep(c, id, room, ops[0]);
      StepVersions(c, id, room, ops[0]);
      EmittedVersions(c, id, room', ops[1..]);
      if room'.version == room.version {
        hide RoomStep, Apply;
        ReplayOwn(c, id, room', ops[1..], ds);
      } else {
        FirstIsOwn(c, id, room, ops, ds);
        ReplayOwn(c, id, room', ops[1..], ds[1..]);
      }
    }
  }

  /** When a step takes a version, the first update of a gapless list can only be the
      one that this step accepted. */
  lemma FirstIsOwn(c: Config, id: nat, room: Room, ops: seq<RoomOp>, ds: seq<Delta>)
    requires |ops| > 0 && RoomStep(c, id, room, ops[0]).version == room.version + 1
    requires Gapless(ds, room.version) && room.version + |ds| == RoomAfter(c, id, room, ops).version
    requires forall d :: d in ds ==> d in Emitted(c, id, room, ops)
    ensures |ds| > 0 && Emits(c, id, room, ops[0]) == Some(ds[0])
    ensures Gapless(ds[1..], room.version + 1)
    ensures forall d :: d in ds[1..] ==> d in Emitted(c, id, RoomStep(c, id, room, ops[0]), ops[1..])
  {
    var room' := RoomStep(c, id, room, ops[0]);
    StepVersions(c, id, room, ops[0]);
    EmittedVersions(c, id, room', ops[1..]);
    hide RoomStep, Emits;
    assert |ds| > 0 && ds[0] in ds && ds[0].version == room.version + 1;
    forall i | 0 <= i < |ds[1..]| ensures ds[1..][i].version == room.version + 2 + i {
      assert ds[1..][i] == ds[i + 1];
    }
    forall d | d in ds[1..] ensures d in Emitted(c, id, room', ops[1..]) {
      var i :| 0 <= i < |ds[1..]| && ds[1..][i] == d;
      assert d in ds && d.version > room.version + 1;
    }
  }

  /** The run up to `j` and the updates of the whole run, cut at `i` and `j`. */
  lemma CutTwice(c: Config, id: nat, room: Room, ops: seq<RoomOp>, i: nat, j: nat)
    requires i <= j <= |ops|
    ensures var r1, r2 := RoomAfter(c, id, room, ops[..i]), RoomAfter(c, id, room, ops[..j]);
      && r2 == RoomAfter(c, id, r1, ops[i..j])
      && Emitted(c, id, room, ops) ==
           Emitted(c, id, room, ops[..i]) + Emitted(c, id, r1, ops[i..j]) + Emitted(c, id, r2, ops[j..])
  {
    var a, b, z := ops[..i], ops[i..j], ops[j..];
    assert ops == (a + b) + z && ops[..j] == a + b;
    hide RoomAfter, Emitted;
    RunsCompose(c, id, room, a + b, z);
    RunsCompose(c, id, room, a, b);
  }

  /** The promise to clients, within one lifetime of a room: take a snapshot at one
      moment of a run and the updates after it, which may have been collected at any
      time, in any batches. If they carry every version up to that of a later moment,
      applying them in order gives exactly the player table of that moment. */
  lemma SnapshotPlusUpdates(c: Config, id: nat, ops: seq<RoomOp>, i: nat, j: nat, ds: seq<Delta>)
    requires i <= j <= |ops|
    requires forall d :: d in ds ==> d in Emitted(c, id, NEW_ROOM, ops)
    requires Gapless(ds, RoomAfter(c, id, NEW_ROOM, ops[..i]).version)
    requires RoomAfter(c, id, NEW_ROOM, ops[..i]).version + |ds| == RoomAfter(c, id, NEW_ROOM, ops[..j]).version
    ensures ApplyAll(RoomAfter(c, id, NEW_ROOM, ops[..i]).players, ds) == RoomAfter(c, id, NEW_ROOM, ops[..j]).players
  {
    CutTwice(c, id, NEW_ROOM, ops, i, j);
    var r1, r2 := RoomAfter(c, id, NEW_ROOM, ops[..i]), RoomAfter(c, id, NEW_ROOM, ops[..j]);
    EmittedVersions(c, id, NEW_ROOM, ops[..i]);
    EmittedVersions(c, id, r2, ops[j..]);
    hide RoomAfter, Emitted;
    forall d | d in ds ensures d in Emitted(c, id, r1, ops[i..j]) {
      var k :| 0 <= k < |ds| && ds[k] == d;
      assert r1.version < d.version <= r2.version;
    }
    ReplayOwn(c, id, r1, ops[i..j], ds);
  }

  /** Without the gapless condition replay can go wrong: joining takes a version but
      sends no update. */
  lemma JoinsAreNotReplayed(c: Config, id: nat, playerId: string, transform: Transform, now: int)
    ensures var ops := [Add(playerId, 1, transform, now)];
      && Emitted(c, id, NEW_ROOM, ops) == []
      && RoomAfter(c, id, NEW_ROOM, ops).version == 1
      && ApplyAll(NEW_ROOM.players, []) != RoomAfter(c, id, NEW_ROOM, ops).players
  {
    var op := Add(playerId, 1, transform, now);
    assert [op][1..] == [];
    assert playerId in RoomStep(c, id, NEW_ROOM, op).players;
  }

  /** The operation changes the table without sending an update. */
  predicate ChangesSilently(room: Room, op: RoomOp) {
    match op
    case Add(_, _, _, _) => true
    case Remove(p) => p in room.players
    case Offline(p, _) => p in room.players
    case _ => false
  }

  predicate OnlyInputs(c: Config, id: nat, room: Room, ops: seq<RoomOp>)
    decreases |ops|
  {
    |ops| == 0 || (!ChangesSilently(room, ops[0]) && OnlyInputs(c, id, RoomStep(c, id, room, ops[0]), ops[1..]))
  }

  lemma SilentIff(c: Config, id: nat, room: Room, op: RoomOp)
    ensures ChangesSilently(room, op) <==>
      RoomStep(c, id, room, op).version == room.version + 1 && Emits(c, id, room, op) == None
  {
  }

  /** The updates of a run carry every version up to its end, so that they suffice for
      replay, if and only if no join, leave or offline mark took effect in it. */
  lemma {:induction false} UpdatesSufficeIff(c: Config, id: nat, room: Room, ops: seq<RoomOp>)
    ensures var ds := Emitted(c, id, room, ops); var last := RoomAfter(c, id, room, ops).version;
      && room.version + |ds| <= last
      && (OnlyInputs(c, id, room, ops) <==> room.version + |ds| == last)
      && (OnlyInputs(c, id, room, ops) ==> Gapless(ds, room.version))
    decreases |ops|
  {
    if |ops| != 0 {
      StepVersions(c, id, room, ops[0]);
      SilentIff(c, id, room, ops[0]);
      hide RoomStep, Emits, ChangesSilently;
      var room' := RoomStep(c, id, room, ops[0]);
      UpdatesSufficeIff(c, id, room', ops[1..]);
      var rest := Emitted(c, id, room', ops[1..]);
      match Emits(c, id, room, ops[0])
      case Some(d) =>
        assert Emitted(c, id, room, ops) == [d] + rest;
        if OnlyInputs(c, id, room, ops) { GaplessCons(d, rest, room.version); }
      case None =>
        assert Emitted(c, id, room, ops) == rest;
    }
  }

  lemma GaplessCons(d: Delta, ds: seq<Delta>, from: nat)
    requires d.version == from + 1 && Gapless(ds, from + 1)
    ensures Gapless([d] + ds, from)
  {
  }

  /** Then the updates of the run, in order, lead from its first table to its last. */
  lemma OwnUpdatesReplay(c: Config, id: nat, room: Room, ops: seq<RoomOp>)
    requires OnlyInputs(c, id, room, ops)
    ensures ApplyAll(room.players, Emitted(c, id, room, ops)) == RoomAfter(c, id, room, ops).players
  {
    UpdatesSufficeIff(c, id, room, ops);
    ReplayOwn(c, id, room, ops, Emitted(c, id, room, ops));
  }

  // ---------- snapshots ----------

  /** Byte-wise order of ids. */
  predicate Before(a: string, b: string)
    decreases |a|
  {
    |b| > 0 && (|a| == 0 || a[0] < b[0] || (a[0] == b[0] && Before(a[1..], b[1..])))
  }

  lemma {:induction false} BeforeIsTotal(a: string, b: string)
    ensures Before(a, b) || Before(b, a) || a == b
    decreases |a|
  {
    if |a| != 0 && |b| != 0 && a[0] == b[0] {
      BeforeIsTotal(a[1..], b[1..]);
      assert a == [a[0]] + a[1..] && b == [b[0]] + b[1..];
    }
  }

  lemma {:induction false} BeforeIsTransitive(a: string, b: string, d: string)
    requires Before(a, b) && Before(b, d)
    ensures Before(a, d)
    decreases |a|
  {
    if |a| != 0 && a[0] == b[0] && b[0] == d[0] { BeforeIsTransitive(a[1..], b[1..], d[1..]); }
  }

  lemma {:induction false} BeforeIsStrict(a: string)
    ensures !Before(a, a)
    decreases |a|
  {
    if |a| != 0 { BeforeIsStrict(a[1..]); }
  }

  predicate Sorted(ps: seq<Player>) { forall i, j :: 0 <= i < j < |ps| ==> Before(ps[i].playerId, ps[j].playerId) }

  /** The list shows the whole table, ordered by player id. */
  predicate IsListing(players: map<string, Player>, ps: seq<Player>) {
    && Sorted(ps)
    && (forall i :: 0 <= i < |ps| ==> ps[i].playerId in players && players[ps[i].playerId] == ps[i])
    && (forall id :: id in players ==> players[id] in ps)
  }

  /** The table a client reads back from a snapshot. */
  function Table(ps: seq<Player>): map<string, Player> {
    if |ps| == 0 then map[] else Table(ps[..|ps| - 1])[ps[|ps| - 1].playerId := ps[|ps| - 1]]
  }

  lemma {:induction false} TableHas(ps: seq<Player>)
    requires Sorted(ps)
    ensures forall id :: id in Table(ps) <==> exists i :: 0 <= i < |ps| && ps[i].playerId == id
    ensures forall i :: 0 <= i < |ps| ==> ps[i].playerId in Table(ps) && Table(ps)[ps[i].playerId] == ps[i]
  {
    if |ps| != 0 {
      var head, last := ps[..|ps| - 1], ps[|ps| - 1];
      TableHas(head);
      BeforeIsStrict(last.playerId);
      assert forall i :: 0 <= i < |head| ==> Before(head[i].playerId, last.playerId);
      hide Before, Sorted;
      forall i | 0 <= i < |ps| ensures ps[i].playerId in Table(ps) && Table(ps)[ps[i].playerId] == ps[i] {
        if i < |head| { assert head[i] == ps[i]; }
      }
      forall id | id in Table(ps) ensures exists i :: 0 <= i < |ps| && ps[i].playerId == id {
        if id != last.playerId {
          var i :| 0 <= i < |head| && head[i].playerId == id;
          assert ps[i].playerId == id;
        }
      }
    }
  }

  /** A snapshot round trip: the listing determines the table. */
  lemma ListingRoundTrip(players: map<string, Player>, ps: seq<Player>)
    requires IsListing(players, ps) && forall id :: id in players ==> players[id].playerId == id
    ensures Table(ps) == players
  {
    TableHas(ps);
    forall id | id in players ensures id in Table(ps) && Table(ps)[id] == players[id] {
      var i :| 0 <= i < |ps| && ps[i] == players[id];
    }
  }

  /** ... and the table determines the listing, whatever order it was walked in. */
  lemma {:induction false} ListingIsUnique(ps: seq<Player>, qs: seq<Player>)
    requires Sorted(ps) && Sorted(qs)
    requires forall p :: p in ps <==> p in qs
    ensures ps == qs
    decreases |ps|
  {
    assert |ps| != 0 ==> ps[0] in qs;
    assert |qs| != 0 ==> qs[0] in ps;
    if |ps| != 0 && |qs| != 0 {
      SameFirst(ps, qs);
      SameRest(ps, qs);
      SameRest(qs, ps);
      ListingIsUnique(ps[1..], qs[1..]);
      assert ps == [ps[0]] + ps[1..] && qs == [qs[0]] + qs[1..];
    }
  }

  lemma SameFirst(ps: seq<Player>, qs: seq<Player>)
    requires |ps| > 0 && |qs| > 0 && Sorted(ps) && Sorted(qs)
    requires forall p :: p in ps <==> p in qs
    ensures ps[0] == qs[0]
  {
    assert ps[0] in qs && qs[0] in ps;
    var i :| 0 <= i < |qs| && qs[i] == ps[0];
    var j :| 0 <= j < |ps| && ps[j] == qs[0];
    if i > 0 && j > 0 {
      BeforeIsTransitive(ps[0].playerId, qs[0].playerId, ps[0].playerId);
      BeforeIsStrict(ps[0].playerId);
    }
  }

  lemma SameRest(ps: seq<Player>, qs: seq<Player>)
    requires |ps| > 0 && |qs| > 0 && Sorted(ps) && ps[0] == qs[0]
    requires forall p :: p in ps ==> p in qs
    ensures forall p :: p in ps[1..] ==> p in qs[1..]
  {
    forall p | p in ps[1..] ensures p in qs[1..] {
      var k :| 0 <= k < |ps[1..]| && ps[1..][k] == p;
      BeforeIsStrict(p.playerId);
      assert p in qs && p != qs[0];
    }
  }
}
