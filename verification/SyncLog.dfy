/** The bounded log of updates waiting for broadcast, against the unbounded history of
    accepted updates. */
module SyncLog {
  import opened Common
  import opened SyncModel
  import R = SyncReplay

  /** A room with its history: what was accepted up to the last drain and since, what
      the drains have handed out, and whether the log was ever cut. */
  datatype Sys = Sys(room: Room, gone: seq<Delta>, since: seq<Delta>, drained: seq<Delta>, cut: bool)

  const START := Sys(NEW_ROOM, [], [], [], false)

  function Next(c: Config, id: nat, s: Sys, op: RoomOp): Sys {
    var room := RoomStep(c, id, s.room, op);
    if op.Drain? then Sys(room, s.gone + s.since, [], s.drained + s.room.pending, s.cut)
    else
      match Emits(c, id, s.room, op)
      case Some(d) => Sys(room, s.gone, s.since + [d], s.drained, s.cut || |s.since| + 1 > c.maxPending)
      case None => s.(room := room)
  }

  function After(c: Config, id: nat, s: Sys, ops: seq<RoomOp>): Sys
    decreases |ops|
  {
    if |ops| == 0 then s else After(c, id, Next(c, id, s, ops[0]), ops[1..])
  }

  /** `a` is `b` with some elements left out. */
  predicate IsSubsequence<T(==)>(a: seq<T>, b: seq<T>)
    decreases |b|
  {
    |a| == 0 || (|b| > 0 && ((a[0] == b[0] && IsSubsequence(a[1..], b[1..])) || IsSubsequence(a, b[1..])))
  }

  lemma {:induction false} SubsequencesJoin<T>(a: seq<T>, b: seq<T>, x: seq<T>, y: seq<T>)
    requires IsSubsequence(a, b) && IsSubsequence(x, y)
    ensures IsSubsequence(a + x, b + y)
    decreases |b|
  {
    if |b| == 0 {
      assert a + x == x && b + y == y;
    } else {
      assert (b + y)[0] == b[0] && (b + y)[1..] == b[1..] + y;
      if |a| != 0 && a[0] == b[0] && IsSubsequence(a[1..], b[1..]) {
        SubsequencesJoin(a[1..], b[1..], x, y);
        assert (a + x)[0] == a[0] && (a + x)[1..] == a[1..] + x;
      } else {
        SubsequencesJoin(a, b[1..], x, y);
      }
    }
  }

  lemma {:induction false} SuffixIsSubsequence<T>(a: seq<T>, n: nat)
    requires n <= |a|
    ensures IsSubsequence(a[n..], a)
    decreases |a|
  {
    if |a| != 0 {
      if n == 0 {
        SuffixIsSubsequence(a[1..], 0);
      } else {
        SuffixIsSubsequence(a[1..], n - 1);
        assert a[1..][n - 1..] == a[n..];
      }
    }
  }

  lemma LastIsSubsequence<T>(a: seq<T>, n: nat)
    ensures IsSubsequence(Last(a, n), a)
  {
    SuffixIsSubsequence(a, |a| - |Last(a, n)|);
  }

  lemma LastOfPushed<T>(a: seq<T>, x: T, n: nat)
    ensures Last(Last(a, n) + [x], n) == Last(a + [x], n)
  {
  }

  /** The log keeps the newest of what was accepted since the last drain; the drains
      leave out exactly what the log lost, and nothing unless it was cut. */
  ghost predicate Inv(c: Config, s: Sys) {
    && s.room.pending == Last(s.since, c.maxPending)
    && IsSubsequence(s.drained, s.gone)
    && (if s.cut then |s.drained| + |s.room.pending| < |s.gone| + |s.since|
        else s.drained == s.gone && |s.since| <= c.maxPending)
  }

  lemma NextKeepsInv(c: Config, id: nat, s: Sys, op: RoomOp)
    requires Inv(c, s)
    ensures Inv(c, Next(c, id, s, op))
  {
    if op.Drain? {
      LastIsSubsequence(s.since, c.maxPending);
      SubsequencesJoin(s.drained, s.gone, s.room.pending, s.since);
      SubsequenceIsShorter(s.drained, s.gone);
    } else if Emits(c, id, s.room, op).Some? {
      LastOfPushed(s.since, Emits(c, id, s.room, op).value, c.maxPending);
      SubsequenceIsShorter(s.drained, s.gone);
    }
  }

  lemma {:induction false} SubsequenceIsShorter<T>(a: seq<T>, b: seq<T>)
    requires IsSubsequence(a, b)
    ensures |a| <= |b|
    decreases |b|
  {
    if |a| != 0 {
      if a[0] == b[0] && IsSubsequence(a[1..], b[1..]) {
        SubsequenceIsShorter(a[1..], b[1..]);
      } else {
        SubsequenceIsShorter(a, b[1..]);
      }
    }
  }

  lemma {:induction false} HistoryIsEmitted(c: Config, id: nat, s: Sys, ops: seq<RoomOp>)
    requires Inv(c, s)
    ensures var s' := After(c, id, s, ops);
      && Inv(c, s')
      && s'.room == RoomAfter(c, id, s.room, ops)
      && s'.gone + s'.since == (s.gone + s.since) + Emitted(c, id, s.room, ops)
    decreases |ops|
  {
    if |ops| != 0 {
      NextKeepsInv(c, id, s, ops[0]);
      var s1 := Next(c, id, s, ops[0]);
      StepHistory(c, id, s, ops[0]);
      HistoryIsEmitted(c, id, s1, ops[1..]);
      var rest := Emitted(c, id, s1.room, ops[1..]);
      hide Inv, Next, RoomStep, Emits;
      match Emits(c, id, s.room, ops[0])
      case Some(d) => assert ((s.gone + s.since) + [d]) + rest == (s.gone + s.since) + ([d] + rest);
      case None =>
    }
  }

  lemma StepHistory(c: Config, id: nat, s: Sys, op: RoomOp)
    ensures var s1 := Next(c, id, s, op);
      && s1.room == RoomStep(c, id, s.room, op)
      && s1.gone + s1.since == match Emits(c, id, s.room, op)
                               case Some(d) => (s.gone + s.since) + [d]
                               case None => s.gone + s.since
  {
  }

  /** The bounded log refines the unbounded history. At every moment the waiting
      updates are the newest `maxPending` accepted since the last drain; all the drains
      together, followed by what is waiting, are the history with some updates left
      out, and none is left out exactly if the log was never cut. Versions increase
      along the history and stay within the room's version. */
  lemma LogRefinesHistory(c: Config, id: nat, ops: seq<RoomOp>)
    ensures var s := After(c, id, START, ops); var history := Emitted(c, id, NEW_ROOM, ops);
      && s.room == RoomAfter(c, id, NEW_ROOM, ops)
      && s.gone + s.since == history
      && s.room.pending == Last(s.since, c.maxPending)
      && IsSubsequence(s.drained + s.room.pending, history)
      && (s.drained + s.room.pending == history <==> !s.cut)
      && R.Increasing(history)
      && (forall d :: d in history ==> d.version <= s.room.version)
  {
    HistoryIsEmitted(c, id, START, ops);
    R.EmittedVersions(c, id, NEW_ROOM, ops);
    var s := After(c, id, START, ops);
    assert START.gone + START.since == [];
    LastIsSubsequence(s.since, c.maxPending);
    SubsequencesJoin(s.drained, s.gone, s.room.pending, s.since);
  }

  /** Within one membership of a player, the inputs accepted from it strictly
      increase. */
  lemma {:induction false} InputsIncrease(c: Config, id: nat, room: Room, ops: seq<RoomOp>, p: string)
    requires Remove(p) !in ops
    ensures var ds := Emitted(c, id, room, ops);
      && (p in room.players ==> forall d :: d in ds && d.playerId == p ==> d.input > room.players[p].lastInput)
      && OrderedInputs(ds, p)
    decreases |ops|
  {
    if |ops| != 0 {
      var room' := RoomStep(c, id, room, ops[0]);
      var rest := Emitted(c, id, room', ops[1..]);
      assert ops[0] in ops && forall op :: op in ops[1..] ==> op in ops;
      InputsIncrease(c, id, room', ops[1..], p);
      InputStep(c, id, room, ops[0], p);
      hide RoomStep, Emits, OrderedInputs;
      match Emits(c, id, room, ops[0])
      case Some(d) =>
        assert Emitted(c, id, room, ops) == [d] + rest;
        ConsOrdered(d, rest, p);
      case None =>
        assert Emitted(c, id, room, ops) == rest;
    }
  }

  ghost predicate OrderedInputs(ds: seq<Delta>, p: string) {
    forall i, j :: 0 <= i < j < |ds| && ds[i].playerId == p && ds[j].playerId == p ==> ds[i].input < ds[j].input
  }

  lemma ConsOrdered(d: Delta, ds: seq<Delta>, p: string)
    requires OrderedInputs(ds, p)
    requires d.playerId == p ==> forall x :: x in ds && x.playerId == p ==> d.input < x.input
    ensures OrderedInputs([d] + ds, p)
  {
    assert forall i :: 0 <= i < |ds| ==> ds[i] in ds;
  }

  /** A player that is not removed keeps its last input or raises it to the input just
      accepted. */
  lemma InputStep(c: Config, id: nat, room: Room, op: RoomOp, p: string)
    requires op != Remove(p)
    ensures var room' := RoomStep(c, id, room, op); var e := Emits(c, id, room, op);
      && (p in room.players ==> p in room'.players && room.players[p].lastInput <= room'.players[p].lastInput)
      && (e.Some? && e.value.playerId == p ==>
            p in room.players && p in room'.players
            && room.players[p].lastInput < e.value.input == room'.players[p].lastInput)
  {
  }
}
