/** What the retrying queue does with each task, exactly: the last thing that happened to
    a task tells its status, and when it is due again. */
module QueuePromises {
  import opened Common
  import opened TaskQueue

  // ---------- who is taken, and who is added ----------

  ghost predicate MayStart(t: Core, now: int) { t.status == Queued && t.nextAt <= now }

  /** First come, first served: a task is started exactly if it is due and no other due
      task was created before it. */
  lemma TakeIff(c: Config, s: Sys, id: nat, now: int)
    ensures Enabled(c, s, Take(id, now)) <==>
      && s.clock <= now && id in s.tasks && MayStart(s.tasks[id], now)
      && forall other :: other in s.tasks && MayStart(s.tasks[other], now) ==>
           s.tasks[id].createdAt <= s.tasks[other].createdAt
  {
    assert forall other :: other in s.tasks ==> (MayStart(s.tasks[other], now) <==> IsDue(s.tasks[other], now));
  }

  lemma {:induction false} Earliest(tasks: map<nat, Core>, ids: set<nat>) returns (id: nat)
    requires ids != {} && ids <= tasks.Keys
    ensures id in ids && forall other :: other in ids ==> tasks[id].createdAt <= tasks[other].createdAt
    decreases |ids|
  {
    id :| id in ids;
    if ids != {id} {
      var other := Earliest(tasks, ids - {id});
      if tasks[other].createdAt < tasks[id].createdAt { id := other; }
    }
  }

  /** Some task can be started exactly if some task is queued and due. */
  lemma SomeStartsIff(c: Config, s: Sys, now: int)
    requires s.clock <= now
    ensures (exists id :: Enabled(c, s, Take(id, now))) <==> exists id :: id in s.tasks && MayStart(s.tasks[id], now)
  {
    if id: nat :| id in s.tasks && MayStart(s.tasks[id], now) {
      var due := set other | other in s.tasks && MayStart(s.tasks[other], now);
      assert id in due;
      var first := Earliest(s.tasks, due);
      TakeIff(c, s, first, now);
      assert Enabled(c, s, Take(first, now));
    }
    if id: nat :| Enabled(c, s, Take(id, now)) { TakeIff(c, s, id, now); }
  }

  /** A task is added exactly while fewer than the capacity are queued or running. */
  lemma AddIff(c: Config, s: Sys, answered: bool, now: int)
    ensures Enabled(c, s, Add(answered, now)) <==>
      && s.clock <= now
      && |set id | id in s.tasks && (s.tasks[id].status == Queued || s.tasks[id].status == Running)| < c.capacity
  {
    assert ActiveIds(s.tasks) ==
      set id | id in s.tasks && (s.tasks[id].status == Queued || s.tasks[id].status == Running);
  }

  /** Steps change one task at most. */
  lemma OthersStay(c: Config, s: Sys, e: Event, id: nat)
    requires Enabled(c, s, e) && id in s.tasks && !Concerns(s, e, id)
    ensures id in Apply(c, s, e).tasks && Apply(c, s, e).tasks[id] == s.tasks[id]
  {
  }

  /** How an attempt ends: with success exactly if it was answered and in time; otherwise
      with another one waiting, as long as fewer than R + 1 have been made, in 32 bits. */
  lemma FinishIff(c: Config, s: Sys, id: nat, ok: bool, late: bool, now: int)
    requires Enabled(c, s, Finish(id, ok, late, now))
    ensures var t, t' := s.tasks[id], Apply(c, s, Finish(id, ok, late, now)).tasks[id];
      var again := t.attempts < (c.maxRetries + 1) % 0x1_0000_0000;
      && (t'.status == Succeeded <==> ok && !late)
      && (t'.status == Queued <==> !(ok && !late) && again)
      && (t'.status == TimedOut <==> late && !again)
      && (t'.status == Failed <==> !ok && !late && !again)
      && t'.attempts == t.attempts && t'.createdAt == t.createdAt && t'.updatedAt == now
      && (t'.status == Queued ==> t'.nextAt == now + c.backoff * t.attempts)
  {
  }

  // ---------- the story of a task ----------

  /** The last thing that happened to the task. */
  ghost predicate LastWord(c: Config, es: seq<Event>, id: nat, t: Core) {
    match t.status
    case Queued =>
      if t.attempts == 0 then t.nextAt == t.createdAt && Add(false, t.createdAt) in es
      else t.nextAt == t.updatedAt + c.backoff * t.attempts
           && exists ok, late :: Finish(id, ok, late, t.updatedAt) in es && !(ok && !late)
    case Running => Take(id, t.updatedAt) in es
    case Succeeded => Finish(id, true, false, t.updatedAt) in es || Add(true, t.updatedAt) in es
    case Failed => Finish(id, false, false, t.updatedAt) in es
    case TimedOut => exists ok :: Finish(id, ok, true, t.updatedAt) in es
    case Canceled => Cancel(id, t.updatedAt) in es
  }

  /** The task was created when it says. */
  ghost predicate IsTold(c: Config, es: seq<Event>, id: nat, t: Core) {
    (Add(false, t.createdAt) in es || Add(true, t.createdAt) in es) && LastWord(c, es, id, t)
  }

  lemma ToldOn(c: Config, es: seq<Event>, e: Event, id: nat, t: Core)
    requires IsTold(c, es, id, t)
    ensures IsTold(c, es + [e], id, t)
  {
    assert forall x :: x in es ==> x in es + [e];
    if t.status == Queued && t.attempts != 0 {
      var ok, late :| Finish(id, ok, late, t.updatedAt) in es && !(ok && !late);
      assert Finish(id, ok, late, t.updatedAt) in es + [e];
    }
    if t.status == TimedOut {
      var ok :| Finish(id, ok, true, t.updatedAt) in es;
      assert Finish(id, ok, true, t.updatedAt) in es + [e];
    }
  }

  ghost predicate AllTold(c: Config, es: seq<Event>, s: Sys) {
    forall id :: id in s.tasks ==> IsTold(c, es, id, s.tasks[id])
  }

  lemma FinishTold(c: Config, s: Sys, es: seq<Event>, e: Event)
    requires AttemptInv(c, s) && Enabled(c, s, e) && e.Finish? && IsTold(c, es, e.id, s.tasks[e.id])
    ensures IsTold(c, es + [e], e.id, Apply(c, s, e).tasks[e.id])
  {
    FinishIff(c, s, e.id, e.ok, e.late, e.now);
    InFlightWasTaken(c, s, e.id);
    assert e in es + [e] && forall x :: x in es ==> x in es + [e];
    var t' := Apply(c, s, e).tasks[e.id];
    hide Apply, Enabled, AttemptInv;
    if t'.status == Queued { assert Finish(e.id, e.ok, e.late, t'.updatedAt) in es + [e]; }
    if t'.status == TimedOut { assert Finish(e.id, e.ok, true, t'.updatedAt) in es + [e]; }
  }

  lemma InFlightWasTaken(c: Config, s: Sys, id: nat)
    requires AttemptInv(c, s) && id in s.inflight && id in s.tasks
    ensures s.tasks[id].attempts > 0
  {
    assert CoreInv(c, s.tasks[id], s.inflight[id], s.clock);
  }

  lemma OwnTold(c: Config, s: Sys, es: seq<Event>, e: Event, id: nat)
    requires AttemptInv(c, s) && Enabled(c, s, e) && Concerns(s, e, id) && id in Apply(c, s, e).tasks && !e.Finish?
    requires id in s.tasks ==> IsTold(c, es, id, s.tasks[id])
    ensures IsTold(c, es + [e], id, Apply(c, s, e).tasks[id])
  {
    assert e in es + [e] && forall x :: x in es ==> x in es + [e];
    assert s.nextId !in s.tasks;
    if id in s.tasks { ToldOn(c, es, e, id, s.tasks[id]); }
    hide AttemptInv, ActiveIds, IsNext;
  }

  lemma StepTold(c: Config, s: Sys, es: seq<Event>, e: Event)
    requires AttemptInv(c, s) && Enabled(c, s, e) && AllTold(c, es, s)
    ensures AllTold(c, es + [e], Apply(c, s, e))
  {
    var s' := Apply(c, s, e);
    forall id | id in s'.tasks ensures IsTold(c, es + [e], id, s'.tasks[id]) {
      if !Concerns(s, e, id) {
        OtherWasThere(c, s, e, id);
        OthersStay(c, s, e, id);
        ToldOn(c, es, e, id, s.tasks[id]);
      } else if e.Finish? {
        FinishTold(c, s, es, e);
      } else {
        OwnTold(c, s, es, e, id);
      }
    }
  }

  lemma OtherWasThere(c: Config, s: Sys, e: Event, id: nat)
    requires Enabled(c, s, e) && id in Apply(c, s, e).tasks && !Concerns(s, e, id)
    ensures id in s.tasks
  {
  }

  lemma {:induction false} RunTold(c: Config, s: Sys, before: seq<Event>, es: seq<Event>, threads: nat)
    requires AttemptInv(c, s) && Legal(c, s, es, threads) && AllTold(c, before, s)
    ensures AllTold(c, before + es, After(c, s, es, threads))
    decreases |es|
  {
    if |es| == 0 {
      NothingAfter(before);
    } else {
      StepTold(c, s, before, es[0]);
      StepKeepsAttempts(c, s, es[0]);
      hide Apply, Enabled, AttemptInv, AllTold;
      RunTold(c, Apply(c, s, es[0]), before + [es[0]], es[1..], threads);
      assert (before + [es[0]]) + es[1..] == before + es;
    }
  }

  /** From the start: every task tells truly when it was created and what happened to it
      last; a task that waits for another attempt is due exactly its number of backoffs
      after its last attempt ended. */
  lemma TasksTellTheirStory(c: Config, clock: int, es: seq<Event>, threads: nat, id: nat)
    requires Legal(c, Initial(clock), es, threads) && id in After(c, Initial(clock), es, threads).tasks
    ensures IsTold(c, es, id, After(c, Initial(clock), es, threads).tasks[id])
  {
    RunTold(c, Initial(clock), [], es, threads);
    NothingBefore(es);
  }
}
