/** The retrying task queue that the AI orchestrator and the speech service both
    run: tasks are added and cancelled under a lock, while an attempt is taken
    under the lock, performed outside it, and finished under it again. Between the
    two halves of an attempt any other step may happen. */
module TaskQueue {
  import opened Common

  datatype Status = Queued | Running | Succeeded | Failed | TimedOut | Canceled

  /** `laxCancel`: whether a task that timed out or is cancelled already may be
      cancelled; the orchestrator allows it, the speech service does not. */
  datatype Config = Config(maxRetries: nat, timeout: int, backoff: int, capacity: nat, laxCancel: bool)

  /** The part of a task that scheduling reads and writes. */
  datatype Core = Core(status: Status, attempts: nat, createdAt: int, updatedAt: int, nextAt: int)

  /** One more than the retries, as a 32-bit unsigned number. */
  function MaxAttempts(c: Config): nat { (c.maxRetries + 1) % TWO_TO_THE_32 }

  function NewTask(now: int): Core { Core(Queued, 0, now, now, now) }

  /** A task answered from a cache: finished without any attempt. */
  function AnsweredTask(now: int): Core { Core(Succeeded, 0, now, now, now) }

  predicate IsDue(t: Core, now: int) { t.status == Queued && t.nextAt <= now }

  predicate IsActive(t: Core) { t.status == Queued || t.status == Running }

  function Started(t: Core, now: int): Core {
    t.(status := Running, updatedAt := now, attempts := (t.attempts + 1) % TWO_TO_THE_32)
  }

  predicate MayCancel(c: Config, t: Core) {
    IsActive(t) || (c.laxCancel && (t.status == TimedOut || t.status == Canceled))
  }

  function Cancelled(t: Core, now: int): Core { t.(status := Canceled, updatedAt := now) }

  /** The end of an attempt, whatever the task's status has become meanwhile. */
  function Finished(c: Config, t: Core, ok: bool, late: bool, now: int): Core {
    if ok && !late then t.(status := Succeeded, updatedAt := now)
    else if t.attempts < MaxAttempts(c)
    then t.(status := Queued, nextAt := now + c.backoff * t.attempts, updatedAt := now)
    else t.(status := if late then TimedOut else Failed, updatedAt := now)
  }

  /** The queue together with the attempts between their two halves, the number of
      client calls made so far and the latest clock reading. */
  datatype Sys = Sys(nextId: nat, tasks: map<nat, Core>, inflight: multiset<nat>, calls: nat, clock: int)

  function ActiveIds(tasks: map<nat, Core>): set<nat> { set id | id in tasks && IsActive(tasks[id]) }
  function QueuedIds(tasks: map<nat, Core>): set<nat> { set id | id in tasks && tasks[id].status == Queued }

  /** Of the tasks due now, none was created before this one. */
  ghost predicate IsNext(tasks: map<nat, Core>, id: nat, now: int) {
    && id in tasks && IsDue(tasks[id], now)
    && forall other :: other in tasks && IsDue(tasks[other], now) ==> tasks[id].createdAt <= tasks[other].createdAt
  }

  datatype Event =
    | Add(answered: bool, now: int)
    | Skip(now: int)
    | Cancel(id: nat, now: int)
    | Take(id: nat, now: int)
    | Finish(id: nat, ok: bool, late: bool, now: int)

  ghost predicate Enabled(c: Config, s: Sys, e: Event) {
    && s.clock <= e.now
    && match e
       case Add(_, _) => |ActiveIds(s.tasks)| < c.capacity
       case Take(id, now) => IsNext(s.tasks, id, now)
       case Finish(id, _, _, _) => id in s.inflight && id in s.tasks
       case _ => true
  }

  ghost function Apply(c: Config, s: Sys, e: Event): Sys
    requires Enabled(c, s, e)
  {
    match e
    case Add(answered, now) =>
      var t := if answered then AnsweredTask(now) else NewTask(now);
      s.(nextId := s.nextId + 1, tasks := s.tasks[s.nextId := t], clock := now)
    case Skip(now) => s.(clock := now)
    case Cancel(id, now) =>
      if id in s.tasks && MayCancel(c, s.tasks[id])
      then s.(tasks := s.tasks[id := Cancelled(s.tasks[id], now)], clock := now)
      else s.(clock := now)
    case Take(id, now) =>
      s.(tasks := s.tasks[id := Started(s.tasks[id], now)], inflight := s.inflight + multiset{id},
         calls := s.calls + 1, clock := now)
    case Finish(id, ok, late, now) =>
      s.(tasks := s.tasks[id := Finished(c, s.tasks[id], ok, late, now)], inflight := s.inflight - multiset{id},
         clock := now)
  }

  /** The events are possible one after the other, with at most `threads` attempts in
      flight at any time. */
  ghost predicate Legal(c: Config, s: Sys, es: seq<Event>, threads: nat)
    decreases |es|
  {
    |s.inflight| <= threads
    && (|es| == 0 || (Enabled(c, s, es[0]) && Legal(c, Apply(c, s, es[0]), es[1..], threads)))
  }

  ghost function After(c: Config, s: Sys, es: seq<Event>, threads: nat): Sys
    requires Legal(c, s, es, threads)
    decreases |es|
  {
    if |es| == 0 then s else After(c, Apply(c, s, es[0]), es[1..], threads)
  }

  function Initial(clock: int): Sys { Sys(1, map[], multiset{}, 0, clock) }

  // ---------- attempts and retry times ----------

  /** The attempts a task can have: the configured number, but always at least one. */
  function Limit(c: Config): nat { if MaxAttempts(c) == 0 then 1 else MaxAttempts(c) }

  lemma LimitValue(c: Config)
    requires c.maxRetries < TWO_TO_THE_32
    ensures Limit(c) == if c.maxRetries + 1 < TWO_TO_THE_32 then c.maxRetries + 1 else 1
  {
  }

  /** The sum of the first `a` backoff delays: backoff * (1 + 2 + ... + a). */
  function Delay(c: Config, a: nat): int {
    if a == 0 then 0 else Delay(c, a - 1) + c.backoff * a
  }

  lemma {:induction false} DelayClosedForm(c: Config, a: nat)
    ensures 2 * Delay(c, a) == c.backoff * (a * (a + 1))
  {
    if a != 0 {
      DelayClosedForm(c, a - 1);
      assert a * (a + 1) == (a - 1) * a + 2 * a;
      assert c.backoff * ((a - 1) * a + 2 * a) == c.backoff * ((a - 1) * a) + 2 * (c.backoff * a);
    }
  }

  /** What holds of a task with `flying` attempts in flight at time `clock`. */
  ghost predicate CoreInv(c: Config, t: Core, flying: nat, clock: int) {
    && t.attempts <= Limit(c)
    && t.updatedAt <= clock
    && flying <= 1
    && (t.status == Running ==> flying == 1)
    && (flying == 1 ==>
          && (t.status == Running || t.status == Canceled)
          && 1 <= t.attempts
          && t.createdAt + Delay(c, t.attempts - 1) <= clock)
    && (t.status == Queued ==>
          && t.attempts < Limit(c)
          && t.createdAt + Delay(c, t.attempts) <= t.nextAt)
    && (t.status == Failed || t.status == TimedOut ==>
          && t.attempts == Limit(c)
          && t.createdAt + Delay(c, t.attempts - 1) <= t.updatedAt)
  }

  ghost predicate AttemptInv(c: Config, s: Sys) {
    && s.nextId >= 1
    && (forall id :: id in s.tasks ==> 1 <= id < s.nextId && CoreInv(c, s.tasks[id], s.inflight[id], s.clock))
    && (forall id :: 1 <= id < s.nextId ==> id in s.tasks)
    && (forall id :: id in s.inflight ==> id in s.tasks)
  }

  lemma LimitFits(c: Config)
    ensures 1 <= Limit(c) < TWO_TO_THE_32
  {
  }

  lemma StartedInv(c: Config, t: Core, clock: int, now: int)
    requires CoreInv(c, t, 0, clock) && IsDue(t, now)
    ensures Started(t, now).attempts == t.attempts + 1
    ensures CoreInv(c, Started(t, now), 1, now)
  {
    LimitFits(c);
    hide Limit;
  }

  lemma FinishedInv(c: Config, t: Core, clock: int, ok: bool, late: bool, now: int)
    requires CoreInv(c, t, 1, clock) && clock <= now
    ensures CoreInv(c, Finished(c, t, ok, late, now), 0, now)
  {
    assert Delay(c, t.attempts) == Delay(c, t.attempts - 1) + c.backoff * t.attempts;
  }

  lemma CancelledInv(c: Config, t: Core, flying: nat, clock: int, now: int)
    requires CoreInv(c, t, flying, clock) && clock <= now
    ensures CoreInv(c, Cancelled(t, now), flying, now)
  {
  }

  lemma LaterInv(c: Config, t: Core, flying: nat, clock: int, now: int)
    requires CoreInv(c, t, flying, clock) && clock <= now
    ensures CoreInv(c, t, flying, now) && flying <= 1 && (t.status == Queued ==> flying == 0)
  {
  }

  lemma FreshInv(c: Config, now: int)
    ensures CoreInv(c, NewTask(now), 0, now) && CoreInv(c, AnsweredTask(now), 0, now)
  {
    LimitFits(c);
  }

  /** The step replaces this task. */
  predicate Concerns(s: Sys, e: Event, id: nat) {
    if e.Add? then id == s.nextId else !e.Skip? && id == e.id
  }

  lemma StepKeepsOwn(c: Config, s: Sys, e: Event, id: nat)
    requires AttemptInv(c, s) && Enabled(c, s, e) && id in Apply(c, s, e).tasks && Concerns(s, e, id)
    ensures var s' := Apply(c, s, e); CoreInv(c, s'.tasks[id], s'.inflight[id], s'.clock)
  {
    hide CoreInv, Started, Finished, Cancelled, MayCancel, ActiveIds;
    if id in s.tasks { LaterInv(c, s.tasks[id], s.inflight[id], s.clock, e.now); }
    match e
    case Add(_, now) => FreshInv(c, now);
    case Cancel(_, now) =>
      CancelledInv(c, s.tasks[id], s.inflight[id], s.clock, now);
    case Take(_, now) => StartedInv(c, s.tasks[id], s.clock, now);
    case Finish(_, ok, late, now) => FinishedInv(c, s.tasks[id], s.clock, ok, late, now);
  }

  lemma StepKeepsTask(c: Config, s: Sys, e: Event, id: nat)
    requires AttemptInv(c, s) && Enabled(c, s, e) && id in Apply(c, s, e).tasks
    ensures var s' := Apply(c, s, e); CoreInv(c, s'.tasks[id], s'.inflight[id], s'.clock)
  {
    if Concerns(s, e, id) {
      StepKeepsOwn(c, s, e, id);
    } else {
      hide CoreInv, Started, Finished, Cancelled, MayCancel, ActiveIds, IsNext;
      LaterInv(c, s.tasks[id], s.inflight[id], s.clock, e.now);
    }
  }

  /** Every step keeps: at most one attempt of a task in flight, attempts within the
      limit, and every retry, failure and timeout no earlier than its delays allow. */
  lemma StepKeepsAttempts(c: Config, s: Sys, e: Event)
    requires AttemptInv(c, s) && Enabled(c, s, e)
    ensures AttemptInv(c, Apply(c, s, e))
  {
    hide CoreInv, Started, Finished, Cancelled, MayCancel, ActiveIds;
    var s' := Apply(c, s, e);
    forall id | id in s'.tasks ensures CoreInv(c, s'.tasks[id], s'.inflight[id], s'.clock) {
      StepKeepsTask(c, s, e, id);
    }
  }

  lemma {:induction false} RunKeepsAttempts(c: Config, s: Sys, es: seq<Event>, threads: nat)
    requires AttemptInv(c, s) && Legal(c, s, es, threads)
    ensures AttemptInv(c, After(c, s, es, threads))
    decreases |es|
  {
    if |es| != 0 {
      StepKeepsAttempts(c, s, es[0]);
      RunKeepsAttempts(c, Apply(c, s, es[0]), es[1..], threads);
    }
  }

  /** With R retries and backoff B: a queued task has a <= R attempts and is due no
      earlier than B * a(a+1)/2 after its creation; a task has not failed or timed out
      before B * R(R+1)/2 after its creation. */
  ghost predicate RetryBounds(c: Config, t: Core) {
    var r := c.maxRetries;
    && (t.status == Queued ==>
           t.attempts <= r && 2 * (t.nextAt - t.createdAt) >= c.backoff * (t.attempts * (t.attempts + 1)))
    && (t.status == Failed || t.status == TimedOut ==> 2 * (t.updatedAt - t.createdAt) >= c.backoff * (r * (r + 1)))
  }

  /** From the start, with R + 1 not wrapping: a queued task has at most R attempts and
      waits at least the backoffs of those attempts, and no task has failed or timed
      out before R(R+1)/2 backoffs have passed since its creation. */
  lemma RetryTimes(c: Config, clock: int, es: seq<Event>, threads: nat, id: nat)
    requires Legal(c, Initial(clock), es, threads)
    requires c.maxRetries + 1 < TWO_TO_THE_32
    requires id in After(c, Initial(clock), es, threads).tasks
    ensures var s := After(c, Initial(clock), es, threads); RetryBounds(c, s.tasks[id]) && s.inflight[id] <= 1
  {
    RunKeepsAttempts(c, Initial(clock), es, threads);
    var s := After(c, Initial(clock), es, threads);
    assert CoreInv(c, s.tasks[id], s.inflight[id], s.clock);
    DelayClosedForm(c, s.tasks[id].attempts);
    DelayClosedForm(c, c.maxRetries);
  }

  // ---------- how many attempts a task can have ----------

  /** After this run from the start the task has had this many attempts. */
  ghost predicate HasAttempts(c: Config, clock: int, es: seq<Event>, threads: nat, id: nat, n: nat) {
    && Legal(c, Initial(clock), es, threads) && id in After(c, Initial(clock), es, threads).tasks
    && After(c, Initial(clock), es, threads).tasks[id].attempts == n
  }

  ghost predicate CanHave(c: Config, n: nat) {
    exists clock, es, threads, id :: HasAttempts(c, clock, es, threads, id, n)
  }

  lemma AttemptsWithinLimit(c: Config, clock: int, es: seq<Event>, threads: nat, id: nat, n: nat)
    requires HasAttempts(c, clock, es, threads, id, n)
    ensures n <= Limit(c)
  {
    RunKeepsAttempts(c, Initial(clock), es, threads);
    var s := After(c, Initial(clock), es, threads);
    assert CoreInv(c, s.tasks[id], s.inflight[id], s.clock);
  }

  /** One waiting task and nothing in flight. */
  function Lone(t: Core, calls: nat, clock: int): Sys { Sys(2, map[1 := t], multiset{}, calls, clock) }

  lemma LoneTaken(c: Config, t: Core, calls: nat, clock: int, now: int)
    requires t.status == Queued && t.nextAt <= now && clock <= now && t.attempts < Limit(c)
    ensures var s := Lone(t, calls, clock);
      && Enabled(c, s, Take(1, now)) && Apply(c, s, Take(1, now)).inflight == multiset{1}
      && Apply(c, s, Take(1, now)).tasks ==
           map[1 := t.(status := Running, updatedAt := now, attempts := t.attempts + 1)]
      && Apply(c, s, Take(1, now)).clock == now && Apply(c, s, Take(1, now)).calls == calls + 1
  {
    LimitFits(c);
    hide Limit;
  }

  lemma LoneFailed(c: Config, s: Sys, t: Core, now: int)
    requires s == Sys(2, map[1 := t], multiset{1}, s.calls, now) && t.attempts + 1 <= Limit(c) && t.attempts > 0
    ensures var e := Finish(1, false, false, now);
      && Enabled(c, s, e) && Apply(c, s, e) == Lone(Finished(c, t, false, false, now), s.calls, now)
      && Finished(c, t, false, false, now).status == Queued && Finished(c, t, false, false, now).attempts == t.attempts
  {
  }

  /** Failing again and again, a lone task comes to every number of attempts up to the
      limit. */
  lemma {:induction false} FailOn(c: Config, t: Core, calls: nat, clock: int, n: nat) returns (es: seq<Event>)
    requires t.status == Queued && t.attempts < n <= Limit(c)
    ensures Legal(c, Lone(t, calls, clock), es, 1)
    ensures var s := After(c, Lone(t, calls, clock), es, 1); 1 in s.tasks && s.tasks[1].attempts == n
    decreases n - t.attempts
  {
    var now := if clock < t.nextAt then t.nextAt else clock;
    LoneTaken(c, t, calls, clock, now);
    var s, take := Lone(t, calls, clock), Take(1, now);
    var s1 := Apply(c, s, take);
    var t1 := s1.tasks[1];
    var more := [];
    if t1.attempts < n {
      var fail := Finish(1, false, false, now);
      LoneFailed(c, s1, t1, now);
      var t2 := Finished(c, t1, false, false, now);
      hide Apply, Enabled, Finished, Limit;
      more := FailOn(c, t2, s1.calls, now, n);
      Prepend(c, s1, fail, more, 1);
      more := [fail] + more;
    }
    hide Apply, Enabled, Finished, Limit;
    Prepend(c, s, take, more, 1);
    es := [take] + more;
  }

  lemma FirstAdded(c: Config)
    requires c.capacity > 0
    ensures Enabled(c, Initial(0), Add(false, 0)) && Apply(c, Initial(0), Add(false, 0)) == Lone(NewTask(0), 0, 0)
  {
    assert ActiveIds(map[]) == {};
  }

  lemma ReachAttempts(c: Config, n: nat)
    requires c.capacity > 0 && n <= Limit(c)
    ensures CanHave(c, n)
  {
    FirstAdded(c);
    var more := [];
    if n > 0 { more := FailOn(c, NewTask(0), 0, 0, n); }
    hide Apply, Enabled, Limit;
    Prepend(c, Initial(0), Add(false, 0), more, 1);
    assert HasAttempts(c, 0, [Add(false, 0)] + more, 1, 1, n);
  }

  /** Where tasks are accepted at all, runs bring a task to exactly the numbers of
      attempts up to the limit. */
  lemma AttemptsIff(c: Config, n: nat)
    requires c.capacity > 0
    ensures CanHave(c, n) <==> n <= Limit(c)
  {
    if n <= Limit(c) { ReachAttempts(c, n); }
    forall clock, es, threads, id | HasAttempts(c, clock, es, threads, id, n) ensures n <= Limit(c) {
      AttemptsWithinLimit(c, clock, es, threads, id, n);
    }
  }

  /** With a 32-bit setting of R retries: some run brings a task to R + 1 attempts if and
      only if R + 1 does not wrap. At the largest setting no task gets a second one. */
  lemma LimitIff(c: Config)
    requires c.maxRetries < TWO_TO_THE_32 && c.capacity > 0
    ensures CanHave(c, c.maxRetries + 1) <==> c.maxRetries + 1 < TWO_TO_THE_32
    ensures forall n: nat :: CanHave(c, n) <==> n <= if c.maxRetries + 1 < TWO_TO_THE_32 then c.maxRetries + 1 else 1
  {
    LimitValue(c);
    hide CanHave, Limit;
    forall n: nat ensures CanHave(c, n) <==> n <= Limit(c) { AttemptsIff(c, n); }
  }

  /** A task that ends without success has had exactly as many attempts as it may. */
  lemma EndsAtLimit(c: Config, clock: int, es: seq<Event>, threads: nat, id: nat)
    requires Legal(c, Initial(clock), es, threads) && id in After(c, Initial(clock), es, threads).tasks
    requires After(c, Initial(clock), es, threads).tasks[id].status in {Failed, TimedOut}
    ensures After(c, Initial(clock), es, threads).tasks[id].attempts == Limit(c)
  {
    RunKeepsAttempts(c, Initial(clock), es, threads);
    var s := After(c, Initial(clock), es, threads);
    assert CoreInv(c, s.tasks[id], s.inflight[id], s.clock);
  }

  // ---------- client calls ----------

  function TotalAttempts(tasks: map<nat, Core>, upTo: nat): nat {
    if upTo == 0 then 0
    else TotalAttempts(tasks, upTo - 1) + if upTo in tasks then tasks[upTo].attempts else 0
  }

  lemma {:induction false} TotalAfterUpdate(tasks: map<nat, Core>, upTo: nat, id: nat, t: Core)
    ensures TotalAttempts(tasks[id := t], upTo) ==
      TotalAttempts(tasks, upTo)
      + if 1 <= id <= upTo then t.attempts - (if id in tasks then tasks[id].attempts else 0) else 0
  {
    if upTo != 0 { TotalAfterUpdate(tasks, upTo - 1, id, t); }
  }

  lemma {:induction false} TotalBounded(tasks: map<nat, Core>, upTo: nat, limit: nat)
    requires forall id :: id in tasks ==> tasks[id].attempts <= limit
    ensures TotalAttempts(tasks, upTo) <= limit * upTo
  {
    if upTo != 0 {
      TotalBounded(tasks, upTo - 1, limit);
      assert limit * upTo == limit * (upTo - 1) + limit;
    }
  }

  ghost predicate CallInv(s: Sys) {
    s.nextId >= 1 && s.calls == TotalAttempts(s.tasks, s.nextId - 1)
  }

  /** What the call count needs to know about a step. */
  lemma StepCounts(c: Config, s: Sys, e: Event)
    requires AttemptInv(c, s) && Enabled(c, s, e)
    ensures TotalAttempts(s.tasks, s.nextId) == TotalAttempts(s.tasks, s.nextId - 1)
    ensures s.nextId !in s.tasks
    ensures !e.Add? && !e.Skip? && e.id in s.tasks ==> 1 <= e.id <= s.nextId - 1
    ensures e.Take? ==> Started(s.tasks[e.id], e.now).attempts == s.tasks[e.id].attempts + 1
  {
    if e.Take? { StartedInv(c, s.tasks[e.id], s.clock, e.now); }
  }

  lemma StepKeepsCalls(c: Config, s: Sys, e: Event)
    requires AttemptInv(c, s) && CallInv(s) && Enabled(c, s, e)
    ensures CallInv(Apply(c, s, e))
  {
    hide AttemptInv, TotalAttempts, Started, Finished, MayCancel, ActiveIds;
    StepCounts(c, s, e);
    match e
    case Add(answered, now) =>
      TotalAfterUpdate(s.tasks, s.nextId, s.nextId, if answered then AnsweredTask(now) else NewTask(now));
    case Skip(_) =>
    case Cancel(id, now) =>
      if id in s.tasks { TotalAfterUpdate(s.tasks, s.nextId - 1, id, Cancelled(s.tasks[id], now)); }
    case Take(id, now) =>
      TotalAfterUpdate(s.tasks, s.nextId - 1, id, Started(s.tasks[id], now));
    case Finish(id, ok, late, now) =>
      FinishKeepsAttempts(c, s.tasks[id], ok, late, now);
      TotalAfterUpdate(s.tasks, s.nextId - 1, id, Finished(c, s.tasks[id], ok, late, now));
  }

  lemma FinishKeepsAttempts(c: Config, t: Core, ok: bool, late: bool, now: int)
    ensures Finished(c, t, ok, late, now).attempts == t.attempts
  {
  }

  lemma {:induction false} RunKeepsCalls(c: Config, s: Sys, es: seq<Event>, threads: nat)
    requires AttemptInv(c, s) && CallInv(s) && Legal(c, s, es, threads)
    ensures AttemptInv(c, After(c, s, es, threads)) && CallInv(After(c, s, es, threads))
    decreases |es|
  {
    if |es| != 0 {
      StepKeepsAttempts(c, s, es[0]);
      StepKeepsCalls(c, s, es[0]);
      RunKeepsCalls(c, Apply(c, s, es[0]), es[1..], threads);
    }
  }

  /** Over any run the client is called exactly once per attempt, so at most
      `Limit` times per task ever created. */
  lemma ClientCallsBounded(c: Config, clock: int, es: seq<Event>, threads: nat)
    requires Legal(c, Initial(clock), es, threads)
    ensures var s := After(c, Initial(clock), es, threads);
      s.nextId >= 1 && s.calls == TotalAttempts(s.tasks, s.nextId - 1) <= Limit(c) * (s.nextId - 1)
  {
    RunKeepsCalls(c, Initial(clock), es, threads);
    var s := After(c, Initial(clock), es, threads);
    assert forall id :: id in s.tasks ==> CoreInv(c, s.tasks[id], s.inflight[id], s.clock);
    TotalBounded(s.tasks, s.nextId - 1, Limit(c));
  }

  // ---------- load ----------

  lemma QueuedAreActive(tasks: map<nat, Core>)
    ensures |QueuedIds(tasks)| <= |ActiveIds(tasks)|
  {
    SubsetSize(QueuedIds(tasks), ActiveIds(tasks));
  }

  lemma QueuedAfterPut(tasks: map<nat, Core>, id: nat, t: Core)
    ensures var q := QueuedIds(tasks);
      QueuedIds(tasks[id := t]) == if t.status == Queued then q + {id} else q - {id}
  {
  }

  lemma ActiveAfterPut(tasks: map<nat, Core>, id: nat, t: Core)
    ensures var a := ActiveIds(tasks);
      ActiveIds(tasks[id := t]) == if IsActive(t) then a + {id} else a - {id}
  {
  }

  ghost predicate LoadInv(c: Config, s: Sys, threads: nat) {
    |QueuedIds(s.tasks)| + |s.inflight| <= c.capacity + threads
  }

  /** Cancelling a running task frees its place in the queue before its attempt is
      over, so the load can exceed the capacity, but only by the attempts in flight. */
  lemma StepKeepsLoad(c: Config, s: Sys, e: Event, threads: nat)
    requires AttemptInv(c, s) && Enabled(c, s, e) && LoadInv(c, s, threads)
    requires |Apply(c, s, e).inflight| <= threads
    ensures LoadInv(c, Apply(c, s, e), threads)
  {
    match e
    case Add(answered, now) =>
      QueuedAreActive(s.tasks);
      QueuedAfterPut(s.tasks, s.nextId, if answered then AnsweredTask(now) else NewTask(now));
    case Skip(_) =>
    case Cancel(id, now) =>
      if id in s.tasks { QueuedAfterPut(s.tasks, id, Cancelled(s.tasks[id], now)); }
    case Take(id, now) => QueuedAfterPut(s.tasks, id, Started(s.tasks[id], now));
    case Finish(id, ok, late, now) => QueuedAfterPut(s.tasks, id, Finished(c, s.tasks[id], ok, late, now));
  }

  lemma {:induction false} RunKeepsLoad(c: Config, s: Sys, es: seq<Event>, threads: nat)
    requires AttemptInv(c, s) && LoadInv(c, s, threads) && Legal(c, s, es, threads)
    ensures LoadInv(c, After(c, s, es, threads), threads)
    decreases |es|
  {
    if |es| != 0 {
      StepKeepsAttempts(c, s, es[0]);
      StepKeepsLoad(c, s, es[0], threads);
      RunKeepsLoad(c, Apply(c, s, es[0]), es[1..], threads);
    }
  }

  /** With at most `threads` attempts in flight, queued tasks plus attempts in flight
      never exceed the capacity plus `threads`, however cancels interleave. */
  lemma LoadBounded(c: Config, clock: int, es: seq<Event>, threads: nat)
    requires Legal(c, Initial(clock), es, threads)
    ensures var s := After(c, Initial(clock), es, threads);
      |QueuedIds(s.tasks)| + |s.inflight| <= c.capacity + threads
  {
    assert QueuedIds(Initial(clock).tasks) == {};
    RunKeepsLoad(c, Initial(clock), es, threads);
  }

  /** No cancel falls between the two halves of an attempt. */
  ghost predicate Undisturbed(c: Config, s: Sys, es: seq<Event>, threads: nat)
    requires Legal(c, s, es, threads)
    decreases |es|
  {
    |es| == 0 || (!(es[0].Cancel? && es[0].id in s.inflight) && Undisturbed(c, Apply(c, s, es[0]), es[1..], threads))
  }

  ghost predicate QuietInv(c: Config, s: Sys) {
    && |ActiveIds(s.tasks)| <= c.capacity
    && forall id :: id in s.inflight ==> id in s.tasks && s.tasks[id].status == Running
  }

  lemma QuietFits(c: Config, s: Sys)
    requires QuietInv(c, s)
    ensures |ActiveIds(s.tasks)| <= c.capacity
  {
  }

  /** What the quiet invariant needs to know about a step. */
  lemma StepIds(c: Config, s: Sys, e: Event)
    requires AttemptInv(c, s) && Enabled(c, s, e)
    ensures s.nextId !in s.tasks
    ensures e.Finish? ==> s.inflight[e.id] == 1
    ensures e.Take? ==> e.id in ActiveIds(s.tasks)
  {
  }

  lemma StepKeepsActiveSize(c: Config, s: Sys, e: Event)
    requires AttemptInv(c, s) && Enabled(c, s, e) && QuietInv(c, s)
    ensures |ActiveIds(Apply(c, s, e).tasks)| <= c.capacity
  {
    hide AttemptInv, IsNext, Started, Finished, MayCancel;
    StepIds(c, s, e);
    match e
    case Add(answered, now) =>
      ActiveAfterPut(s.tasks, s.nextId, if answered then AnsweredTask(now) else NewTask(now));
    case Skip(_) =>
    case Cancel(id, now) =>
      if id in s.tasks { ActiveAfterPut(s.tasks, id, Cancelled(s.tasks[id], now)); }
    case Take(id, now) => ActiveAfterPut(s.tasks, id, Started(s.tasks[id], now));
    case Finish(id, ok, late, now) =>
      ActiveAfterPut(s.tasks, id, Finished(c, s.tasks[id], ok, late, now));
      assert id in ActiveIds(s.tasks);
  }

  lemma StepKeepsRunning(c: Config, s: Sys, e: Event, id: nat)
    requires AttemptInv(c, s) && Enabled(c, s, e) && QuietInv(c, s)
    requires !(e.Cancel? && e.id in s.inflight)
    requires var s' := Apply(c, s, e); id in s'.inflight
    ensures var s' := Apply(c, s, e); id in s'.tasks && s'.tasks[id].status == Running
  {
    hide AttemptInv, IsNext, Finished, ActiveIds;
    StepIds(c, s, e);
  }

  lemma StepKeepsQuiet(c: Config, s: Sys, e: Event)
    requires AttemptInv(c, s) && Enabled(c, s, e) && QuietInv(c, s)
    requires !(e.Cancel? && e.id in s.inflight)
    ensures QuietInv(c, Apply(c, s, e))
  {
    StepKeepsActiveSize(c, s, e);
    var s' := Apply(c, s, e);
    forall id | id in s'.inflight ensures id in s'.tasks && s'.tasks[id].status == Running {
      StepKeepsRunning(c, s, e, id);
    }
    hide AttemptInv, Enabled, Apply;
  }

  /** If no cancel falls between the two halves of an attempt, queued plus running
      tasks never exceed the capacity. */
  lemma {:induction false} UndisturbedLoadBounded(c: Config, s: Sys, es: seq<Event>, threads: nat)
    requires AttemptInv(c, s) && QuietInv(c, s) && Legal(c, s, es, threads) && Undisturbed(c, s, es, threads)
    ensures |ActiveIds(After(c, s, es, threads).tasks)| <= c.capacity
    decreases |es|
  {
    if |es| != 0 {
      StepKeepsAttempts(c, s, es[0]);
      StepKeepsQuiet(c, s, es[0]);
      UndisturbedLoadBounded(c, Apply(c, s, es[0]), es[1..], threads);
    }
  }

  lemma InitialIsQuiet(c: Config, clock: int)
    ensures AttemptInv(c, Initial(clock)) && QuietInv(c, Initial(clock)) && CallInv(Initial(clock))
  {
    assert ActiveIds(Initial(clock).tasks) == {};
  }

  // ---------- exactly when the capacity is exceeded ----------

  /** An attempt whose task was cancelled meanwhile fails into a retry although the queue
      is full. */
  ghost predicate Overfills(c: Config, s: Sys, e: Event)
    requires Enabled(c, s, e)
  {
    && e.Finish? && !IsActive(s.tasks[e.id])
    && Finished(c, s.tasks[e.id], e.ok, e.late, e.now).status == Queued
    && |ActiveIds(s.tasks)| == c.capacity
  }

  /** From within the capacity a step exceeds it if and only if it is such a requeue. */
  lemma OverfillsIff(c: Config, s: Sys, e: Event)
    requires AttemptInv(c, s) && Enabled(c, s, e) && |ActiveIds(s.tasks)| <= c.capacity
    ensures |ActiveIds(Apply(c, s, e).tasks)| > c.capacity <==> Overfills(c, s, e)
  {
    hide AttemptInv, IsNext, Started, Finished, MayCancel;
    StepIds(c, s, e);
    match e
    case Add(answered, now) =>
      ActiveAfterPut(s.tasks, s.nextId, if answered then AnsweredTask(now) else NewTask(now));
    case Skip(_) =>
    case Cancel(id, now) =>
      if id in s.tasks { ActiveAfterPut(s.tasks, id, Cancelled(s.tasks[id], now)); }
    case Take(id, now) => ActiveAfterPut(s.tasks, id, Started(s.tasks[id], now));
    case Finish(id, ok, late, now) =>
      ActiveAfterPut(s.tasks, id, Finished(c, s.tasks[id], ok, late, now));
      FinishedStatus(c, s.tasks[id], ok, late, now);
  }

  lemma FinishedStatus(c: Config, t: Core, ok: bool, late: bool, now: int)
    ensures Finished(c, t, ok, late, now).status in {Succeeded, Queued, Failed, TimedOut}
  {
  }

  /** At every moment of the run queued and running tasks fit the capacity. */
  ghost predicate FitsThroughout(c: Config, s: Sys, es: seq<Event>, threads: nat)
    requires Legal(c, s, es, threads)
    decreases |es|
  {
    && |ActiveIds(s.tasks)| <= c.capacity
    && (|es| == 0 || FitsThroughout(c, Apply(c, s, es[0]), es[1..], threads))
  }

  ghost predicate NeverOverfills(c: Config, s: Sys, es: seq<Event>, threads: nat)
    requires Legal(c, s, es, threads)
    decreases |es|
  {
    |es| == 0 || (!Overfills(c, s, es[0]) && NeverOverfills(c, Apply(c, s, es[0]), es[1..], threads))
  }

  /** Queued plus running tasks stay within the capacity throughout a run if and only if
      no step of it requeues a cancelled task into a full queue. */
  lemma {:induction false} CapacityKeptIff(c: Config, s: Sys, es: seq<Event>, threads: nat)
    requires AttemptInv(c, s) && Legal(c, s, es, threads) && |ActiveIds(s.tasks)| <= c.capacity
    ensures FitsThroughout(c, s, es, threads) <==> NeverOverfills(c, s, es, threads)
    decreases |es|
  {
    hide AttemptInv, Overfills, Apply, Enabled;
    if |es| != 0 {
      StepKeepsAttempts(c, s, es[0]);
      OverfillsIff(c, s, es[0]);
      if !Overfills(c, s, es[0]) { CapacityKeptIff(c, Apply(c, s, es[0]), es[1..], threads); }
    }
  }

  // ---------- exactly when a cancel lasts ----------

  /** Whatever happens next, the task remains cancelled. */
  ghost predicate StaysCanceled(c: Config, s: Sys, id: nat, threads: nat) {
    forall es :: Legal(c, s, es, threads) ==>
      id in After(c, s, es, threads).tasks && After(c, s, es, threads).tasks[id].status == Canceled
  }

  ghost predicate IsCanceledAtRest(s: Sys, id: nat) {
    id in s.tasks && s.tasks[id].status == Canceled && id !in s.inflight
  }

  lemma StepKeepsCanceled(c: Config, s: Sys, e: Event, id: nat)
    requires AttemptInv(c, s) && Enabled(c, s, e) && IsCanceledAtRest(s, id)
    ensures IsCanceledAtRest(Apply(c, s, e), id)
  {
    hide CoreInv, ActiveIds, Started, Finished;
  }

  lemma {:induction false} RunKeepsCanceled(c: Config, s: Sys, es: seq<Event>, threads: nat, id: nat)
    requires AttemptInv(c, s) && Legal(c, s, es, threads) && IsCanceledAtRest(s, id)
    ensures IsCanceledAtRest(After(c, s, es, threads), id)
    decreases |es|
  {
    hide AttemptInv, IsCanceledAtRest, Apply, Enabled;
    if |es| != 0 {
      StepKeepsAttempts(c, s, es[0]);
      StepKeepsCanceled(c, s, es[0], id);
      RunKeepsCanceled(c, Apply(c, s, es[0]), es[1..], threads, id);
    }
  }

  /** The end of an attempt always overwrites the task's status. */
  lemma FinishingEndsCancel(c: Config, s: Sys, e: Event, threads: nat)
    requires Enabled(c, s, e) && e.Finish? && |s.inflight| <= threads
    ensures Legal(c, s, [e], threads)
    ensures e.id in After(c, s, [e], threads).tasks && After(c, s, [e], threads).tasks[e.id].status != Canceled
  {
    FinishedStatus(c, s.tasks[e.id], e.ok, e.late, e.now);
    hide AttemptInv, Finished;
    var s' := Apply(c, s, e);
    assert |s'.inflight| <= |s.inflight|;
    assert [e] + [] == [e];
    Prepend(c, s, e, [], threads);
  }

  /** A cancelled task remains cancelled, whatever happens next, if and only if none of
      its attempts is in flight. */
  lemma CancelLastsIff(c: Config, s: Sys, id: nat, threads: nat)
    requires AttemptInv(c, s) && |s.inflight| <= threads && id in s.tasks && s.tasks[id].status == Canceled
    ensures StaysCanceled(c, s, id, threads) <==> id !in s.inflight
  {
    if id in s.inflight {
      FinishingEndsCancel(c, s, Finish(id, true, false, s.clock), threads);
    } else {
      forall es | Legal(c, s, es, threads)
        ensures id in After(c, s, es, threads).tasks && After(c, s, es, threads).tasks[id].status == Canceled
      {
        RunKeepsCanceled(c, s, es, threads, id);
      }
    }
  }

  /** The states of two runs, in the second of which the task, with an attempt in
      flight, has been cancelled. */
  ghost predicate Twins(s: Sys, s': Sys, id: nat) {
    && id in s.inflight && id in s.tasks && id in s'.tasks
    && s.tasks[id].status in {Running, Canceled}
    && s'.tasks[id] == s.tasks[id].(status := Canceled, updatedAt := s'.tasks[id].updatedAt)
    && s' == s.(tasks := s.tasks[id := s'.tasks[id]], clock := s'.clock)
  }

  predicate Finishes(e: Event, id: nat) { e.Finish? && e.id == id }

  lemma CancelMakesTwins(c: Config, s: Sys, id: nat, now: int)
    requires AttemptInv(c, s) && id in s.inflight && s.clock <= now
    ensures Twins(s, Apply(c, s, Cancel(id, now)), id)
  {
    assert CoreInv(c, s.tasks[id], s.inflight[id], s.clock);
  }

  lemma TwinsHaveRoom(s: Sys, s': Sys, id: nat)
    requires Twins(s, s', id)
    ensures |ActiveIds(s'.tasks)| <= |ActiveIds(s.tasks)|
  {
    SubsetSize(ActiveIds(s'.tasks), ActiveIds(s.tasks));
  }

  /** Neither of the two is due, so the same task is next. */
  lemma TwinsEnable(c: Config, s: Sys, s': Sys, e: Event, id: nat)
    requires Twins(s, s', id) && Enabled(c, s, e) && s'.clock <= e.now
    ensures Enabled(c, s', e) && (e.Take? ==> e.id != id)
  {
    TwinsHaveRoom(s, s', id);
    hide ActiveIds;
  }

  lemma PutsCommute(tasks: map<nat, Core>, a: nat, x: Core, b: nat, y: Core)
    ensures tasks[a := x][a := y] == tasks[a := y]
    ensures a != b ==> tasks[a := x][b := y] == tasks[b := y][a := x]
  {
  }

  /** A step that replaces another task. */
  lemma OtherKeepsTwins(s: Sys, s': Sys, id: nat, other: nat, t: Core, r: Sys, r': Sys)
    requires Twins(s, s', id) && other != id && id in r.inflight
    requires r == r.(tasks := s.tasks[other := t]) && r' == r.(tasks := s'.tasks[other := t])
    ensures Twins(r, r', id)
  {
    PutsCommute(s.tasks, id, s'.tasks[id], other, t);
  }

  lemma CancelKeepsTwins(c: Config, s: Sys, s': Sys, id: nat, now: int)
    requires Twins(s, s', id) && s.clock <= now && s'.clock <= now
    ensures Twins(Apply(c, s, Cancel(id, now)), Apply(c, s', Cancel(id, now)), id)
  {
    PutsCommute(s.tasks, id, s'.tasks[id], id, Cancelled(s'.tasks[id], now));
    PutsCommute(s.tasks, id, Cancelled(s.tasks[id], now), id, s'.tasks[id]);
    PutsCommute(s.tasks, id, Cancelled(s.tasks[id], now), id, Cancelled(s'.tasks[id], now));
  }

  lemma StepKeepsTwins(c: Config, s: Sys, s': Sys, e: Event, id: nat)
    requires AttemptInv(c, s) && Twins(s, s', id) && Enabled(c, s, e) && s'.clock <= e.now && !Finishes(e, id)
    ensures Enabled(c, s', e) && Twins(Apply(c, s, e), Apply(c, s', e), id)
    ensures Apply(c, s', e).clock == Apply(c, s, e).clock && s'.inflight == s.inflight
  {
    TwinsEnable(c, s, s', e, id);
    assert id != s.nextId;
    hide AttemptInv, ActiveIds, Started, Finished, Cancelled, IsNext, MayCancel;
    var r, r' := Apply(c, s, e), Apply(c, s', e);
    match e
    case Add(_, _) => OtherKeepsTwins(s, s', id, s.nextId, r.tasks[s.nextId], r, r');
    case Skip(_) =>
    case Cancel(other, now) =>
      if other == id {
        CancelKeepsTwins(c, s, s', id, now);
      } else if other in s.tasks && MayCancel(c, s.tasks[other]) {
        OtherKeepsTwins(s, s', id, other, r.tasks[other], r, r');
      }
    case Take(other, _) => OtherKeepsTwins(s, s', id, other, r.tasks[other], r, r');
    case Finish(other, _, _, _) => OtherKeepsTwins(s, s', id, other, r.tasks[other], r, r');
  }

  /** The end of the attempt makes the states equal. */
  lemma FinishMeets(c: Config, s: Sys, s': Sys, e: Event, id: nat)
    requires Twins(s, s', id) && Enabled(c, s, e) && s'.clock <= e.now && Finishes(e, id)
    ensures Enabled(c, s', e) && Apply(c, s', e) == Apply(c, s, e)
  {
  }

  lemma ClockGoesOn(c: Config, s: Sys, e: Event)
    ensures Enabled(c, s, e) ==> s.clock <= e.now
  {
  }

  lemma {:induction false} TwinsMeet(c: Config, s: Sys, s': Sys, es: seq<Event>, id: nat, threads: nat)
    requires AttemptInv(c, s) && Twins(s, s', id) && Legal(c, s, es, threads)
    requires |es| > 0 && s'.clock <= es[0].now && exists i :: 0 <= i < |es| && Finishes(es[i], id)
    ensures Legal(c, s', es, threads) && After(c, s', es, threads) == After(c, s, es, threads)
    decreases |es|
  {
    hide AttemptInv, Apply, Enabled;
    if Finishes(es[0], id) {
      FinishMeets(c, s, s', es[0], id);
    } else {
      StepKeepsTwins(c, s, s', es[0], id);
      StepKeepsAttempts(c, s, es[0]);
      var i :| 0 <= i < |es| && Finishes(es[i], id);
      assert es[1..][i - 1] == es[i];
      ClockGoesOn(c, Apply(c, s, es[0]), es[1]);
      TwinsMeet(c, Apply(c, s, es[0]), Apply(c, s', es[0]), es[1..], id, threads);
    }
  }

  /** A cancel in mid-attempt leaves no trace: every run in which the attempt ends is
      also possible after the cancel and ends in the same state. */
  lemma CancelIsOverwritten(c: Config, s: Sys, es: seq<Event>, id: nat, now: int, threads: nat)
    requires AttemptInv(c, s) && id in s.inflight && Legal(c, s, es, threads)
    requires |es| > 0 && s.clock <= now <= es[0].now && exists i :: 0 <= i < |es| && Finishes(es[i], id)
    ensures Legal(c, s, [Cancel(id, now)] + es, threads)
    ensures After(c, s, [Cancel(id, now)] + es, threads) == After(c, s, es, threads)
  {
    CancelMakesTwins(c, s, id, now);
    TwinsMeet(c, s, Apply(c, s, Cancel(id, now)), es, id, threads);
    Prepend(c, s, Cancel(id, now), es, threads);
  }

  /** The condition is needed: with capacity one, cancelling the running task, adding
      another and then failing the attempt leaves two tasks queued. */
  lemma CancelExceedsCapacity()
    ensures var c := Config(1, 10, 0, 1, true);
      exists es: seq<Event> ::
          Legal(c, Initial(0), es, 1) && |QueuedIds(After(c, Initial(0), es, 1).tasks)| > c.capacity
  {
    var c := Config(1, 10, 0, 1, true);
    var es := [Add(false, 0), Take(1, 0), Cancel(1, 0), Add(false, 0), Finish(1, false, false, 0)];
    var s3 := Sys(2, map[1 := Core(Canceled, 1, 0, 0, 0)], multiset{1}, 1, 0);
    OverloadedPart1(c, s3);
    OverloadedPart2(c, s3);
    hide Apply, Enabled, QueuedIds, ActiveIds;
    var s1 := Apply(c, Initial(0), es[0]);
    var s2 := Apply(c, s1, es[1]);
    var s4 := Apply(c, s3, es[3]);
    assert es == [es[0]] + ([es[1]] + ([es[2]] + ([es[3]] + ([es[4]] + []))));
    Prepend(c, s4, es[4], [], 1);
    Prepend(c, s3, es[3], [es[4]] + [], 1);
    Prepend(c, s2, es[2], [es[3]] + ([es[4]] + []), 1);
    Prepend(c, s1, es[1], [es[2]] + ([es[3]] + ([es[4]] + [])), 1);
    Prepend(c, Initial(0), es[0], [es[1]] + ([es[2]] + ([es[3]] + ([es[4]] + []))), 1);
  }

  /** Added, taken and cancelled: the attempt is in flight, the queue looks empty. */
  lemma OverloadedPart1(c: Config, s3: Sys)
    requires c == Config(1, 10, 0, 1, true)
    requires s3 == Sys(2, map[1 := Core(Canceled, 1, 0, 0, 0)], multiset{1}, 1, 0)
    ensures var s0 := Initial(0); Enabled(c, s0, Add(false, 0))
    ensures var s1 := Apply(c, Initial(0), Add(false, 0)); |s1.inflight| == 0 && Enabled(c, s1, Take(1, 0))
    ensures var s2 := Apply(c, Apply(c, Initial(0), Add(false, 0)), Take(1, 0));
      |s2.inflight| == 1 && Enabled(c, s2, Cancel(1, 0)) && Apply(c, s2, Cancel(1, 0)) == s3
  {
    assert ActiveIds(Initial(0).tasks) == {};
    var s1 := Apply(c, Initial(0), Add(false, 0));
    assert s1 == Sys(2, map[1 := NewTask(0)], multiset{}, 0, 0);
    var s2 := Apply(c, s1, Take(1, 0));
    assert s2 == Sys(2, map[1 := Core(Running, 1, 0, 0, 0)], multiset{1}, 1, 0);
  }

  /** Another task is added, and the attempt of the first fails into a retry. */
  lemma OverloadedPart2(c: Config, s3: Sys)
    requires c == Config(1, 10, 0, 1, true)
    requires s3 == Sys(2, map[1 := Core(Canceled, 1, 0, 0, 0)], multiset{1}, 1, 0)
    ensures Enabled(c, s3, Add(false, 0))
    ensures var s4 := Apply(c, s3, Add(false, 0)); |s4.inflight| == 1 && Enabled(c, s4, Finish(1, false, false, 0))
    ensures var s5 := Apply(c, Apply(c, s3, Add(false, 0)), Finish(1, false, false, 0));
      |QueuedIds(s5.tasks)| == 2 && Legal(c, s5, [], 1) && After(c, s5, [], 1) == s5
  {
    assert ActiveIds(s3.tasks) == {};
    var s4 := Apply(c, s3, Add(false, 0));
    assert s4.tasks == map[1 := Core(Canceled, 1, 0, 0, 0), 2 := NewTask(0)];
    assert MaxAttempts(c) == 2;
    var s5 := Apply(c, s4, Finish(1, false, false, 0));
    assert s5.tasks == map[1 := Core(Queued, 1, 0, 0, 0), 2 := NewTask(0)];
    assert QueuedIds(s5.tasks) == {1, 2};
  }

  lemma Prepend(c: Config, s: Sys, e: Event, es: seq<Event>, threads: nat)
    requires |s.inflight| <= threads && Enabled(c, s, e)
    requires Legal(c, Apply(c, s, e), es, threads)
    ensures Legal(c, s, [e] + es, threads)
    ensures After(c, s, [e] + es, threads) == After(c, Apply(c, s, e), es, threads)
  {
    assert ([e] + es)[1..] == es;
  }
}
