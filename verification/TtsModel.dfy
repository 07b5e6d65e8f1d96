/** The speech service: the retrying task queue again, with a bounded, expiring audio
    cache and a second index from audio ids to cache keys. */
module TtsModel {
  import opened Common
  import opened Text
  import Q = TaskQueue

  type Bytes = seq<bv8>

  datatype Format = Wav | Mp3 | Pcm16 | Ogg

  /** A number as a stream prints it: digits, signs, a point, or a word, never a bar. */
  type Printed = s: string | '|' !in s witness ""

  datatype Voice = Voice(id: string, language: string, speed: Printed, pitch: Printed, volume: Printed)

  datatype Request = Request(text: string, voice: Voice, format: Format, cacheEnabled: bool)

  datatype Audio = Audio(id: string, bytes: Bytes, createdAt: int, expiresAt: int)

  datatype Response = Response(ok: bool, bytes: Bytes, error: string)

  datatype Task = Task(core: Q.Core, request: Request, key: string, lastError: string, audio: Option<Audio>)

  /** `hash` is whatever the platform's string hash computes. */
  datatype Config = Config(queue: Q.Config, maxTextLength: nat, maxItems: nat, ttl: int, hash: string -> nat)

  datatype Cache = Cache(entries: map<string, Audio>, index: map<string, string>)

  datatype State = State(nextTaskId: nat, tasks: map<nat, Task>, cache: Cache)

  const EMPTY := Cache(map[], map[])
  const INITIAL := State(1, map[], EMPTY)
  const REQUEST_TIMED_OUT := "TTS request timed out"
  const REQUEST_FAILED := "TTS request failed"

  function FormatName(f: Format): string {
    match f
    case Wav => "wav"
    case Mp3 => "mp3"
    case Pcm16 => "pcm16"
    case Ogg => "ogg"
  }

  function Joined(x: string, y: string): string { x + "|" + y }

  /** What is hashed: the text, the settings and the format, joined without escaping. */
  function Spelled(r: Request): string {
    var names := Joined(Joined(r.text, r.voice.id), r.voice.language);
    var numbers := Joined(Joined(Joined(names, r.voice.speed), r.voice.pitch), r.voice.volume);
    Joined(numbers, FormatName(r.format))
  }

  function Key(c: Config, r: Request): string { "tts:" + Decimal(c.hash(Spelled(r))) }

  function AudioId(key: string, task: nat): string { key + ":task:" + Decimal(task) }

  // ---------- the cache ----------

  function FindCached(cache: Cache, key: string, now: int): Option<Audio> {
    if key !in cache.entries || cache.entries[key].expiresAt <= now then None else Some(cache.entries[key])
  }

  function FindAudio(cache: Cache, id: string, now: int): Option<Audio> {
    if id !in cache.index then None else FindCached(cache, cache.index[id], now)
  }

  function Put(cache: Cache, key: string, audio: Audio): Cache {
    Cache(cache.entries[key := audio], cache.index[audio.id := key])
  }

  function Drop(cache: Cache, key: string): Cache
    requires key in cache.entries
  {
    Cache(cache.entries - {key}, cache.index - {cache.entries[key].id})
  }

  predicate IsOldest(cache: Cache, key: string) {
    key in cache.entries && forall k :: k in cache.entries ==>
        cache.entries[key].createdAt <= cache.entries[k].createdAt
  }

  /** A possible course of enforcing the limit: while there are too many entries, an
      oldest one goes; which of several equally old ones is up to the table. */
  predicate Victims(limit: nat, cache: Cache, victims: seq<string>)
    decreases |victims|
  {
    if |cache.entries| <= limit then victims == []
    else |victims| > 0 && IsOldest(cache, victims[0]) && Victims(limit, Drop(cache, victims[0]), victims[1..])
  }

  function Evicted(limit: nat, cache: Cache, victims: seq<string>): Cache
    requires Victims(limit, cache, victims)
    decreases |victims|
  {
    if |victims| == 0 then cache else Evicted(limit, Drop(cache, victims[0]), victims[1..])
  }

  predicate IsExpired(a: Audio, now: int) { a.expiresAt <= now }

  /** Exactly the expired entries go, and exactly their ids. */
  function WithoutExpired(cache: Cache, now: int): Cache {
    Cache(map k | k in cache.entries && !IsExpired(cache.entries[k], now) :: cache.entries[k],
          cache.index - set k | k in cache.entries && IsExpired(cache.entries[k], now) :: cache.entries[k].id)
  }

  // ---------- locked blocks ----------

  function Cores(tasks: map<nat, Task>): map<nat, Q.Core> { map id | id in tasks :: tasks[id].core }

  datatype SubmitResult = TextIsEmpty | TextIsTooLong | QueueIsFull | Hit(id: nat) | Queued(id: nat)

  predicate HasRoom(c: Config, s: State) { |Q.ActiveIds(Cores(s.tasks))| < c.queue.capacity }

  /** The queue has to have room even for a request that the cache will answer. */
  function Submit(c: Config, s: State, r: Request, now: int): (State, SubmitResult) {
    if |r.text| == 0 then (s, TextIsEmpty)
    else if |r.text| > c.maxTextLength then (s, TextIsTooLong)
    else if !HasRoom(c, s) then (s, QueueIsFull)
    else
      var key := Key(c, r);
      var cached := if r.cacheEnabled then FindCached(s.cache, key, now) else None;
      var task := if cached.Some? then Task(Q.AnsweredTask(now), r, key, "", cached)
                  else Task(Q.NewTask(now), r, key, "", None);
      (s.(nextTaskId := s.nextTaskId + 1, tasks := s.tasks[s.nextTaskId := task]),
       if cached.Some? then Hit(s.nextTaskId) else Queued(s.nextTaskId))
  }

  function CancelTask(c: Config, s: State, id: nat, now: int): (State, bool) {
    if id !in s.tasks || !Q.IsActive(s.tasks[id].core) then (s, false)
    else (s.(tasks := s.tasks[id := s.tasks[id].(core := Q.Cancelled(s.tasks[id].core, now))]), true)
  }

  function TakeTask(s: State, id: nat, now: int): State
    requires id in s.tasks
  {
    s.(tasks := s.tasks[id := s.tasks[id].(core := Q.Started(s.tasks[id].core, now))])
  }

  predicate IsLate(c: Config, elapsed: int) { elapsed > c.queue.timeout }

  /** The attempt produced speech: the client said so, in time, and sent bytes. */
  predicate Speaks(c: Config, r: Response, elapsed: int) { r.ok && |r.bytes| != 0 && !IsLate(c, elapsed) }

  function AudioOf(c: Config, id: nat, t: Task, r: Response, now: int): Audio {
    Audio(AudioId(t.key, id), r.bytes, now, now + c.ttl)
  }

  function FinishedTask(c: Config, id: nat, t: Task, r: Response, elapsed: int, now: int): Task {
    var core := Q.Finished(c.queue, t.core, r.ok && |r.bytes| != 0, IsLate(c, elapsed), now);
    if Speaks(c, r, elapsed) then t.(core := core, lastError := "", audio := Some(AudioOf(c, id, t, r, now)))
    else
      var error := if IsLate(c, elapsed) then REQUEST_TIMED_OUT else r.error;
      t.(core := core, lastError := if |error| == 0 then REQUEST_FAILED else error)
  }

  /** The cache before its limit is enforced. */
  function CachePut(c: Config, s: State, id: nat, r: Response, elapsed: int, now: int): Cache
    requires id in s.tasks
  {
    if Speaks(c, r, elapsed) && s.tasks[id].request.cacheEnabled
    then Put(s.cache, s.tasks[id].key, AudioOf(c, id, s.tasks[id], r, now))
    else s.cache
  }

  /** Evicting happens only when something was stored. */
  predicate FinishVictims(c: Config, s: State, id: nat, r: Response, elapsed: int, now: int, victims: seq<string>)
    requires id in s.tasks
  {
    if Speaks(c, r, elapsed) && s.tasks[id].request.cacheEnabled
    then Victims(c.maxItems, CachePut(c, s, id, r, elapsed, now), victims)
    else victims == []
  }

  function FinishTask(c: Config, s: State, id: nat, r: Response, elapsed: int, now: int, victims: seq<string>): State
    requires id in s.tasks && FinishVictims(c, s, id, r, elapsed, now, victims)
  {
    var stored := CachePut(c, s, id, r, elapsed, now);
    s.(tasks := s.tasks[id := FinishedTask(c, id, s.tasks[id], r, elapsed, now)],
       cache := if Speaks(c, r, elapsed) && s.tasks[id].request.cacheEnabled
                then Evicted(c.maxItems, stored, victims) else s.cache)
  }

  // ---------- interleaved behaviour ----------

  /** `returned` records what providers returned, for which request. */
  datatype Sys = Sys(state: State, inflight: multiset<nat>, calls: nat, clock: int, returned: seq<(Request, Audio)>)

  datatype Event =
    | Ask(request: Request, now: int)
    | Cancel(id: nat, now: int)
    | Take(id: nat, now: int)
    | Finish(id: nat, response: Response, elapsed: int, now: int, victims: seq<string>)
    | ClearExpired(now: int)

  ghost predicate Enabled(c: Config, s: Sys, e: Event) {
    && s.clock <= e.now
    && match e
       case Take(id, now) => id in s.state.tasks && Q.IsNext(Cores(s.state.tasks), id, now)
       case Finish(id, r, elapsed, now, victims) =>
         id in s.inflight && id in s.state.tasks && FinishVictims(c, s.state, id, r, elapsed, now, victims)
       case _ => true
  }

  ghost function Next(c: Config, s: Sys, e: Event): Sys
    requires Enabled(c, s, e)
  {
    match e
    case Ask(r, now) => s.(state := Submit(c, s.state, r, now).0, clock := now)
    case Cancel(id, now) => s.(state := CancelTask(c, s.state, id, now).0, clock := now)
    case Take(id, now) =>
      s.(state := TakeTask(s.state, id, now), inflight := s.inflight + multiset{id}, calls := s.calls + 1, clock := now)
    case Finish(id, r, elapsed, now, victims) =>
      var t := s.state.tasks[id];
      s.(state := FinishTask(c, s.state, id, r, elapsed, now, victims),
          inflight := s.inflight - multiset{id}, clock := now,
         returned := if Speaks(c, r, elapsed) then s.returned + [(t.request, AudioOf(c, id, t, r, now))]
             else s.returned)
    case ClearExpired(now) => s.(state := s.state.(cache := WithoutExpired(s.state.cache, now)), clock := now)
  }

  ghost predicate Legal(c: Config, s: Sys, es: seq<Event>, threads: nat)
    decreases |es|
  {
    |s.inflight| <= threads
    && (|es| == 0 || (Enabled(c, s, es[0]) && Legal(c, Next(c, s, es[0]), es[1..], threads)))
  }

  ghost function After(c: Config, s: Sys, es: seq<Event>, threads: nat): Sys
    requires Legal(c, s, es, threads)
    decreases |es|
  {
    if |es| == 0 then s else After(c, Next(c, s, es[0]), es[1..], threads)
  }

  function Initial(clock: int): Sys { Sys(INITIAL, multiset{}, 0, clock, []) }

  // ---------- the service is a retrying task queue ----------

  ghost function QueueOf(s: Sys): Q.Sys {
    Q.Sys(s.state.nextTaskId, Cores(s.state.tasks), s.inflight, s.calls, s.clock)
  }

  ghost function QueueEvent(c: Config, s: Sys, e: Event): Q.Event
    requires Enabled(c, s, e)
  {
    match e
    case Ask(r, now) =>
      var result := Submit(c, s.state, r, now).1;
      if result.Hit? || result.Queued? then Q.Add(result.Hit?, now) else Q.Skip(now)
    case Cancel(id, now) => Q.Cancel(id, now)
    case Take(id, now) => Q.Take(id, now)
    case Finish(id, r, elapsed, now, _) => Q.Finish(id, r.ok && |r.bytes| != 0, IsLate(c, elapsed), now)
    case ClearExpired(now) => Q.Skip(now)
  }

  lemma CoresAfterPut(tasks: map<nat, Task>, id: nat, t: Task)
    ensures Cores(tasks[id := t]) == Cores(tasks)[id := t.core]
  {
  }

  /** Every step of the service is a step of the task queue. */
  lemma StepIsQueueStep(c: Config, s: Sys, e: Event)
    requires Enabled(c, s, e) && !c.queue.laxCancel
    ensures Q.Enabled(c.queue, QueueOf(s), QueueEvent(c, s, e))
    ensures QueueOf(Next(c, s, e)) == Q.Apply(c.queue, QueueOf(s), QueueEvent(c, s, e))
  {
    var tasks := s.state.tasks;
    hide Q.IsNext, Q.ActiveIds, Victims, Evicted, FindCached, Key, AudioOf;
    match e
    case Ask(r, now) =>
      var result := Submit(c, s.state, r, now);
      if result.1.Hit? || result.1.Queued? {
        CoresAfterPut(tasks, s.state.nextTaskId, result.0.tasks[s.state.nextTaskId]);
      }
    case Cancel(id, now) =>
      if id in tasks { CoresAfterPut(tasks, id, tasks[id].(core := Q.Cancelled(tasks[id].core, now))); }
    case Take(id, now) => CoresAfterPut(tasks, id, tasks[id].(core := Q.Started(tasks[id].core, now)));
    case Finish(id, r, elapsed, now, _) => CoresAfterPut(tasks, id, FinishedTask(c, id, tasks[id], r, elapsed, now));
    case ClearExpired(_) =>
  }

  ghost function QueueEvents(c: Config, s: Sys, es: seq<Event>, threads: nat): (qs: seq<Q.Event>)
    requires Legal(c, s, es, threads)
    decreases |es|
  {
    if |es| == 0 then [] else [QueueEvent(c, s, es[0])] + QueueEvents(c, Next(c, s, es[0]), es[1..], threads)
  }

  /** Every run of the service is a run of the task queue. */
  lemma {:induction false} RunIsQueueRun(c: Config, s: Sys, es: seq<Event>, threads: nat)
    requires Legal(c, s, es, threads) && !c.queue.laxCancel
    ensures var qs := QueueEvents(c, s, es, threads);
      && Q.Legal(c.queue, QueueOf(s), qs, threads)
      && Q.After(c.queue, QueueOf(s), qs, threads) == QueueOf(After(c, s, es, threads))
    decreases |es|
  {
    hide Next, Enabled;
    if |es| != 0 {
      StepIsQueueStep(c, s, es[0]);
      RunIsQueueRun(c, Next(c, s, es[0]), es[1..], threads);
      Q.Prepend(c.queue, QueueOf(s), QueueEvent(c, s, es[0]),
        QueueEvents(c, Next(c, s, es[0]), es[1..], threads), threads);
    }
  }

  /** The service's load, provider calls and retry times, over every interleaving of
      requests, cancels and at most `threads` concurrent ticks. */
  lemma SpeechBounds(c: Config, clock: int, es: seq<Event>, threads: nat)
    requires Legal(c, Initial(clock), es, threads) && !c.queue.laxCancel
    ensures var s := After(c, Initial(clock), es, threads);
      && |Q.QueuedIds(Cores(s.state.tasks))| + |s.inflight| <= c.queue.capacity + threads
      && s.state.nextTaskId >= 1
      && s.calls <= Q.Limit(c.queue) * (s.state.nextTaskId - 1)
      && Q.AttemptInv(c.queue, QueueOf(s))
  {
    assert QueueOf(Initial(clock)) == Q.Initial(clock);
    RunIsQueueRun(c, Initial(clock), es, threads);
    var qs := QueueEvents(c, Initial(clock), es, threads);
    Q.LoadBounded(c.queue, clock, qs, threads);
    Q.ClientCallsBounded(c.queue, clock, qs, threads);
    Q.InitialIsQuiet(c.queue, clock);
    Q.RunKeepsAttempts(c.queue, Q.Initial(clock), qs, threads);
  }

  /** With the retries not wrapping: no task is given up before all its backoffs have
      passed. */
  lemma SpeechRetryTimes(c: Config, clock: int, es: seq<Event>, threads: nat, id: nat)
    requires Legal(c, Initial(clock), es, threads) && !c.queue.laxCancel
    requires c.queue.maxRetries + 1 < TWO_TO_THE_32 && id in After(c, Initial(clock), es, threads).state.tasks
    ensures Q.RetryBounds(c.queue, After(c, Initial(clock), es, threads).state.tasks[id].core)
  {
    assert QueueOf(Initial(clock)) == Q.Initial(clock);
    RunIsQueueRun(c, Initial(clock), es, threads);
    var qs := QueueEvents(c, Initial(clock), es, threads);
    assert id in Q.After(c.queue, Q.Initial(clock), qs, threads).tasks;
    Q.RetryTimes(c.queue, clock, qs, threads, id);
  }

  lemma InitialIsQuiet(c: Config, clock: int)
    ensures Q.AttemptInv(c.queue, QueueOf(Initial(clock))) && Q.QuietInv(c.queue, QueueOf(Initial(clock)))
  {
    assert QueueOf(Initial(clock)) == Q.Initial(clock);
    Q.InitialIsQuiet(c.queue, clock);
  }

  /** No cancel of the run falls between the two halves of an attempt. */
  ghost predicate Undisturbed(c: Config, s: Sys, es: seq<Event>, threads: nat)
    requires Legal(c, s, es, threads)
    decreases |es|
  {
    |es| == 0 || (!(es[0].Cancel? && es[0].id in s.inflight) && Undisturbed(c, Next(c, s, es[0]), es[1..], threads))
  }

  /** If no cancel falls between the halves of an attempt, queued plus running tasks
      stay within the queue. */
  lemma {:induction false} UndisturbedSpeech(c: Config, s: Sys, es: seq<Event>, threads: nat)
    requires !c.queue.laxCancel && Q.AttemptInv(c.queue, QueueOf(s)) && Q.QuietInv(c.queue, QueueOf(s))
    requires Legal(c, s, es, threads) && Undisturbed(c, s, es, threads)
    ensures |ActiveTasks(After(c, s, es, threads))| <= c.queue.capacity
    decreases |es|
  {
    hide Next, Enabled, Q.AttemptInv, Q.QuietInv, Q.Apply, Q.Enabled, QueueEvent;
    if |es| != 0 {
      StepIsQueueStep(c, s, es[0]);
      CancelEvent(c, s, es[0]);
      Q.StepKeepsAttempts(c.queue, QueueOf(s), QueueEvent(c, s, es[0]));
      Q.StepKeepsQuiet(c.queue, QueueOf(s), QueueEvent(c, s, es[0]));
      UndisturbedSpeech(c, Next(c, s, es[0]), es[1..], threads);
    } else {
      Q.QuietFits(c.queue, QueueOf(s));
    }
  }

  lemma CancelEvent(c: Config, s: Sys, e: Event)
    requires Enabled(c, s, e)
    ensures QueueEvent(c, s, e).Cancel? <==> e.Cancel?
    ensures e.Cancel? ==> QueueEvent(c, s, e).id == e.id
  {
  }

  // ---------- exactly when the capacity is exceeded ----------

  ghost function ActiveTasks(s: Sys): set<nat> { Q.ActiveIds(Cores(s.state.tasks)) }

  /** An attempt whose task was cancelled meanwhile fails into a retry although the queue
      is full. */
  ghost predicate Overfills(c: Config, s: Sys, e: Event)
    requires Enabled(c, s, e)
  {
    && e.Finish? && !Q.IsActive(s.state.tasks[e.id].core)
    && FinishedTask(c, e.id, s.state.tasks[e.id], e.response, e.elapsed, e.now).core.status == Q.Queued
    && |ActiveTasks(s)| == c.queue.capacity
  }

  /** At every moment of the run queued and running tasks fit the capacity. */
  ghost predicate FitsThroughout(c: Config, s: Sys, es: seq<Event>, threads: nat)
    requires Legal(c, s, es, threads)
    decreases |es|
  {
    && |ActiveTasks(s)| <= c.queue.capacity
    && (|es| == 0 || FitsThroughout(c, Next(c, s, es[0]), es[1..], threads))
  }

  ghost predicate NeverOverfills(c: Config, s: Sys, es: seq<Event>, threads: nat)
    requires Legal(c, s, es, threads)
    decreases |es|
  {
    |es| == 0 || (!Overfills(c, s, es[0]) && NeverOverfills(c, Next(c, s, es[0]), es[1..], threads))
  }

  lemma SameOverfills(c: Config, s: Sys, e: Event)
    requires Enabled(c, s, e) && Q.Enabled(c.queue, QueueOf(s), QueueEvent(c, s, e))
    ensures Overfills(c, s, e) <==> Q.Overfills(c.queue, QueueOf(s), QueueEvent(c, s, e))
  {
  }

  /** Queued plus running tasks stay within max_queued_tasks throughout a run if and only
      if no step of it requeues a cancelled task into a full queue. */
  lemma {:induction false} CapacityKeptIff(c: Config, s: Sys, es: seq<Event>, threads: nat)
    requires !c.queue.laxCancel && Q.AttemptInv(c.queue, QueueOf(s)) && |ActiveTasks(s)| <= c.queue.capacity
    requires Legal(c, s, es, threads)
    ensures FitsThroughout(c, s, es, threads) <==> NeverOverfills(c, s, es, threads)
    decreases |es|
  {
    hide Next, Enabled, Overfills, Q.AttemptInv, Q.Apply, Q.Enabled, Q.Overfills, QueueEvent;
    if |es| != 0 {
      StepIsQueueStep(c, s, es[0]);
      SameOverfills(c, s, es[0]);
      Q.StepKeepsAttempts(c.queue, QueueOf(s), QueueEvent(c, s, es[0]));
      Q.OverfillsIff(c.queue, QueueOf(s), QueueEvent(c, s, es[0]));
      if !Overfills(c, s, es[0]) { CapacityKeptIff(c, Next(c, s, es[0]), es[1..], threads); }
    }
  }

  // ---------- exactly when a cancel lasts ----------

  ghost predicate IsCanceled(s: Sys, id: nat) {
    id in s.state.tasks && s.state.tasks[id].core.status == Q.Canceled
  }

  /** Whatever happens next, the task remains cancelled. */
  ghost predicate StaysCanceled(c: Config, s: Sys, id: nat, threads: nat) {
    forall es :: Legal(c, s, es, threads) ==> IsCanceled(After(c, s, es, threads), id)
  }

  /** A cancelled task remains cancelled, whatever happens next, if and only if none of
      its attempts is in flight. */
  lemma CancelLastsIff(c: Config, s: Sys, id: nat, threads: nat)
    requires !c.queue.laxCancel && Q.AttemptInv(c.queue, QueueOf(s)) && |s.inflight| <= threads && IsCanceled(s, id)
    ensures StaysCanceled(c, s, id, threads) <==> id !in s.inflight
  {
    if id in s.inflight {
      var e := Finish(id, Response(false, [], ""), c.queue.timeout, s.clock, []);
      FinishingEndsCancel(c, s, e, threads);
    } else {
      forall es | Legal(c, s, es, threads) ensures IsCanceled(After(c, s, es, threads), id) {
        RunIsQueueRun(c, s, es, threads);
        Q.RunKeepsCanceled(c.queue, QueueOf(s), QueueEvents(c, s, es, threads), threads, id);
      }
    }
  }

  lemma FinishingEndsCancel(c: Config, s: Sys, e: Event, threads: nat)
    requires !c.queue.laxCancel && Enabled(c, s, e) && e.Finish? && |s.inflight| <= threads
    ensures Legal(c, s, [e], threads) && !IsCanceled(After(c, s, [e], threads), e.id)
  {
    StepIsQueueStep(c, s, e);
    Q.FinishingEndsCancel(c.queue, QueueOf(s), QueueEvent(c, s, e), threads);
    var qs := [QueueEvent(c, s, e)];
    assert qs[1..] == [] && [e][1..] == [];
    var s' := Next(c, s, e);
    assert Q.After(c.queue, QueueOf(s), qs, threads) == QueueOf(s');
    hide Q.Apply, Q.Enabled, Q.Finished;
    assert |s'.inflight| <= threads;
    assert Legal(c, s', [], threads) && After(c, s', [], threads) == s';
    assert After(c, s, [e], threads) == After(c, s', [], threads);
    assert Cores(s'.state.tasks)[e.id] == s'.state.tasks[e.id].core;
  }
}
