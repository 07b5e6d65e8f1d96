/** The index of audio ids over whole runs: exactly when it stays in one-to-one
    correspondence with the cache. */
module TtsIndex {
  import opened Common
  import opened TtsModel
  import opened TtsCache
  import Q = TaskQueue

  /** An indexed id that is no longer the id of the entry it leads to. */
  ghost predicate IsStale(cache: Cache, a: string) {
    a in cache.index && !(cache.index[a] in cache.entries && cache.entries[cache.index[a]].id == a)
  }

  // ---------- one change of the cache ----------

  lemma StaleAfterPut(cache: Cache, key: string, audio: Audio, a: string)
    requires IsStale(cache, a) && a != audio.id
    ensures IsStale(Put(cache, key, audio), a)
  {
  }

  lemma StaleAfterDrop(cache: Cache, key: string, a: string)
    requires CacheOk(cache) && key in cache.entries && IsStale(cache, a)
    ensures IsStale(Drop(cache, key), a)
  {
  }

  lemma {:induction false} StaleAfterEviction(limit: nat, cache: Cache, victims: seq<string>, a: string)
    requires CacheOk(cache) && Victims(limit, cache, victims) && IsStale(cache, a)
    ensures IsStale(Evicted(limit, cache, victims), a)
    decreases |victims|
  {
    if |victims| != 0 {
      StaleAfterDrop(cache, victims[0], a);
      DropKeeps(cache, victims[0]);
      hide CacheOk, IsStale, IsOldest, Drop;
      StaleAfterEviction(limit, Drop(cache, victims[0]), victims[1..], a);
    }
  }

  lemma StaleAfterExpiry(cache: Cache, now: int, a: string)
    requires CacheOk(cache) && IsStale(cache, a)
    ensures IsStale(WithoutExpired(cache, now), a)
  {
  }

  lemma DropKeepsBijection(cache: Cache, key: string)
    requires CacheOk(cache) && IsBijection(cache) && key in cache.entries
    ensures IsBijection(Drop(cache, key))
  {
  }

  lemma {:induction false} EvictionKeepsBijection(limit: nat, cache: Cache, victims: seq<string>)
    requires CacheOk(cache) && IsBijection(cache) && Victims(limit, cache, victims)
    ensures IsBijection(Evicted(limit, cache, victims))
    decreases |victims|
  {
    if |victims| != 0 {
      DropKeepsBijection(cache, victims[0]);
      DropKeeps(cache, victims[0]);
      hide CacheOk, IsBijection, IsOldest, Drop;
      EvictionKeepsBijection(limit, Drop(cache, victims[0]), victims[1..]);
    }
  }

  lemma ExpiryKeepsBijection(cache: Cache, now: int)
    requires CacheOk(cache) && IsBijection(cache)
    ensures IsBijection(WithoutExpired(cache, now))
  {
  }

  // ---------- what a step does to the cache ----------

  /** The step stores audio in the cache. */
  ghost predicate Stores(c: Config, s: Sys, e: Event)
    requires Enabled(c, s, e)
  {
    e.Finish? && Speaks(c, e.response, e.elapsed) && s.state.tasks[e.id].request.cacheEnabled
  }

  /** It stores under a key that the cache holds already. */
  ghost predicate Overwrites(c: Config, s: Sys, e: Event)
    requires Enabled(c, s, e)
  {
    Stores(c, s, e) && s.state.tasks[e.id].key in s.state.cache.entries
  }

  lemma StoringStep(c: Config, s: Sys, e: Event)
    requires Enabled(c, s, e) && Stores(c, s, e)
    ensures var t := s.state.tasks[e.id];
      var put := Put(s.state.cache, t.key, AudioOf(c, e.id, t, e.response, e.now));
      Victims(c.maxItems, put, e.victims) && Next(c, s, e).state.cache == Evicted(c.maxItems, put, e.victims)
  {
    hide Victims, Evicted;
  }

  lemma OtherStep(c: Config, s: Sys, e: Event)
    requires Enabled(c, s, e) && !Stores(c, s, e)
    ensures Next(c, s, e).state.cache ==
      if e.ClearExpired? then WithoutExpired(s.state.cache, e.now) else s.state.cache
  {
    hide Victims, Evicted, FindCached, HasRoom;
  }

  // ---------- ids are of succeeded tasks ----------

  ghost predicate Succeeded(s: State, t: nat) { t in s.tasks && s.tasks[t].core.status == Q.Succeeded }

  ghost predicate IdsAreOfSucceeded(s: State) {
    forall a, t: nat :: a in s.cache.index && a == AudioId(s.cache.index[a], t) ==> Succeeded(s, t)
  }

  ghost predicate RunInv(c: Config, s: Sys) {
    !c.queue.laxCancel && Inv(c, s) && Q.AttemptInv(c.queue, QueueOf(s)) && IdsAreOfSucceeded(s.state)
  }

  /** A task that has succeeded is never taken or finished again. */
  lemma SucceededStays(c: Config, s: Sys, e: Event, t: nat)
    requires !c.queue.laxCancel && Q.AttemptInv(c.queue, QueueOf(s)) && Enabled(c, s, e) && Succeeded(s.state, t)
    ensures Succeeded(Next(c, s, e).state, t)
    ensures e.Finish? ==> e.id != t
  {
    InFlightIsOpen(c, s, t);
    SucceededCore(s, t);
    hide Q.AttemptInv, Victims, Evicted, FindCached, Key, AudioOf, FinishVictims, HasRoom, Q.ActiveIds;
  }

  lemma SucceededCore(s: Sys, t: nat)
    requires t in s.state.tasks
    ensures t in Cores(s.state.tasks) && Cores(s.state.tasks)[t] == s.state.tasks[t].core
  {
  }

  lemma InFlightIsOpen(c: Config, s: Sys, t: nat)
    requires Q.AttemptInv(c.queue, QueueOf(s)) && t in s.state.tasks
    ensures t < s.state.nextTaskId
    ensures t in s.inflight ==> s.state.tasks[t].core.status in {Q.Running, Q.Canceled}
  {
    SucceededCore(s, t);
    assert Q.CoreInv(c.queue, QueueOf(s).tasks[t], s.inflight[t], s.clock);
  }

  /** The ids a step adds to the index, if any. */
  ghost predicate IndexGrows(s: State, s': State, id: nat, key: string) {
    forall a :: a in s'.cache.index ==>
      || (a in s.cache.index && s'.cache.index[a] == s.cache.index[a])
      || (a == AudioId(key, id) && s'.cache.index[a] == key && Succeeded(s', id))
  }

  lemma StoringGrows(c: Config, s: Sys, e: Event)
    requires Enabled(c, s, e) && Stores(c, s, e)
    ensures IndexGrows(s.state, Next(c, s, e).state, e.id, s.state.tasks[e.id].key)
  {
    var t, s' := s.state.tasks[e.id], Next(c, s, e).state;
    var audio := AudioOf(c, e.id, t, e.response, e.now);
    var put := Put(s.state.cache, t.key, audio);
    StoringStep(c, s, e);
    hide Victims, Evicted, Enabled;
    assert Succeeded(s', e.id) && audio.id == AudioId(t.key, e.id);
    hide Next, AudioOf, Succeeded;
    EvictionRemovesOldest(c.maxItems, put, e.victims);
    hide OldestGone;
  }

  lemma OtherGrows(c: Config, s: Sys, e: Event)
    requires Enabled(c, s, e) && !Stores(c, s, e)
    ensures IndexGrows(s.state, Next(c, s, e).state, 0, "")
  {
    OtherStep(c, s, e);
    hide Next, Enabled;
  }

  lemma StepIndex(c: Config, s: Sys, e: Event) returns (id: nat, key: string)
    requires Enabled(c, s, e)
    ensures IndexGrows(s.state, Next(c, s, e).state, id, key)
  {
    hide IndexGrows, Next;
    if Stores(c, s, e) {
      id, key := e.id, s.state.tasks[e.id].key;
      StoringGrows(c, s, e);
    } else {
      id, key := 0, "";
      OtherGrows(c, s, e);
    }
  }

  lemma IdsStayOfSucceeded(c: Config, s: Sys, e: Event)
    requires RunInv(c, s) && Enabled(c, s, e)
    ensures IdsAreOfSucceeded(Next(c, s, e).state)
  {
    var id, key := StepIndex(c, s, e);
    var s' := Next(c, s, e).state;
    hide Next, Enabled, Inv, Q.AttemptInv;
    forall a, t: nat | a in s'.cache.index && a == AudioId(s'.cache.index[a], t) ensures Succeeded(s', t) {
      if a in s.state.cache.index && s'.cache.index[a] == s.state.cache.index[a] {
        SucceededStays(c, s, e, t);
      } else {
        AudioIdInjective(key, id, s'.cache.index[a], t);
      }
    }
  }

  lemma StepKeepsRunInv(c: Config, s: Sys, e: Event)
    requires RunInv(c, s) && Enabled(c, s, e)
    ensures RunInv(c, Next(c, s, e))
  {
    IdsStayOfSucceeded(c, s, e);
    hide Next, Enabled, Inv, IdsAreOfSucceeded, Q.AttemptInv;
    StepKeeps(c, s, e);
    StepIsQueueStep(c, s, e);
    Q.StepKeepsAttempts(c.queue, QueueOf(s), QueueEvent(c, s, e));
  }

  // ---------- one step ----------

  lemma IndexedIsOfSucceeded(s: State, id: nat, key: string)
    requires CacheOk(s.cache) && IdsAreOfSucceeded(s) && AudioId(key, id) in s.cache.index
    ensures Succeeded(s, id)
  {
    var a := AudioId(key, id);
    var k := s.cache.index[a];
    assert BuiltFrom(a, k);
    var t: nat :| a == AudioId(k, t);
    AudioIdInjective(key, id, k, t);
    hide AudioId, EntriesLead, IndexBuilt;
  }

  /** The id of a task in flight is not in the index. */
  lemma NewIdIsNew(c: Config, s: Sys, id: nat, key: string)
    requires RunInv(c, s) && id in s.inflight && id in s.state.tasks
    ensures AudioId(key, id) !in s.state.cache.index
  {
    CacheIsOk(c, s);
    hide Inv, IdsAreOfSucceeded, Q.AttemptInv, CacheOk, AudioId;
    InFlightIsOpen(c, s, id);
    if AudioId(key, id) in s.state.cache.index { IndexedIsOfSucceeded(s.state, id, key); }
  }

  /** A stale id is never removed or made good: its task does not succeed again. */
  lemma StaleStays(c: Config, s: Sys, e: Event, a: string)
    requires RunInv(c, s) && Enabled(c, s, e) && IsStale(s.state.cache, a)
    ensures IsStale(Next(c, s, e).state.cache, a)
  {
    hide Inv, IdsAreOfSucceeded, Q.AttemptInv, CacheOk;
    CacheIsOk(c, s);
    if Stores(c, s, e) {
      var t := s.state.tasks[e.id];
      var audio := AudioOf(c, e.id, t, e.response, e.now);
      NewIdIsNew(c, s, e.id, t.key);
      StoringStep(c, s, e);
      PutKeeps(s.state.cache, t.key, audio, e.id);
      StaleAfterPut(s.state.cache, t.key, audio, a);
      hide Next, Enabled, IsStale, Put, Victims, Evicted;
      StaleAfterEviction(c.maxItems, Put(s.state.cache, t.key, audio), e.victims, a);
    } else {
      OtherStep(c, s, e);
      hide Next, Enabled, IsStale, WithoutExpired;
      if e.ClearExpired? { StaleAfterExpiry(s.state.cache, e.now, a); }
    }
  }

  lemma CacheIsOk(c: Config, s: Sys)
    requires Inv(c, s)
    ensures CacheOk(s.state.cache)
  {
  }

  lemma OverwritingMakesStale(c: Config, s: Sys, e: Event) returns (a: string)
    requires RunInv(c, s) && Enabled(c, s, e) && Overwrites(c, s, e)
    ensures IsStale(Next(c, s, e).state.cache, a)
  {
    var t := s.state.tasks[e.id];
    var cache, audio := s.state.cache, AudioOf(c, e.id, t, e.response, e.now);
    NewIdIsNew(c, s, e.id, t.key);
    CacheIsOk(c, s);
    hide Inv, IdsAreOfSucceeded, Q.AttemptInv;
    a := cache.entries[t.key].id;
    OverwritingLeavesOldId(cache, t.key, audio, e.id);
    StoringStep(c, s, e);
    PutKeeps(cache, t.key, audio, e.id);
    hide CacheOk, Next, Enabled, Victims, Evicted;
    StaleAfterEviction(c.maxItems, Put(cache, t.key, audio), e.victims, a);
  }

  /** From a one-to-one index a step breaks it if and only if it overwrites an entry. */
  lemma StepKeepsBijection(c: Config, s: Sys, e: Event)
    requires RunInv(c, s) && Enabled(c, s, e) && IsBijection(s.state.cache) && !Overwrites(c, s, e)
    ensures IsBijection(Next(c, s, e).state.cache)
  {
    hide Inv, IdsAreOfSucceeded, Q.AttemptInv, CacheOk;
    CacheIsOk(c, s);
    var cache := s.state.cache;
    if Stores(c, s, e) {
      var t := s.state.tasks[e.id];
      var audio := AudioOf(c, e.id, t, e.response, e.now);
      StoringStep(c, s, e);
      PutKeeps(cache, t.key, audio, e.id);
      BijectionIff(cache, t.key, audio, e.id);
      hide Next, Enabled, IsBijection, Victims, Evicted;
      EvictionKeepsBijection(c.maxItems, Put(cache, t.key, audio), e.victims);
    } else {
      OtherStep(c, s, e);
      hide Next, Enabled, IsBijection, WithoutExpired;
      if e.ClearExpired? { ExpiryKeepsBijection(cache, e.now); }
    }
  }

  // ---------- runs ----------

  ghost predicate NeverOverwrites(c: Config, s: Sys, es: seq<Event>, threads: nat)
    requires Legal(c, s, es, threads)
    decreases |es|
  {
    |es| == 0 || (!Overwrites(c, s, es[0]) && NeverOverwrites(c, Next(c, s, es[0]), es[1..], threads))
  }

  lemma {:induction false} StaleForEver(c: Config, s: Sys, es: seq<Event>, threads: nat, a: string)
    requires RunInv(c, s) && Legal(c, s, es, threads) && IsStale(s.state.cache, a)
    ensures IsStale(After(c, s, es, threads).state.cache, a)
    decreases |es|
  {
    hide RunInv, IsStale, Next, Enabled;
    if |es| != 0 {
      StepKeepsRunInv(c, s, es[0]);
      StaleStays(c, s, es[0], a);
      StaleForEver(c, Next(c, s, es[0]), es[1..], threads, a);
    }
  }

  /** After a run from a one-to-one index, the index is one-to-one if and only if no step
      of the run stored audio under a key that the cache held already. */
  lemma {:induction false} BijectionKeptIff(c: Config, s: Sys, es: seq<Event>, threads: nat)
    requires RunInv(c, s) && Legal(c, s, es, threads) && IsBijection(s.state.cache)
    ensures IsBijection(After(c, s, es, threads).state.cache) <==> NeverOverwrites(c, s, es, threads)
    decreases |es|
  {
    hide RunInv, IsBijection, Next, Enabled, Overwrites;
    if |es| != 0 {
      StepKeepsRunInv(c, s, es[0]);
      if Overwrites(c, s, es[0]) {
        var a := OverwritingMakesStale(c, s, es[0]);
        StaleForEver(c, Next(c, s, es[0]), es[1..], threads, a);
        StaleBreaks(After(c, s, es, threads).state.cache, a);
      } else {
        StepKeepsBijection(c, s, es[0]);
        BijectionKeptIff(c, Next(c, s, es[0]), es[1..], threads);
      }
    }
  }

  lemma StaleBreaks(cache: Cache, a: string)
    requires IsStale(cache, a)
    ensures !IsBijection(cache)
  {
  }

  lemma InitialIndex(c: Config, clock: int)
    requires !c.queue.laxCancel
    ensures RunInv(c, Initial(clock)) && IsBijection(Initial(clock).state.cache)
  {
    InitialIsQuiet(c, clock);
    InitialIsFine(c, clock);
  }

  /** The same from the start of the service. */
  lemma IndexIsBijectionIff(c: Config, clock: int, es: seq<Event>, threads: nat)
    requires !c.queue.laxCancel && Legal(c, Initial(clock), es, threads)
    ensures IsBijection(After(c, Initial(clock), es, threads).state.cache) <==>
        NeverOverwrites(c, Initial(clock), es, threads)
  {
    InitialIndex(c, clock);
    BijectionKeptIff(c, Initial(clock), es, threads);
  }

  // ---------- the failing run ----------

  function Small(hash: string -> nat): Config { Config(Q.Config(0, 10, 0, 2, false), 10, 1, 100, hash) }

  const HELLO := Request("hi", Voice("default", "en", "1", "1", "1"), Wav, true)
  const SPOKEN := Response(true, [0], "")

  function HelloTask(c: Config, core: Q.Core, audio: Option<Audio>): Task
  { Task(core, HELLO, Key(c, HELLO), "", audio) }

  const WAITS := Q.Core(Q.Queued, 0, 0, 0, 0)
  const RUNS := Q.Core(Q.Running, 1, 0, 0, 0)
  const DONE := Q.Core(Q.Succeeded, 1, 0, 0, 0)

  function Spoken(c: Config, id: nat): Audio { Audio(AudioId(Key(c, HELLO), id), [0], 0, 100) }

  /** Two requests for the same speech are waiting. */
  function TwoWait(c: Config): Sys {
    Sys(State(3, map[1 := HelloTask(c, WAITS, None), 2 := HelloTask(c, WAITS, None)], EMPTY), multiset{}, 0, 0, [])
  }

  /** The first has been answered and cached, the second is being answered. */
  function SecondRuns(c: Config): Sys {
    Sys(State(3, map[1 := HelloTask(c, DONE, Some(Spoken(c, 1))), 2 := HelloTask(c, RUNS, None)],
              Cache(map[Key(c, HELLO) := Spoken(c, 1)], map[Spoken(c, 1).id := Key(c, HELLO)])),
        multiset{2}, 2, 0, [(HELLO, Spoken(c, 1))])
  }

  lemma BothAsk(hash: string -> nat)
    ensures var c := Small(hash); var s0 := Initial(0); var e := Ask(HELLO, 0);
      Enabled(c, s0, e) && Enabled(c, Next(c, s0, e), e) && Next(c, Next(c, s0, e), e) == TwoWait(c)
    ensures |Next(Small(hash), Initial(0), Ask(HELLO, 0)).inflight| == 0
  {
    var c := Small(hash);
    hide Key;
    assert Q.ActiveIds(Cores(map[])) == {};
    var s1 := Next(c, Initial(0), Ask(HELLO, 0));
    assert s1.state == State(2, map[1 := HelloTask(c, WAITS, None)], EMPTY);
    assert Q.ActiveIds(Cores(s1.state.tasks)) == {1};
  }

  lemma TakeOne(c: Config, s: Sys, id: nat, s': Sys)
    requires c.queue.maxRetries == 0 && s.clock == 0 && id in s.state.tasks && s.state.tasks[id].core == WAITS
    requires forall i :: i in s.state.tasks ==> s.state.tasks[i].core.createdAt == 0
    requires s' == s.(state := s.state.(tasks := s.state.tasks[id := s.state.tasks[id].(core := RUNS)]),
                      inflight := s.inflight + multiset{id}, calls := s.calls + 1)
    ensures Enabled(c, s, Take(id, 0)) && Next(c, s, Take(id, 0)) == s'
  {
    assert Cores(s.state.tasks)[id] == WAITS;
  }

  lemma FirstSpeaks(hash: string -> nat)
    ensures var c := Small(hash); var s2 := TwoWait(c); var s3 := Next(c, s2, Take(1, 0));
      && Enabled(c, s2, Take(1, 0)) && |s3.inflight| == 1
      && Enabled(c, s3, Finish(1, SPOKEN, 0, 0, []))
      && var s4 := Next(c, s3, Finish(1, SPOKEN, 0, 0, []));
      |s4.inflight| == 0 && Enabled(c, s4, Take(2, 0)) && Next(c, s4, Take(2, 0)) == SecondRuns(c)
  {
    var c := Small(hash);
    hide Key;
    var s2, k := TwoWait(c), Key(c, HELLO);
    var s3 := s2.(state := s2.state.(tasks := s2.state.tasks[1 := HelloTask(c, RUNS, None)]),
      inflight := multiset{1}, calls := 1);
    TakeOne(c, s2, 1, s3);
    var put := Put(EMPTY, k, Spoken(c, 1));
    assert put.entries.Keys == {k};
    assert Victims(1, put, []);
    var s4 := Next(c, s3, Finish(1, SPOKEN, 0, 0, []));
    assert s4.state.tasks == map[1 := HelloTask(c, DONE, Some(Spoken(c, 1))), 2 := HelloTask(c, WAITS, None)];
    assert s4.state.cache == put;
    TakeOne(c, s4, 2, SecondRuns(c));
  }

  lemma SecondOverwrites(hash: string -> nat)
    ensures var c := Small(hash); var e := Finish(2, SPOKEN, 0, 0, []);
      && Enabled(c, SecondRuns(c), e) && Overwrites(c, SecondRuns(c), e) && |SecondRuns(c).inflight| == 1
      && |Next(c, SecondRuns(c), e).inflight| == 0
  {
    var c := Small(hash);
    hide Key;
    var s, k := SecondRuns(c), Key(c, HELLO);
    var put := Put(s.state.cache, k, Spoken(c, 2));
    assert put.entries.Keys == {k};
    assert Victims(1, put, []);
  }

  lemma Prepend(c: Config, s: Sys, e: Event, es: seq<Event>, threads: nat)
    requires |s.inflight| <= threads && Enabled(c, s, e) && Legal(c, Next(c, s, e), es, threads)
    ensures Legal(c, s, [e] + es, threads)
    ensures NeverOverwrites(c, s, [e] + es, threads) <==>
      !Overwrites(c, s, e) && NeverOverwrites(c, Next(c, s, e), es, threads)
  {
    assert ([e] + es)[1..] == es;
    hide Next, Enabled, Overwrites;
  }

  /** A run that breaks the index, whatever the hash: two requests for the same speech
      wait together, and both are answered and cached. */
  lemma IndexCanBreak(hash: string -> nat)
    ensures var c := Small(hash);
      exists es :: Legal(c, Initial(0), es, 1) && !IsBijection(After(c, Initial(0), es, 1).state.cache)
  {
    var c := Small(hash);
    BothAsk(hash);
    FirstSpeaks(hash);
    SecondOverwrites(hash);
    hide Next, Enabled, Overwrites, IsBijection, Small;
    var ask, done1, done2 := Ask(HELLO, 0), Finish(1, SPOKEN, 0, 0, []), Finish(2, SPOKEN, 0, 0, []);
    var s1 := Next(c, Initial(0), ask);
    var s3 := Next(c, TwoWait(c), Take(1, 0));
    var s4 := Next(c, s3, done1);
    Prepend(c, SecondRuns(c), done2, [], 1);
    Prepend(c, s4, Take(2, 0), [done2] + [], 1);
    Prepend(c, s3, done1, [Take(2, 0)] + ([done2] + []), 1);
    Prepend(c, TwoWait(c), Take(1, 0), [done1] + ([Take(2, 0)] + ([done2] + [])), 1);
    Prepend(c, s1, ask, [Take(1, 0)] + ([done1] + ([Take(2, 0)] + ([done2] + []))), 1);
    Prepend(c, Initial(0), ask, [ask] + ([Take(1, 0)] + ([done1] + ([Take(2, 0)] + ([done2] + [])))), 1);
    IsStrict(hash);
    IndexIsBijectionIff(c, 0, [ask] + ([ask] + ([Take(1, 0)] + ([done1] + ([Take(2, 0)] + ([done2] + []))))), 1);
  }

  lemma IsStrict(hash: string -> nat)
    ensures !Small(hash).queue.laxCancel
  {
  }
}
