/** Clearing expired audio over whole runs: leaving it out changes nothing that requests
    are answered with. */
module TtsClearing {
  import opened Common
  import opened TtsModel
  import opened TtsCache
  import opened TtsIndex
  import Q = TaskQueue

  // ---------- the unexpired entries ----------

  function Live(cache: Cache, now: int): map<string, Audio> {
    map k | k in cache.entries && !IsExpired(cache.entries[k], now) :: cache.entries[k]
  }

  /** All audio is kept for the same time, so the older one expires first. */
  ghost predicate OneTtl(c: Config, cache: Cache) {
    forall k :: k in cache.entries ==> cache.entries[k].expiresAt == cache.entries[k].createdAt + c.ttl
  }

  lemma LiveLater(a: Cache, b: Cache, now: int, later: int)
    requires Live(a, now) == Live(b, now) && now <= later
    ensures Live(a, later) == Live(b, later)
  {
    forall k ensures k in Live(a, later) <==> k in Live(b, later)
      ensures k in Live(a, later) ==> Live(a, later)[k] == Live(b, later)[k]
    {
      assert k in Live(a, later) ==> k in Live(a, now) && Live(a, now)[k] == a.entries[k];
      assert k in Live(b, later) ==> k in Live(b, now) && Live(b, now)[k] == b.entries[k];
    }
  }

  lemma LiveAfterClearing(cache: Cache, now: int)
    ensures Live(WithoutExpired(cache, now), now) == Live(cache, now)
  {
  }

  lemma LiveAfterPut(cache: Cache, key: string, audio: Audio, now: int)
    ensures Live(Put(cache, key, audio), now) ==
      if IsExpired(audio, now) then Live(cache, now) - {key} else Live(cache, now)[key := audio]
  {
  }

  /** Lookup sees the unexpired entries only. */
  lemma FoundIsLive(cache: Cache, key: string, now: int)
    ensures FindCached(cache, key, now) == if key in Live(cache, now) then Some(Live(cache, now)[key]) else None
  {
  }

  lemma LiveSize(cache: Cache, now: int)
    ensures |Live(cache, now)| <= |cache.entries|
    ensures |Live(cache, now)| == |cache.entries| <==> Live(cache, now) == cache.entries
  {
    var live := Live(cache, now);
    assert live.Keys <= cache.entries.Keys;
    SubsetSize(live.Keys, cache.entries.Keys);
    assert |live.Keys| == |live| && |cache.entries.Keys| == |cache.entries|;
    if |live| == |cache.entries| { SameSizeSubset(live.Keys, cache.entries.Keys); }
  }

  lemma SameSizeSubset(a: set<string>, b: set<string>)
    requires a <= b && |a| == |b|
    ensures a == b
  {
    assert |b - a| == |b| - |a|;
  }

  /** While any entry is expired, an oldest one is. */
  lemma OldestIsExpired(c: Config, cache: Cache, v: string, now: int)
    requires OneTtl(c, cache) && IsOldest(cache, v) && Live(cache, now) != cache.entries
    ensures Live(Drop(cache, v), now) == Live(cache, now)
  {
    var k :| k in cache.entries && IsExpired(cache.entries[k], now);
    assert IsExpired(cache.entries[v], now);
  }

  // ---------- one audio stored in two caches ----------

  lemma {:induction false} HasOldest(cache: Cache, keys: set<string>) returns (v: string)
    requires keys != {} && keys <= cache.entries.Keys
    ensures v in keys && forall k :: k in keys ==> cache.entries[v].createdAt <= cache.entries[k].createdAt
    decreases |keys|
  {
    var k :| k in keys;
    v := k;
    if keys != {k} {
      v := HasOldest(cache, keys - {k});
      if cache.entries[k].createdAt < cache.entries[v].createdAt { v := k; }
    }
  }

  lemma OneVictim(limit: nat, cache: Cache, v: string)
    requires |cache.entries| == limit + 1 && IsOldest(cache, v)
    ensures Victims(limit, cache, [v]) && Evicted(limit, cache, [v]) == Drop(cache, v)
  {
    DropFacts(cache, v);
    assert [v][1..] == [];
  }

  /** Storing in a cache within its limit: nothing is evicted, or one oldest entry. */
  lemma StoringOutcome(limit: nat, put: Cache, victims: seq<string>)
    requires Victims(limit, put, victims) && |put.entries| <= limit + 1
    ensures |put.entries| <= limit ==> Evicted(limit, put, victims) == put
    ensures |put.entries| > limit ==>
      |victims| > 0 && IsOldest(put, victims[0]) && Evicted(limit, put, victims) == Drop(put, victims[0])
  {
    if |put.entries| > limit {
      FirstVictim(limit, put, victims);
      DropFacts(put, victims[0]);
    }
  }

  /** Two caches hold the same unexpired entries. Whatever the first one evicts, the
      second can evict so that they still do. */
  lemma EvictAlike(c: Config, a: Cache, b: Cache, va: seq<string>, now: int) returns (vb: seq<string>)
    requires OneTtl(c, a) && OneTtl(c, b) && Live(a, now) == Live(b, now)
    requires |a.entries| <= c.maxItems + 1 && |b.entries| <= c.maxItems + 1 && Victims(c.maxItems, a, va)
    ensures Victims(c.maxItems, b, vb)
    ensures Live(Evicted(c.maxItems, a, va), now) == Live(Evicted(c.maxItems, b, vb), now)
  {
    StoringOutcome(c.maxItems, a, va);
    LiveSize(a, now);
    LiveSize(b, now);
    vb := [];
    hide OneTtl, Victims, Evicted, Live, Drop;
    if |b.entries| > c.maxItems && Live(b, now) == b.entries {
      assert a.entries == b.entries;
      vb := [va[0]];
      OneVictim(c.maxItems, b, va[0]);
      DropAlike(a, b, va[0], now);
    } else {
      if |a.entries| > c.maxItems { OldestIsExpired(c, a, va[0], now); }
      if |b.entries| > c.maxItems {
        var v := HasOldest(b, b.entries.Keys);
        vb := [v];
        OneVictim(c.maxItems, b, v);
        OldestIsExpired(c, b, v, now);
      } else {
        NoVictims(c.maxItems, b);
      }
    }
  }

  lemma NoVictims(limit: nat, cache: Cache)
    requires |cache.entries| <= limit
    ensures Victims(limit, cache, []) && Evicted(limit, cache, []) == cache
  {
  }

  lemma DropAlike(a: Cache, b: Cache, v: string, now: int)
    requires a.entries == b.entries && v in a.entries
    ensures Live(Drop(a, v), now) == Live(Drop(b, v), now)
  {
  }

  // ---------- two runs ----------

  ghost predicate CacheFine(c: Config, cache: Cache) { OneTtl(c, cache) && |cache.entries| <= c.maxItems }

  /** Two states, in the second of which expired audio may not have been cleared, that
      are the same to clients: the same tasks and the same unexpired audio. */
  ghost predicate SameToClients(s: Sys, t: Sys) {
    && s.state.nextTaskId == t.state.nextTaskId && s.state.tasks == t.state.tasks
    && s.inflight == t.inflight && s.calls == t.calls && s.returned == t.returned
    && t.clock <= s.clock && Live(s.state.cache, s.clock) == Live(t.state.cache, s.clock)
  }

  ghost predicate Twins(c: Config, s: Sys, t: Sys) {
    SameToClients(s, t) && CacheFine(c, s.state.cache) && CacheFine(c, t.state.cache)
  }

  lemma PutSizes(c: Config, cache: Cache, key: string, audio: Audio)
    requires CacheFine(c, cache) && audio.expiresAt == audio.createdAt + c.ttl
    ensures OneTtl(c, Put(cache, key, audio)) && |Put(cache, key, audio).entries| <= c.maxItems + 1
  {
    PutSize(cache, key, audio);
  }

  lemma EvictedIsFine(c: Config, put: Cache, victims: seq<string>)
    requires OneTtl(c, put) && Victims(c.maxItems, put, victims)
    ensures CacheFine(c, Evicted(c.maxItems, put, victims))
  {
    EvictionSize(c.maxItems, put, victims);
    EvictionOnlyRemoves(c.maxItems, put, victims);
    hide Victims, Evicted, Covered;
  }

  lemma StoreAlike(c: Config, a: Cache, b: Cache, key: string, audio: Audio, va: seq<string>, now: int)
    returns (vb: seq<string>)
    requires CacheFine(c, a) && CacheFine(c, b) && Live(a, now) == Live(b, now)
    requires audio.expiresAt == audio.createdAt + c.ttl && Victims(c.maxItems, Put(a, key, audio), va)
    ensures Victims(c.maxItems, Put(b, key, audio), vb)
    ensures var a', b' := Evicted(c.maxItems, Put(a, key, audio), va), Evicted(c.maxItems, Put(b, key, audio), vb);
      CacheFine(c, a') && CacheFine(c, b') && Live(a', now) == Live(b', now)
  {
    hide CacheFine, OneTtl, Victims, Evicted, Live, Put;
    PutSizes(c, a, key, audio);
    PutSizes(c, b, key, audio);
    LiveAfterPut(a, key, audio, now);
    LiveAfterPut(b, key, audio, now);
    vb := EvictAlike(c, Put(a, key, audio), Put(b, key, audio), va, now);
    EvictedIsFine(c, Put(a, key, audio), va);
    EvictedIsFine(c, Put(b, key, audio), vb);
  }

  lemma ClearKeepsTwins(c: Config, s: Sys, t: Sys, e: Event)
    requires Twins(c, s, t) && Enabled(c, s, e) && e.ClearExpired?
    ensures Twins(c, Next(c, s, e), t)
  {
    LiveLater(s.state.cache, t.state.cache, s.clock, e.now);
    LiveAfterClearing(s.state.cache, e.now);
    SubsetSize(WithoutExpired(s.state.cache, e.now).entries.Keys, s.state.cache.entries.Keys);
    hide Live;
  }

  /** A request is answered the same. */
  lemma AskAlike(c: Config, s: Sys, t: Sys, r: Request, now: int)
    requires SameToClients(s, t) && s.clock <= now
    ensures var (s', x), (t', y) := Submit(c, s.state, r, now), Submit(c, t.state, r, now);
      && x == y && s' == s.state.(nextTaskId := s'.nextTaskId, tasks := s'.tasks)
      && t' == t.state.(nextTaskId := s'.nextTaskId, tasks := s'.tasks)
  {
    LiveLater(s.state.cache, t.state.cache, s.clock, now);
    FoundIsLive(s.state.cache, Key(c, r), now);
    FoundIsLive(t.state.cache, Key(c, r), now);
    hide Live, FindCached, Key, Q.ActiveIds, Cores;
  }

  lemma QuietKeepsTwins(c: Config, s: Sys, t: Sys, e: Event)
    requires Twins(c, s, t) && Enabled(c, s, e) && (e.Ask? || e.Cancel? || e.Take?)
    ensures Enabled(c, t, e) && Twins(c, Next(c, s, e), Next(c, t, e))
  {
    LiveLater(s.state.cache, t.state.cache, s.clock, e.now);
    if e.Ask? { AskAlike(c, s, t, e.request, e.now); }
    hide Live, CacheFine, Submit, Q.IsNext;
  }

  /** The same event, except for which of equally old entries are evicted. */
  predicate SameCall(e: Event, f: Event) {
    if e.Finish? then f.Finish? && f == e.(victims := f.victims) else f == e
  }

  lemma FinishKeepsTwins(c: Config, s: Sys, t: Sys, e: Event) returns (f: Event)
    requires Twins(c, s, t) && Enabled(c, s, e) && e.Finish?
    ensures SameCall(e, f) && Enabled(c, t, f) && Twins(c, Next(c, s, e), Next(c, t, f))
  {
    LiveLater(s.state.cache, t.state.cache, s.clock, e.now);
    var task := s.state.tasks[e.id];
    hide Live, CacheFine, Victims, Evicted, Put;
    f := e;
    if Speaks(c, e.response, e.elapsed) && task.request.cacheEnabled {
      var audio := AudioOf(c, e.id, task, e.response, e.now);
      var vb := StoreAlike(c, s.state.cache, t.state.cache, task.key, audio, e.victims, e.now);
      f := e.(victims := vb);
    }
  }

  lemma StepKeepsTwins(c: Config, s: Sys, t: Sys, e: Event) returns (f: Event)
    requires Twins(c, s, t) && Enabled(c, s, e) && !e.ClearExpired?
    ensures SameCall(e, f) && Enabled(c, t, f) && Twins(c, Next(c, s, e), Next(c, t, f))
  {
    f := e;
    hide Twins, Enabled, Next;
    if e.Finish? { f := FinishKeepsTwins(c, s, t, e); } else { QuietKeepsTwins(c, s, t, e); }
  }

  /** The second run is the first without its clearing. */
  predicate WithoutClearing(es: seq<Event>, fs: seq<Event>) {
    if |es| == 0 then |fs| == 0
    else if es[0].ClearExpired? then WithoutClearing(es[1..], fs)
    else |fs| > 0 && SameCall(es[0], fs[0]) && WithoutClearing(es[1..], fs[1..])
  }

  lemma SameThreads(c: Config, s: Sys, t: Sys)
    requires Twins(c, s, t)
    ensures |s.inflight| == |t.inflight|
  {
  }

  lemma Prepend(c: Config, s: Sys, f: Event, fs: seq<Event>, threads: nat)
    requires |s.inflight| <= threads && Enabled(c, s, f) && Legal(c, Next(c, s, f), fs, threads)
    ensures Legal(c, s, [f] + fs, threads) && After(c, s, [f] + fs, threads) == After(c, Next(c, s, f), fs, threads)
  {
    assert ([f] + fs)[1..] == fs;
    hide Next, Enabled;
  }

  lemma {:induction false} RunsAlike(c: Config, s: Sys, t: Sys, es: seq<Event>, threads: nat)
    returns (fs: seq<Event>)
    requires Twins(c, s, t) && Legal(c, s, es, threads)
    ensures WithoutClearing(es, fs) && Legal(c, t, fs, threads)
    ensures Twins(c, After(c, s, es, threads), After(c, t, fs, threads))
    decreases |es|
  {
    SameThreads(c, s, t);
    hide Twins, Enabled, Next, SameCall;
    if |es| == 0 {
      fs := [];
    } else if es[0].ClearExpired? {
      ClearKeepsTwins(c, s, t, es[0]);
      fs := RunsAlike(c, Next(c, s, es[0]), t, es[1..], threads);
    } else {
      var f := StepKeepsTwins(c, s, t, es[0]);
      var more := RunsAlike(c, Next(c, s, es[0]), Next(c, t, f), es[1..], threads);
      Prepend(c, t, f, more, threads);
      fs := [f] + more;
      assert fs[1..] == more;
    }
  }

  /** The run without clearing is possible as well, ends in the same tasks, provider
      calls and unexpired audio, and every later request is answered the same. */
  ghost predicate ClearingMakesNoDifference(c: Config, clock: int, es: seq<Event>, fs: seq<Event>, threads: nat)
    requires Legal(c, Initial(clock), es, threads)
  {
    && WithoutClearing(es, fs) && Legal(c, Initial(clock), fs, threads)
    && var s, t := After(c, Initial(clock), es, threads), After(c, Initial(clock), fs, threads);
    && SameToClients(s, t)
    && forall r, now :: s.clock <= now ==> Submit(c, s.state, r, now).1 == Submit(c, t.state, r, now).1
  }

  /** From the start: clearing expired audio can be left out of any run, up to which of
      equally old entries are evicted, and no request is answered differently. */
  lemma ClearingIsInvisible(c: Config, clock: int, es: seq<Event>, threads: nat)
    requires Legal(c, Initial(clock), es, threads)
    ensures exists fs :: ClearingMakesNoDifference(c, clock, es, fs, threads)
  {
    var fs := RunsAlike(c, Initial(clock), Initial(clock), es, threads);
    var s, t := After(c, Initial(clock), es, threads), After(c, Initial(clock), fs, threads);
    hide Live, Submit, After, Legal;
    forall r, now | s.clock <= now ensures Submit(c, s.state, r, now).1 == Submit(c, t.state, r, now).1 {
      AskAlike(c, s, t, r, now);
    }
    assert ClearingMakesNoDifference(c, clock, es, fs, threads);
  }

  // ---------- lookups by audio id ----------

  lemma LookupIsLive(cache: Cache, a: string, now: int, found: Audio)
    requires CacheOk(cache) && IsBijection(cache)
    ensures FindAudio(cache, a, now) == Some(found) <==>
      exists k :: k in Live(cache, now) && Live(cache, now)[k] == found && found.id == a
  {
    if FindAudio(cache, a, now) == Some(found) { assert cache.index[a] in Live(cache, now); }
  }

  lemma LookupsAlike(x: Cache, y: Cache, a: string, now: int)
    requires CacheOk(x) && IsBijection(x) && CacheOk(y) && IsBijection(y) && Live(x, now) == Live(y, now)
    ensures FindAudio(x, a, now) == FindAudio(y, a, now)
  {
    var r, q := FindAudio(x, a, now), FindAudio(y, a, now);
    hide FindAudio, CacheOk, IsBijection, Live;
    if r.Some? { LookupIsLive(x, a, now, r.value); LookupIsLive(y, a, now, r.value); }
    if q.Some? { LookupIsLive(x, a, now, q.value); LookupIsLive(y, a, now, q.value); }
  }

  /** If no attempt overwrites a cached entry, in either run, lookups by audio id do not
      notice either. */
  lemma LookupsByIdAgree(c: Config, clock: int, es: seq<Event>, fs: seq<Event>, threads: nat, a: string, now: int)
    requires !c.queue.laxCancel && Legal(c, Initial(clock), es, threads)
    requires ClearingMakesNoDifference(c, clock, es, fs, threads)
    requires NeverOverwrites(c, Initial(clock), es, threads) && NeverOverwrites(c, Initial(clock), fs, threads)
    requires After(c, Initial(clock), es, threads).clock <= now
    ensures FindAudio(After(c, Initial(clock), es, threads).state.cache, a, now) ==
      FindAudio(After(c, Initial(clock), fs, threads).state.cache, a, now)
  {
    var s, t := After(c, Initial(clock), es, threads), After(c, Initial(clock), fs, threads);
    hide After, Legal, NeverOverwrites, Live, Submit, FindAudio, IsBijection, Inv;
    IndexIsBijectionIff(c, clock, es, threads);
    IndexIsBijectionIff(c, clock, fs, threads);
    InitialIsFine(c, clock);
    EveryRun(c, Initial(clock), es, threads);
    EveryRun(c, Initial(clock), fs, threads);
    CacheIsOk(c, s);
    CacheIsOk(c, t);
    LiveLater(s.state.cache, t.state.cache, s.clock, now);
    LookupsAlike(s.state.cache, t.state.cache, a, now);
  }

  /** Otherwise they may: of an expired entry whose key is stored again, clearing has
      forgotten the old id, and without clearing that id leads to the new audio. */
  lemma ClearingForgetsOldIds(cache: Cache, key: string, audio: Audio, now: int)
    requires CacheOk(cache) && key in cache.entries && IsExpired(cache.entries[key], now)
    requires audio.id != cache.entries[key].id && audio.expiresAt > now
    ensures var old_id := cache.entries[key].id;
      && FindAudio(Put(WithoutExpired(cache, now), key, audio), old_id, now) == None
      && FindAudio(Put(cache, key, audio), old_id, now) == Some(audio)
  {
  }
}
