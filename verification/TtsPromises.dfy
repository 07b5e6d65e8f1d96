/** What callers of the speech service are promised, call by call, and where all audio in
    the cache comes from. */
module TtsPromises {
  import opened Common
  import opened TtsModel
  import opened TtsCache
  import opened TtsIndex
  import Q = TaskQueue

  // ---------- calls ----------

  /** How many tasks are queued or running. */
  ghost function Load(s: State): nat {
    |set id | id in s.tasks && (s.tasks[id].core.status == Q.Queued || s.tasks[id].core.status == Q.Running)|
  }

  lemma LoadDecides(c: Config, s: State)
    ensures HasRoom(c, s) <==> Load(s) < c.queue.capacity
  {
    assert Q.ActiveIds(Cores(s.tasks)) ==
      set id | id in s.tasks && (s.tasks[id].core.status == Q.Queued || s.tasks[id].core.status == Q.Running);
  }

  /** The cache has audio for the key that lasts beyond this moment. */
  predicate HasFresh(cache: Cache, key: string, now: int) { key in cache.entries && now < cache.entries[key].expiresAt }

  lemma FoundIff(cache: Cache, key: string, now: int)
    ensures FindCached(cache, key, now) == if HasFresh(cache, key, now) then Some(cache.entries[key]) else None
  {
  }

  predicate FitsText(c: Config, r: Request) { r.text != "" && |r.text| <= c.maxTextLength }

  /** A request is taken exactly if its text is not empty and not too long and fewer than
      the capacity of tasks are queued or running; it is answered at once exactly if it
      allows the cache and the cache has audio for its key that has not expired. */
  lemma SubmitIff(c: Config, s: State, r: Request, now: int)
    ensures var (s', x) := Submit(c, s, r, now); var key, id := Key(c, r), s.nextTaskId;
      var taken := FitsText(c, r) && Load(s) < c.queue.capacity;
      && (x == TextIsEmpty <==> r.text == "")
      && (x == TextIsTooLong <==> |r.text| > c.maxTextLength && r.text != "")
      && (x == QueueIsFull <==> FitsText(c, r) && !(Load(s) < c.queue.capacity))
      && (x.Hit? <==> taken && r.cacheEnabled && HasFresh(s.cache, key, now))
      && (x.Queued? <==> taken && !(r.cacheEnabled && HasFresh(s.cache, key, now)))
      && (!taken ==> s' == s)
      && (x.Hit? ==>
            && x.id == id
            && s' == s.(nextTaskId := id + 1,
                        tasks := s.tasks[id := Task(Q.Core(Q.Succeeded, 0, now, now, now), r, key, "",
                                                    Some(s.cache.entries[key]))]))
      && (x.Queued? ==>
            && x.id == id
            && s' == s.(nextTaskId := id + 1,
                        tasks := s.tasks[id := Task(Q.Core(Q.Queued, 0, now, now, now), r, key, "", None)]))
  {
    LoadDecides(c, s);
    FoundIff(s.cache, Key(c, r), now);
    hide Key, Load, HasRoom, FindCached;
  }

  /** Exactly queued and running tasks can be cancelled. */
  lemma CancelIff(c: Config, s: State, id: nat, now: int)
    ensures var (s', ok) := CancelTask(c, s, id, now);
      && (ok <==> id in s.tasks
                  && (s.tasks[id].core.status == Q.Queued || s.tasks[id].core.status == Q.Running))
      && (!ok ==> s' == s)
      && (ok ==> var t := s.tasks[id];
            s' == s.(tasks := s.tasks[id := t.(core := t.core.(status := Q.Canceled, updatedAt := now))]))
  {
  }

  /** The attempt brought speech: an answer with bytes, in time. */
  predicate Spoke(c: Config, r: Response, elapsed: int) { r.ok && |r.bytes| > 0 && elapsed <= c.queue.timeout }

  /** How an attempt ends, in the provider's terms. */
  lemma FinishOutcome(c: Config, s: State, id: nat, r: Response, elapsed: int, now: int, victims: seq<string>)
    requires id in s.tasks && FinishVictims(c, s, id, r, elapsed, now, victims)
    ensures var s' := FinishTask(c, s, id, r, elapsed, now, victims); var t := s.tasks[id];
      var late := elapsed > c.queue.timeout;
      var again := t.core.attempts < (c.queue.maxRetries + 1) % 0x1_0000_0000;
      && id in s'.tasks && s'.tasks == s.tasks[id := s'.tasks[id]] && s'.nextTaskId == s.nextTaskId
      && var t' := s'.tasks[id];
      && t' == t.(core := t'.core, lastError := t'.lastError, audio := t'.audio)
      && t'.core == t.core.(status := t'.core.status, nextAt := t'.core.nextAt, updatedAt := now)
      && (t'.core.status == Q.Succeeded <==> Spoke(c, r, elapsed))
      && (t'.core.status == Q.Queued <==> !Spoke(c, r, elapsed) && again)
      && (t'.core.status == Q.TimedOut <==> late && !again)
      && (t'.core.status == Q.Failed <==> !Spoke(c, r, elapsed) && !late && !again)
      && t'.core.nextAt == (if t'.core.status == Q.Queued then now + c.queue.backoff * t.core.attempts
                            else t.core.nextAt)
      && t'.audio == (if Spoke(c, r, elapsed) then Some(Audio(AudioId(t.key, id), r.bytes, now, now + c.ttl))
                      else t.audio)
      && t'.lastError == (if Spoke(c, r, elapsed) then "" else if late then "TTS request timed out"
                          else if r.error == "" then "TTS request failed" else r.error)
      && (!Spoke(c, r, elapsed) || !t.request.cacheEnabled ==> s'.cache == s.cache)
  {
    hide Victims, Evicted, AudioId;
  }

  // ---------- what is spoken is served ----------

  /** The newest entry is kept while it is not chosen among equally old ones. */
  lemma {:induction false} KeptUnlessVictim(limit: nat, cache: Cache, victims: seq<string>, key: string)
    requires Victims(limit, cache, victims) && key in cache.entries && key !in victims
    ensures var kept := Evicted(limit, cache, victims);
      key in kept.entries && kept.entries[key] == cache.entries[key]
    decreases |victims|
  {
    if |victims| != 0 {
      FirstVictim(limit, cache, victims);
      hide Victims, Evicted, IsOldest;
      KeptUnlessVictim(limit, Drop(cache, victims[0]), victims[1..], key);
    }
  }

  /** Speech that was just brought and may be cached answers every later request with its
      key until its time is over, and then no more, unless it was evicted at once. */
  lemma SpokenIsServed(c: Config, s: State, id: nat, r: Response, elapsed: int, now: int, victims: seq<string>,
                       asked: Request, later: int)
    requires id in s.tasks && FinishVictims(c, s, id, r, elapsed, now, victims)
    requires Spoke(c, r, elapsed) && s.tasks[id].request.cacheEnabled && s.tasks[id].key !in victims
    requires asked.cacheEnabled && FitsText(c, asked) && Key(c, asked) == s.tasks[id].key
    requires Load(FinishTask(c, s, id, r, elapsed, now, victims)) < c.queue.capacity
    ensures var s1 := FinishTask(c, s, id, r, elapsed, now, victims); var (s2, x) := Submit(c, s1, asked, later);
      && (x.Hit? <==> later < now + c.ttl)
      && (x.Hit? ==> x.id in s2.tasks && s2.tasks[x.id].audio.Some? && s2.tasks[x.id].audio.value.bytes == r.bytes)
  {
    var s1 := FinishTask(c, s, id, r, elapsed, now, victims);
    var key := s.tasks[id].key;
    KeptUnlessVictim(c.maxItems, CachePut(c, s, id, r, elapsed, now), victims, key);
    assert key in s1.cache.entries && s1.cache.entries[key].expiresAt == now + c.ttl
      && s1.cache.entries[key].bytes == r.bytes;
    hide FinishTask, Victims, Evicted, Load, Key, Submit;
    SubmitIff(c, s1, asked, later);
  }

  /** In a cache that is not full, or has the key already, nothing is evicted. */
  lemma NotEvicted(c: Config, s: State, id: nat, r: Response, elapsed: int, now: int, victims: seq<string>)
    requires id in s.tasks && FinishVictims(c, s, id, r, elapsed, now, victims) && |s.cache.entries| <= c.maxItems
    requires |s.cache.entries| < c.maxItems || s.tasks[id].key in s.cache.entries
    ensures victims == []
  {
    var t := s.tasks[id];
    if Speaks(c, r, elapsed) && t.request.cacheEnabled {
      PutEvictsOne(c.maxItems, s.cache, t.key, AudioOf(c, id, t, r, now), victims);
    }
  }

  /** Clearing takes away exactly what has expired by then, with exactly its ids. */
  lemma ClearedIff(cache: Cache, now: int)
    ensures var cache' := WithoutExpired(cache, now);
      && (forall k :: k in cache'.entries <==> HasFresh(cache, k, now))
      && (forall k :: k in cache'.entries ==> cache'.entries[k] == cache.entries[k])
      && (forall a :: a in cache'.index <==>
            a in cache.index && !exists k :: k in cache.entries && !HasFresh(cache, k, now) && cache.entries[k].id == a)
      && (forall a :: a in cache'.index ==> cache'.index[a] == cache.index[a])
  {
  }

  // ---------- where audio comes from ----------

  /** An attempt of the run brought exactly this audio, for this key, and it lasts from
      then for the configured time. */
  ghost predicate WasBrought(c: Config, es: seq<Event>, key: string, a: Audio) {
    exists e :: e in es && e.Finish? && Spoke(c, e.response, e.elapsed) && a.id == AudioId(key, e.id)
      && a.bytes == e.response.bytes && a.createdAt == e.now && a.expiresAt == e.now + c.ttl
  }

  lemma BroughtMore(c: Config, es: seq<Event>, e: Event, key: string, a: Audio)
    requires WasBrought(c, es, key, a)
    ensures WasBrought(c, es + [e], key, a)
  {
    var x :| x in es && x.Finish? && Spoke(c, x.response, x.elapsed) && a.id == AudioId(key, x.id)
      && a.bytes == x.response.bytes && a.createdAt == x.now && a.expiresAt == x.now + c.ttl;
    assert x in es + [e];
  }

  ghost predicate AllBrought(c: Config, es: seq<Event>, cache: Cache) {
    forall k :: k in cache.entries ==> WasBrought(c, es, k, cache.entries[k])
  }

  lemma StoreBrings(c: Config, s: Sys, es: seq<Event>, e: Event)
    requires Enabled(c, s, e) && Stores(c, s, e) && AllBrought(c, es, s.state.cache)
    ensures AllBrought(c, es + [e], Next(c, s, e).state.cache)
  {
    var t := s.state.tasks[e.id];
    var audio := AudioOf(c, e.id, t, e.response, e.now);
    var put := Put(s.state.cache, t.key, audio);
    StoringStep(c, s, e);
    EvictionOnlyRemoves(c.maxItems, put, e.victims);
    assert e in es + [e];
    assert WasBrought(c, es + [e], t.key, audio);
    hide Next, Enabled, Victims, Evicted, Covered, WasBrought, AudioOf;
    var cache' := Next(c, s, e).state.cache;
    forall k | k in cache'.entries ensures WasBrought(c, es + [e], k, cache'.entries[k]) {
      if k != t.key { BroughtMore(c, es, e, k, s.state.cache.entries[k]); }
    }
  }

  lemma StepBrings(c: Config, s: Sys, es: seq<Event>, e: Event)
    requires Enabled(c, s, e) && AllBrought(c, es, s.state.cache)
    ensures AllBrought(c, es + [e], Next(c, s, e).state.cache)
  {
    if Stores(c, s, e) {
      hide Next, Enabled, AllBrought;
      StoreBrings(c, s, es, e);
    } else {
      OtherStep(c, s, e);
      hide Next, Enabled, WasBrought;
      var cache' := Next(c, s, e).state.cache;
      forall k | k in cache'.entries ensures WasBrought(c, es + [e], k, cache'.entries[k]) {
        BroughtMore(c, es, e, k, s.state.cache.entries[k]);
      }
    }
  }

  lemma {:induction false} RunBrings(c: Config, s: Sys, before: seq<Event>, es: seq<Event>, threads: nat)
    requires Legal(c, s, es, threads) && AllBrought(c, before, s.state.cache)
    ensures AllBrought(c, before + es, After(c, s, es, threads).state.cache)
    decreases |es|
  {
    if |es| == 0 {
      NothingAfter(before);
    } else {
      StepBrings(c, s, before, es[0]);
      hide Next, Enabled, AllBrought;
      RunBrings(c, Next(c, s, es[0]), before + [es[0]], es[1..], threads);
      assert (before + [es[0]]) + es[1..] == before + es;
    }
  }

  /** From the start: every cached audio was brought by an attempt of the run, under the
      id of that attempt's task, and expires exactly the configured time after it. */
  lemma CacheIsBrought(c: Config, clock: int, es: seq<Event>, threads: nat, key: string)
    requires Legal(c, Initial(clock), es, threads) && key in After(c, Initial(clock), es, threads).state.cache.entries
    ensures WasBrought(c, es, key, After(c, Initial(clock), es, threads).state.cache.entries[key])
  {
    RunBrings(c, Initial(clock), [], es, threads);
    NothingBefore(es);
  }
}
