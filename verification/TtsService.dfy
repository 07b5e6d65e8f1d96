/** The speech service itself: tasks, audio cache and id index updated in place, one
    method for each locked block. */
module TtsService {
  import opened Common
  import opened TtsModel
  import M = TtsModel
  import Q = TaskQueue

  /** The loop so far has taken these victims: whatever course it takes from here is,
      after them, a course from the start. */
  ghost predicate Continues(limit: nat, start: Cache, victims: seq<string>, cache: Cache) {
    forall rest :: Victims(limit, cache, rest) ==>
      Victims(limit, start, victims + rest) && Evicted(limit, start, victims + rest) == Evicted(limit, cache, rest)
  }

  lemma LoopBegins(limit: nat, start: Cache)
    ensures Continues(limit, start, [], start)
  {
    forall rest | Victims(limit, start, rest)
      ensures Victims(limit, start, [] + rest) && Evicted(limit, start, [] + rest) == Evicted(limit, start, rest)
    {
      assert [] + rest == rest;
    }
  }

  lemma LoopSteps(limit: nat, start: Cache, victims: seq<string>, cache: Cache, v: string)
    requires Continues(limit, start, victims, cache) && |cache.entries| > limit && IsOldest(cache, v)
    ensures Continues(limit, start, victims + [v], Drop(cache, v))
  {
    hide Drop;
    forall rest | Victims(limit, Drop(cache, v), rest)
      ensures Victims(limit, start, (victims + [v]) + rest)
      ensures Evicted(limit, start, (victims + [v]) + rest) == Evicted(limit, Drop(cache, v), rest)
    {
      assert ([v] + rest)[1..] == rest;
      assert Victims(limit, cache, [v] + rest);
      assert (victims + [v]) + rest == victims + ([v] + rest);
    }
  }

  lemma LoopEnds(limit: nat, start: Cache, victims: seq<string>, cache: Cache)
    requires Continues(limit, start, victims, cache) && |cache.entries| <= limit
    ensures Victims(limit, start, victims) && Evicted(limit, start, victims) == cache
  {
    assert Victims(limit, cache, []) && victims + [] == victims;
  }

  /** The sweep so far: the expired entries among those visited are gone, with their ids. */
  ghost predicate Swept(before: Cache, left: set<string>, now: int, cache: Cache) {
    && cache.entries == (map k | k in before.entries && (k in left || !IsExpired(before.entries[k], now)) ::
           before.entries[k])
    && cache.index == before.index
         - set k | k in before.entries && k !in left && IsExpired(before.entries[k], now) :: before.entries[k].id
  }

  lemma SweepBegins(before: Cache, now: int)
    ensures Swept(before, before.entries.Keys, now, before)
  {
  }

  lemma SweepSteps(before: Cache, left: set<string>, now: int, cache: Cache, k: string)
    requires Swept(before, left, now, cache) && k in left && left <= before.entries.Keys
    ensures k in cache.entries && cache.entries[k] == before.entries[k]
    ensures Swept(before, left - {k}, now, if IsExpired(before.entries[k], now) then Drop(cache, k) else cache)
  {
    var gone := set x | x in before.entries && x !in left && IsExpired(before.entries[x], now) :: before.entries[x].id;
    var goneNow := set x | x in before.entries && x !in left - {k} && IsExpired(before.entries[x], now) ::
      before.entries[x].id;
    if IsExpired(before.entries[k], now) {
      assert goneNow == gone + {before.entries[k].id};
      assert before.index - goneNow == (before.index - gone) - {before.entries[k].id};
    } else {
      assert goneNow == gone;
    }
  }

  lemma SweepEnds(before: Cache, now: int, cache: Cache)
    requires Swept(before, {}, now, cache)
    ensures cache == WithoutExpired(before, now)
  {
    assert (set k | k in before.entries && k !in {} && IsExpired(before.entries[k], now) :: before.entries[k].id) ==
      set k | k in before.entries && IsExpired(before.entries[k], now) :: before.entries[k].id;
  }

  class VoiceTtsService {
    const config: Config
    var nextTaskId: nat
    var tasks: map<nat, Task>
    var audioCache: map<string, Audio>
    var audioIdToCacheKey: map<string, string>

    ghost function CacheView(): Cache
      reads this
    {
      Cache(audioCache, audioIdToCacheKey)
    }

    ghost function View(): State
      reads this
    {
      State(nextTaskId, tasks, CacheView())
    }

    constructor (config: Config)
      ensures this.config == config && View() == INITIAL
    {
      this.config := config;
      nextTaskId := 1;
      tasks, audioCache, audioIdToCacheKey := map[], map[], map[];
    }

    /** A request is answered from the cache, queued, or refused; a full queue refuses
        even what the cache could answer. */
    method Submit(request: Request, now: int) returns (r: SubmitResult)
      modifies this`nextTaskId, this`tasks
      ensures (View(), r) == M.Submit(config, old(View()), request, now)
    {
      if |request.text| == 0 { return TextIsEmpty; }
      if |request.text| > config.maxTextLength { return TextIsTooLong; }
      var active := set id | id in tasks && (tasks[id].core.status == Q.Queued || tasks[id].core.status == Q.Running);
      assert active == Q.ActiveIds(Cores(tasks));
      if |active| >= config.queue.capacity { return QueueIsFull; }
      var key := Key(config, request);
      if request.cacheEnabled {
        var cached := FindCachedAudio(key, now);
        if cached.Some? {
          tasks := tasks[nextTaskId := Task(Q.Core(Q.Succeeded, 0, now, now, now), request, key, "", cached)];
          r := Hit(nextTaskId);
          nextTaskId := nextTaskId + 1;
          return;
        }
      }
      tasks := tasks[nextTaskId := Task(Q.Core(Q.Queued, 0, now, now, now), request, key, "", None)];
      r := Queued(nextTaskId);
      nextTaskId := nextTaskId + 1;
    }

    method FindCachedAudio(key: string, now: int) returns (found: Option<Audio>)
      ensures found == FindCached(CacheView(), key, now)
    {
      if key !in audioCache || audioCache[key].expiresAt <= now { return None; }
      found := Some(audioCache[key]);
    }

    method FindAudio(id: string, now: int) returns (found: Option<Audio>)
      ensures found == M.FindAudio(CacheView(), id, now)
    {
      if id !in audioIdToCacheKey { return None; }
      found := FindCachedAudio(audioIdToCacheKey[id], now);
    }

    method CancelTask(id: nat, now: int) returns (ok: bool)
      modifies this`tasks
      ensures (View(), ok) == M.CancelTask(config, old(View()), id, now)
    {
      if id !in tasks { return false; }
      var task := tasks[id];
      if task.core.status == Q.Succeeded || task.core.status == Q.Failed || task.core.status == Q.TimedOut
         || task.core.status == Q.Canceled { return false; }
      tasks := tasks[id := task.(core := task.core.(status := Q.Canceled, updatedAt := now))];
      ok := true;
    }

    /** The first half of an attempt: walks the task table in an arbitrary order, and
        starts a due task that was created first. */
    method TakeNextTask(now: int) returns (id: Option<nat>)
      modifies this`tasks
      ensures id.None? ==> View() == old(View()) && forall k :: k in tasks ==> !Q.IsDue(tasks[k].core, now)
      ensures id.Some? ==> id.value in old(tasks) && Q.IsNext(Cores(old(tasks)), id.value, now)
      ensures id.Some? ==> View() == TakeTask(old(View()), id.value, now)
    {
      id := None;
      var pending := tasks.Keys;
      while pending != {}
        invariant pending <= tasks.Keys
        invariant id.None? ==> forall k :: k in tasks && k !in pending ==> !Q.IsDue(tasks[k].core, now)
        invariant id.Some? ==> id.value in tasks && Q.IsDue(tasks[id.value].core, now)
        invariant id.Some? ==> forall k :: k in tasks && k !in pending && Q.IsDue(tasks[k].core, now) ==>
          tasks[id.value].core.createdAt <= tasks[k].core.createdAt
        decreases |pending|
      {
        var k :| k in pending;
        pending := pending - {k};
        var task := tasks[k];
        if task.core.status != Q.Queued || task.core.nextAt > now { continue; }
        if id.None? || task.core.createdAt < tasks[id.value].core.createdAt { id := Some(k); }
      }
      if id.None? { return; }
      var task := tasks[id.value];
      assert Q.IsNext(Cores(tasks), id.value, now);
      tasks := tasks[id.value := task.(core := task.core.(status := Q.Running, updatedAt := now,
        attempts := (task.core.attempts + 1) % TWO_TO_THE_32))];
    }

    /** The second half of an attempt; `victims` tells what storing the audio evicted. */
    method FinishTask(id: nat, response: Response, elapsed: int, now: int) returns (ghost victims: seq<string>)
      requires id in tasks
      modifies this`tasks, this`audioCache, this`audioIdToCacheKey
      ensures FinishVictims(config, old(View()), id, response, elapsed, now, victims)
      ensures View() == M.FinishTask(config, old(View()), id, response, elapsed, now, victims)
    {
      hide Victims, Evicted;
      victims := [];
      var task := tasks[id];
      var answer := response;
      var timedOut := elapsed > config.queue.timeout;
      if timedOut { answer := answer.(ok := false, error := REQUEST_TIMED_OUT); }
      if answer.ok && |answer.bytes| != 0 {
        var audio := Audio(AudioId(task.key, id), answer.bytes, now, now + config.ttl);
        task := task.(core := task.core.(status := Q.Succeeded), lastError := "", audio := Some(audio));
        task := task.(core := task.core.(updatedAt := now));
        tasks := tasks[id := task];
        if task.request.cacheEnabled { victims := StoreCache(task.key, audio); }
        return;
      }
      task := task.(lastError := if |answer.error| == 0 then REQUEST_FAILED else answer.error);
      if task.core.attempts < Q.MaxAttempts(config.queue) {
        task := task.(core := task.core.(status := Q.Queued,
          nextAt := now + config.queue.backoff * task.core.attempts, updatedAt := now));
        tasks := tasks[id := task];
        return;
      }
      task := task.(core := task.core.(status := if timedOut then Q.TimedOut else Q.Failed, updatedAt := now));
      tasks := tasks[id := task];
    }

    method StoreCache(key: string, audio: Audio) returns (ghost victims: seq<string>)
      modifies this`audioCache, this`audioIdToCacheKey
      ensures Victims(config.maxItems, Put(old(CacheView()), key, audio), victims)
      ensures CacheView() == Evicted(config.maxItems, Put(old(CacheView()), key, audio), victims)
    {
      audioCache := audioCache[key := audio];
      audioIdToCacheKey := audioIdToCacheKey[audio.id := key];
      victims := EnforceCacheLimit();
    }

    /** Evicts an oldest entry, found by walking the table in an arbitrary order, until
        the cache is within its limit. */
    method EnforceCacheLimit() returns (ghost victims: seq<string>)
      modifies this`audioCache, this`audioIdToCacheKey
      ensures Victims(config.maxItems, old(CacheView()), victims)
      ensures CacheView() == Evicted(config.maxItems, old(CacheView()), victims)
    {
      hide Victims, Evicted, Continues;
      victims := [];
      LoopBegins(config.maxItems, CacheView());
      while |audioCache| > config.maxItems
        invariant Continues(config.maxItems, old(CacheView()), victims, CacheView())
        decreases |audioCache|
      {
        var oldest := FindOldest();
        LoopSteps(config.maxItems, old(CacheView()), victims, CacheView(), oldest);
        victims := victims + [oldest];
        audioIdToCacheKey := audioIdToCacheKey - {audioCache[oldest].id};
        ghost var before := audioCache.Keys;
        audioCache := audioCache - {oldest};
        assert audioCache.Keys == before - {oldest};
      }
      LoopEnds(config.maxItems, old(CacheView()), victims, CacheView());
    }

    method FindOldest() returns (oldest: string)
      requires |audioCache| > 0
      ensures IsOldest(CacheView(), oldest)
    {
      oldest :| oldest in audioCache;
      var left := audioCache.Keys;
      while left != {}
        invariant left <= audioCache.Keys && oldest in audioCache
        invariant forall k :: k in audioCache && k !in left ==> audioCache[oldest].createdAt <= audioCache[k].createdAt
        decreases |left|
      {
        var k :| k in left;
        left := left - {k};
        if audioCache[k].createdAt < audioCache[oldest].createdAt { oldest := k; }
      }
    }

    /** Sweeps expired entries and their ids, visiting the table in an arbitrary order. */
    method ClearExpiredCache(now: int)
      modifies this`audioCache, this`audioIdToCacheKey
      ensures CacheView() == WithoutExpired(old(CacheView()), now)
    {
      hide Swept, WithoutExpired;
      var left := audioCache.Keys;
      SweepBegins(CacheView(), now);
      while left != {}
        invariant left <= old(audioCache).Keys && Swept(old(CacheView()), left, now, CacheView())
        decreases |left|
      {
        var k :| k in left;
        SweepSteps(old(CacheView()), left, now, CacheView(), k);
        left := left - {k};
        if audioCache[k].expiresAt <= now {
          audioIdToCacheKey := audioIdToCacheKey - {audioCache[k].id};
          audioCache := audioCache - {k};
        }
      }
      SweepEnds(old(CacheView()), now, CacheView());
    }
  }
}
