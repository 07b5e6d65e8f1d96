/** What the audio cache and its index keep under every interleaving. */
module TtsCache {
  import opened Common
  import opened Text
  import opened TtsModel
  import Q = TaskQueue

  // ---------- audio ids ----------

  lemma DigitsHaveNoColon(s: string, i: nat)
    requires AllDigits(s) && i < |s|
    ensures s[i] != ':'
  {
  }

  /** The character at a position counted from the end of an audio id: a digit of the
      task number, or the colon in front of it. */
  lemma FromEnd(key: string, task: nat, n: nat)
    requires 1 <= n <= |Decimal(task)| + 1
    ensures n <= |AudioId(key, task)|
    ensures AudioId(key, task)[|AudioId(key, task)| - n] == ':' <==> n == |Decimal(task)| + 1
  {
    var d, s := Decimal(task), AudioId(key, task);
    if n <= |d| {
      assert s[|s| - n] == d[|d| - n];
      DigitsHaveNoColon(d, |d| - n);
    }
  }

  /** An audio id determines the cache key and the task it was built from. */
  lemma AudioIdInjective(k1: string, t1: nat, k2: string, t2: nat)
    requires AudioId(k1, t1) == AudioId(k2, t2)
    ensures k1 == k2 && t1 == t2
  {
    var d1, d2, s := Decimal(t1), Decimal(t2), AudioId(k1, t1);
    var n := 1 + if |d1| < |d2| then |d1| else |d2|;
    FromEnd(k1, t1, n);
    FromEnd(k2, t2, n);
    assert |d1| == |d2|;
    assert d1 == s[|s| - |d1|..] == d2;
    DecimalInjective(t1, t2);
    assert k1 == s[..|k1|] && |k1| == |k2|;
  }

  // ---------- the cache and its index ----------

  /** Each cached entry's id leads back to its own key. */
  ghost predicate EntriesLead(cache: Cache) {
    forall k :: k in cache.entries ==> cache.entries[k].id in cache.index && cache.index[cache.entries[k].id] == k
  }

  ghost predicate BuiltFrom(id: string, key: string) { exists t: nat :: id == AudioId(key, t) }

  /** Each index entry's id was built from the key it leads to. */
  ghost predicate IndexBuilt(cache: Cache) { forall a :: a in cache.index ==> BuiltFrom(a, cache.index[a]) }

  ghost predicate CacheOk(cache: Cache) { EntriesLead(cache) && IndexBuilt(cache) }

  lemma PutKeeps(cache: Cache, key: string, audio: Audio, task: nat)
    requires CacheOk(cache) && audio.id == AudioId(key, task)
    ensures CacheOk(Put(cache, key, audio))
  {
    var cache' := Put(cache, key, audio);
    forall k | k in cache'.entries
      ensures cache'.entries[k].id in cache'.index && cache'.index[cache'.entries[k].id] == k {
      if k != key {
        var t :| cache.entries[k].id == AudioId(k, t) by { assert BuiltFrom(cache.entries[k].id, k); }
        if cache.entries[k].id == audio.id { AudioIdInjective(k, t, key, task); }
      }
    }
    forall a | a in cache'.index ensures BuiltFrom(a, cache'.index[a]) {
      if a != audio.id { assert BuiltFrom(a, cache.index[a]); }
    }
  }

  lemma DropKeeps(cache: Cache, key: string)
    requires CacheOk(cache) && key in cache.entries
    ensures CacheOk(Drop(cache, key))
  {
    forall a | a in Drop(cache, key).index ensures BuiltFrom(a, Drop(cache, key).index[a]) {
      assert BuiltFrom(a, cache.index[a]);
    }
  }

  lemma ExpiryKeeps(cache: Cache, now: int)
    requires CacheOk(cache)
    ensures CacheOk(WithoutExpired(cache, now))
  {
    var cache' := WithoutExpired(cache, now);
    forall a | a in cache'.index ensures BuiltFrom(a, cache'.index[a]) { assert BuiltFrom(a, cache.index[a]); }
  }

  /** Part of a cache: no entry is new or changed. */
  predicate Within(part: Cache, whole: Cache) {
    && (forall k :: k in part.entries ==> k in whole.entries && part.entries[k] == whole.entries[k])
    && (forall a :: a in part.index ==> a in whole.index && part.index[a] == whole.index[a])
  }

  /** None of the victims is newer than any entry that is kept. */
  ghost predicate OldestGone(cache: Cache, kept: Cache, victims: seq<string>) {
    && (forall v :: v in victims ==> v in cache.entries)
    && forall v, k :: v in victims && k in kept.entries ==> cache.entries[v].createdAt <= kept.entries[k].createdAt
  }

  lemma DropFacts(cache: Cache, v: string)
    requires IsOldest(cache, v)
    ensures var less := Drop(cache, v);
      && Within(less, cache) && |less.entries| == |cache.entries| - 1
      && (forall k :: k in cache.entries <==> k == v || k in less.entries)
      && (forall k :: k in less.entries ==> cache.entries[v].createdAt <= less.entries[k].createdAt)
  {
    assert Drop(cache, v).entries.Keys == cache.entries.Keys - {v};
  }

  lemma {:induction false} EvictionKeeps(limit: nat, cache: Cache, victims: seq<string>)
    requires CacheOk(cache) && Victims(limit, cache, victims)
    ensures CacheOk(Evicted(limit, cache, victims))
    decreases |victims|
  {
    if |victims| != 0 {
      DropKeeps(cache, victims[0]);
      hide CacheOk, IsOldest;
      EvictionKeeps(limit, Drop(cache, victims[0]), victims[1..]);
    }
  }

  lemma {:induction false} EvictionSize(limit: nat, cache: Cache, victims: seq<string>)
    requires Victims(limit, cache, victims)
    ensures var kept := Evicted(limit, cache, victims);
      && |kept.entries| == (if |cache.entries| <= limit then |cache.entries| else limit)
      && |kept.entries| + |victims| == |cache.entries|
    decreases |victims|
  {
    if |victims| != 0 {
      DropFacts(cache, victims[0]);
      hide IsOldest, Drop;
      EvictionSize(limit, Drop(cache, victims[0]), victims[1..]);
    }
  }

  /** Every entry is kept or a victim. */
  ghost predicate Covered(cache: Cache, kept: Cache, victims: seq<string>) {
    forall k :: k in cache.entries ==> k in kept.entries || k in victims
  }

  lemma WithinTransitive(a: Cache, b: Cache, d: Cache)
    requires Within(a, b) && Within(b, d)
    ensures Within(a, d)
  {
  }

  lemma CoveredMore(cache: Cache, v: string, less: Cache, kept: Cache, later: seq<string>)
    requires Covered(less, kept, later) && forall k :: k in cache.entries <==> k == v || k in less.entries
    ensures Covered(cache, kept, [v] + later)
  {
    assert forall x :: x in [v] + later <==> x == v || x in later;
  }

  /** The first victim, and the rest of the course. */
  lemma FirstVictim(limit: nat, cache: Cache, victims: seq<string>)
    requires Victims(limit, cache, victims) && |victims| != 0
    ensures IsOldest(cache, victims[0]) && victims[0] in cache.entries
    ensures var less := Drop(cache, victims[0]);
      Victims(limit, less, victims[1..]) && Evicted(limit, cache, victims) == Evicted(limit, less, victims[1..])
    ensures victims == [victims[0]] + victims[1..]
  {
    OldestIsThere(cache, victims[0]);
    hide IsOldest, Drop;
  }

  lemma OldestIsThere(cache: Cache, v: string)
    ensures IsOldest(cache, v) ==> v in cache.entries
  {
  }

  lemma {:induction false} EvictionOnlyRemoves(limit: nat, cache: Cache, victims: seq<string>)
    requires Victims(limit, cache, victims)
    ensures Within(Evicted(limit, cache, victims), cache) && Covered(cache, Evicted(limit, cache, victims), victims)
    decreases |victims|
  {
    if |victims| != 0 {
      hide IsOldest, Drop, Victims, Evicted, Within, Covered;
      FirstVictim(limit, cache, victims);
      var v, later := victims[0], victims[1..];
      var less, kept := Drop(cache, v), Evicted(limit, cache, victims);
      DropFacts(cache, v);
      EvictionOnlyRemoves(limit, less, later);
      WithinTransitive(kept, less, cache);
      CoveredMore(cache, v, less, kept, later);
    }
  }

  lemma OldestGoneMore(cache: Cache, v: string, less: Cache, kept: Cache, later: seq<string>)
    requires Within(kept, less) && Within(less, cache) && OldestGone(less, kept, later) && v in cache.entries
    requires forall k :: k in less.entries ==> cache.entries[v].createdAt <= less.entries[k].createdAt
    ensures OldestGone(cache, kept, [v] + later)
  {
    assert forall x :: x in [v] + later <==> x == v || x in later;
  }

  /** Enforcing the limit removes entries and nothing else, and none that is newer than
      any it keeps. */
  lemma {:induction false} EvictionRemovesOldest(limit: nat, cache: Cache, victims: seq<string>)
    requires Victims(limit, cache, victims)
    ensures var kept := Evicted(limit, cache, victims);
      && Within(kept, cache) && OldestGone(cache, kept, victims) && Covered(cache, kept, victims)
    decreases |victims|
  {
    EvictionOnlyRemoves(limit, cache, victims);
    if |victims| != 0 {
      hide IsOldest, Drop, Victims, Evicted, Within, OldestGone, Covered;
      FirstVictim(limit, cache, victims);
      var v, later := victims[0], victims[1..];
      var less, kept := Drop(cache, v), Evicted(limit, cache, victims);
      DropFacts(cache, v);
      EvictionRemovesOldest(limit, less, later);
      OldestGoneMore(cache, v, less, kept, later);
    }
  }

  lemma PutSize(cache: Cache, key: string, audio: Audio)
    ensures |Put(cache, key, audio).entries| == |cache.entries| + if key in cache.entries then 0 else 1
  {
    var put := Put(cache, key, audio);
    assert put.entries.Keys == cache.entries.Keys + {key};
    assert key in cache.entries ==> put.entries.Keys == cache.entries.Keys;
  }

  /** Storing one entry in a cache within its limit evicts at most one. */
  lemma PutEvictsOne(limit: nat, cache: Cache, key: string, audio: Audio, victims: seq<string>)
    requires |cache.entries| <= limit && Victims(limit, Put(cache, key, audio), victims)
    ensures |victims| == if key !in cache.entries && |cache.entries| == limit then 1 else 0
  {
    PutSize(cache, key, audio);
    hide Victims, Evicted, Put;
    EvictionSize(limit, Put(cache, key, audio), victims);
  }

  // ---------- every run ----------

  /** A provider returned this audio for a request with this key. */
  ghost predicate Returned(c: Config, s: Sys, key: string, audio: Audio) {
    exists i :: 0 <= i < |s.returned| && s.returned[i].1 == audio && Key(c, s.returned[i].0) == key
  }

  ghost predicate EntriesReturned(c: Config, s: Sys) {
    forall k :: k in s.state.cache.entries ==>
      Returned(c, s, k, s.state.cache.entries[k]) && |s.state.cache.entries[k].bytes| != 0
  }

  ghost predicate TaskOk(c: Config, s: Sys, t: Task) {
    && t.key == Key(c, t.request)
    && (t.audio.Some? ==> Returned(c, s, t.key, t.audio.value) && |t.audio.value.bytes| != 0)
  }

  ghost predicate TasksOk(c: Config, s: Sys) { forall id :: id in s.state.tasks ==> TaskOk(c, s, s.state.tasks[id]) }

  ghost predicate Inv(c: Config, s: Sys) {
    && CacheOk(s.state.cache) && |s.state.cache.entries| <= c.maxItems
    && EntriesReturned(c, s) && TasksOk(c, s)
  }

  lemma StillReturned(c: Config, s: Sys, s': Sys, key: string, audio: Audio)
    requires Returned(c, s, key, audio) && s.returned <= s'.returned
    ensures Returned(c, s', key, audio)
  {
    var i :| 0 <= i < |s.returned| && s.returned[i].1 == audio && Key(c, s.returned[i].0) == key;
    assert s'.returned[i] == s.returned[i];
  }

  lemma TaskStaysOk(c: Config, s: Sys, s': Sys, t: Task, t': Task)
    requires TaskOk(c, s, t) && s.returned <= s'.returned
    requires t'.key == t.key && t'.request == t.request && t'.audio == t.audio
    ensures TaskOk(c, s', t')
  {
    if t.audio.Some? { StillReturned(c, s, s', t.key, t.audio.value); }
  }

  /** A step that changes at most one task, which is in order, and not the cache. */
  lemma OneTaskKeeps(c: Config, s: Sys, s': Sys, id: nat, t: Task)
    requires Inv(c, s) && s'.returned == s.returned && s'.state.cache == s.state.cache
    requires s'.state.tasks == s.state.tasks || s'.state.tasks == s.state.tasks[id := t]
    requires TaskOk(c, s, t) || s'.state.tasks == s.state.tasks
    ensures Inv(c, s')
  {
    forall k | k in s'.state.cache.entries ensures Returned(c, s', k, s'.state.cache.entries[k]) {
      StillReturned(c, s, s', k, s.state.cache.entries[k]);
    }
    forall i | i in s'.state.tasks ensures TaskOk(c, s', s'.state.tasks[i]) {
      TaskStaysOk(c, s, s', s'.state.tasks[i], s'.state.tasks[i]);
    }
  }

  /** The task a request becomes. */
  function AskedTask(c: Config, s: State, r: Request, now: int): Task {
    var cached := if r.cacheEnabled then FindCached(s.cache, Key(c, r), now) else None;
    Task(if cached.Some? then Q.AnsweredTask(now) else Q.NewTask(now), r, Key(c, r), "", cached)
  }

  lemma AskedTaskOk(c: Config, s: Sys, r: Request, now: int)
    requires EntriesReturned(c, s)
    ensures TaskOk(c, s, AskedTask(c, s.state, r, now))
  {
    hide Returned, Key;
  }

  lemma AskEffect(c: Config, s: Sys, e: Event)
    requires Enabled(c, s, e) && e.Ask?
    ensures var s' := Next(c, s, e); var st := s.state;
      && s'.returned == s.returned && s'.state.cache == st.cache
      && (s'.state.tasks == st.tasks || s'.state.tasks == st.tasks[st.nextTaskId := AskedTask(c, st, e.request, e.now)])
  {
    hide Key, FindCached, HasRoom;
  }

  lemma AskKeeps(c: Config, s: Sys, e: Event)
    requires Inv(c, s) && Enabled(c, s, e) && e.Ask?
    ensures Inv(c, Next(c, s, e))
  {
    AskEffect(c, s, e);
    AskedTaskOk(c, s, e.request, e.now);
    hide Inv, TaskOk, Next, Enabled, AskedTask;
    OneTaskKeeps(c, s, Next(c, s, e), s.state.nextTaskId, AskedTask(c, s.state, e.request, e.now));
  }

  lemma ReworkKeeps(c: Config, s: Sys, e: Event)
    requires Inv(c, s) && Enabled(c, s, e) && (e.Cancel? || e.Take?)
    ensures Inv(c, Next(c, s, e))
  {
    hide Returned;
    var s' := Next(c, s, e);
    if e.id in s.state.tasks {
      var t := s'.state.tasks[e.id];
      TaskStaysOk(c, s, s, s.state.tasks[e.id], t);
      OneTaskKeeps(c, s, s', e.id, t);
    } else {
      assert s'.state == s.state;
      var none := Request("", Voice("", "", "", "", ""), Wav, false);
      OneTaskKeeps(c, s, s', e.id, Task(Q.NewTask(0), none, "", "", None));
    }
  }

  lemma ExpireKeeps(c: Config, s: Sys, e: Event)
    requires Inv(c, s) && Enabled(c, s, e) && e.ClearExpired?
    ensures Inv(c, Next(c, s, e))
  {
    var s' := Next(c, s, e);
    ExpiryKeeps(s.state.cache, e.now);
    SubsetSize(s'.state.cache.entries.Keys, s.state.cache.entries.Keys);
    forall k | k in s'.state.cache.entries ensures Returned(c, s', k, s'.state.cache.entries[k]) {
      StillReturned(c, s, s', k, s.state.cache.entries[k]);
    }
    forall i | i in s'.state.tasks ensures TaskOk(c, s', s'.state.tasks[i]) {
      TaskStaysOk(c, s, s', s'.state.tasks[i], s'.state.tasks[i]);
    }
  }

  /** The cache after an attempt: what was stored before, and perhaps the new audio. */
  lemma FinishCache(c: Config, s: State, e: Event)
    requires e.Finish? && e.id in s.tasks && FinishVictims(c, s, e.id, e.response, e.elapsed, e.now, e.victims)
    requires CacheOk(s.cache) && |s.cache.entries| <= c.maxItems
    ensures var t := s.tasks[e.id]; var audio := AudioOf(c, e.id, t, e.response, e.now);
      var cache := FinishTask(c, s, e.id, e.response, e.elapsed, e.now, e.victims).cache;
      && CacheOk(cache) && |cache.entries| <= c.maxItems
      && forall k :: k in cache.entries ==>
           || (k in s.cache.entries && cache.entries[k] == s.cache.entries[k])
           || (Speaks(c, e.response, e.elapsed) && k == t.key && cache.entries[k] == audio)
  {
    var t := s.tasks[e.id];
    if Speaks(c, e.response, e.elapsed) && t.request.cacheEnabled {
      var audio := AudioOf(c, e.id, t, e.response, e.now);
      var put := Put(s.cache, t.key, audio);
      PutKeeps(s.cache, t.key, audio, e.id);
      hide CacheOk, Victims, Evicted, AudioOf;
      EvictionKeeps(c.maxItems, put, e.victims);
      EvictionSize(c.maxItems, put, e.victims);
      EvictionRemovesOldest(c.maxItems, put, e.victims);
    }
  }

  /** The attempt's effect on tasks and record, without the cache. */
  lemma FinishTasks(c: Config, s: Sys, e: Event)
    requires TasksOk(c, s) && Enabled(c, s, e) && e.Finish?
    ensures var s' := Next(c, s, e); TasksOk(c, s') && s.returned <= s'.returned
    ensures var s' := Next(c, s, e); var t := s.state.tasks[e.id];
      Speaks(c, e.response, e.elapsed) ==> Returned(c, s', t.key, AudioOf(c, e.id, t, e.response, e.now))
  {
    var s' := Next(c, s, e);
    var t := s.state.tasks[e.id];
    hide FinishVictims, Victims, Evicted, CachePut;
    assert TaskOk(c, s, t);
    if Speaks(c, e.response, e.elapsed) {
      var n := |s.returned|;
      assert s'.returned[n] == (t.request, AudioOf(c, e.id, t, e.response, e.now));
    }
    hide Returned;
    forall i | i in s'.state.tasks ensures TaskOk(c, s', s'.state.tasks[i]) {
      if i != e.id || !Speaks(c, e.response, e.elapsed) { TaskStaysOk(c, s, s', s.state.tasks[i], s'.state.tasks[i]); }
    }
  }

  /** Entries that were there, and audio a provider just returned. */
  lemma EntriesStayReturned(c: Config, s: Sys, s': Sys, key: string, audio: Audio, isNew: bool)
    requires EntriesReturned(c, s) && s.returned <= s'.returned
    requires isNew ==> Returned(c, s', key, audio) && |audio.bytes| != 0
    requires forall k :: k in s'.state.cache.entries ==>
      || (k in s.state.cache.entries && s'.state.cache.entries[k] == s.state.cache.entries[k])
      || (isNew && k == key && s'.state.cache.entries[k] == audio)
    ensures EntriesReturned(c, s')
  {
    hide Returned;
    forall k | k in s'.state.cache.entries
      ensures Returned(c, s', k, s'.state.cache.entries[k]) && |s'.state.cache.entries[k].bytes| != 0
    {
      if k in s.state.cache.entries && s'.state.cache.entries[k] == s.state.cache.entries[k] {
        StillReturned(c, s, s', k, s.state.cache.entries[k]);
      }
    }
  }

  lemma FinishKeeps(c: Config, s: Sys, e: Event)
    requires Inv(c, s) && Enabled(c, s, e) && e.Finish?
    ensures Inv(c, Next(c, s, e))
  {
    var s' := Next(c, s, e);
    var t := s.state.tasks[e.id];
    FinishTasks(c, s, e);
    FinishCache(c, s.state, e);
    assert s'.state.cache == FinishTask(c, s.state, e.id, e.response, e.elapsed, e.now, e.victims).cache;
    hide CacheOk, FinishTask, Next, Enabled, TasksOk, Returned, EntriesReturned;
    EntriesStayReturned(c, s, s', t.key, AudioOf(c, e.id, t, e.response, e.now), Speaks(c, e.response, e.elapsed));
  }

  lemma StepKeeps(c: Config, s: Sys, e: Event)
    requires Inv(c, s) && Enabled(c, s, e)
    ensures Inv(c, Next(c, s, e))
  {
    hide Inv, Enabled, Next;
    match e
    case Ask(_, _) => AskKeeps(c, s, e);
    case Finish(_, _, _, _, _) => FinishKeeps(c, s, e);
    case ClearExpired(_) => ExpireKeeps(c, s, e);
    case _ => ReworkKeeps(c, s, e);
  }

  /** In every reachable state: each cached entry's id leads back to its key, each
      indexed id was built from the key it leads to, the cache is within its limit, and
      every cached entry was returned by a provider for a request with that key. */
  lemma {:induction false} EveryRun(c: Config, s: Sys, es: seq<Event>, threads: nat)
    requires Inv(c, s) && Legal(c, s, es, threads)
    ensures Inv(c, After(c, s, es, threads))
    decreases |es|
  {
    hide Inv, Enabled, Next;
    if |es| != 0 {
      StepKeeps(c, s, es[0]);
      EveryRun(c, Next(c, s, es[0]), es[1..], threads);
    }
  }

  lemma InitialIsFine(c: Config, clock: int)
    ensures Inv(c, Initial(clock))
  {
  }

  // ---------- what clients are served ----------

  /** From the start: a request answered from the cache gets audio that has not expired
      and that a provider returned for a request with the same key. */
  lemma HitIsSound(c: Config, clock: int, es: seq<Event>, threads: nat, r: Request, now: int)
    requires Legal(c, Initial(clock), es, threads)
    requires Submit(c, After(c, Initial(clock), es, threads).state, r, now).1.Hit?
    ensures var s := After(c, Initial(clock), es, threads); var (s', result) := Submit(c, s.state, r, now);
      && r.cacheEnabled
      && result.id in s'.tasks && s'.tasks[result.id].audio.Some?
      && var audio := s'.tasks[result.id].audio.value;
      audio.expiresAt > now && |audio.bytes| != 0 && Returned(c, s, Key(c, r), audio)
  {
    InitialIsFine(c, clock);
    EveryRun(c, Initial(clock), es, threads);
    hide After, Legal;
    var s := After(c, Initial(clock), es, threads);
    assert Returned(c, s, Key(c, r), s.state.cache.entries[Key(c, r)]);
  }

  /** From the start: an audio id never leads to audio of another key. What is found is
      unexpired, was made by a provider for that key, and carries an id of that key;
      it is newer than the id asked for when the entry was overwritten since. */
  lemma FindAudioStaysInKey(c: Config, clock: int, es: seq<Event>, threads: nat, key: string, task: nat, now: int)
    requires Legal(c, Initial(clock), es, threads)
    ensures var s := After(c, Initial(clock), es, threads);
        var found := FindAudio(s.state.cache, AudioId(key, task), now);
      found.Some? ==> Returned(c, s, key, found.value) && found.value.expiresAt > now && BuiltFrom(found.value.id, key)
  {
    InitialIsFine(c, clock);
    EveryRun(c, Initial(clock), es, threads);
    hide After, Legal;
    var s := After(c, Initial(clock), es, threads);
    var cache := s.state.cache;
    if FindAudio(cache, AudioId(key, task), now).Some? {
      var k := cache.index[AudioId(key, task)];
      assert BuiltFrom(AudioId(key, task), k);
      var t: nat :| AudioId(key, task) == AudioId(k, t);
      AudioIdInjective(key, task, k, t);
      assert BuiltFrom(cache.entries[k].id, k);
    }
  }

  /** The index is not a bijection: when an entry is overwritten, its old id stays and
      leads to the new audio. */
  lemma OverwritingLeavesOldId(cache: Cache, key: string, audio: Audio, task: nat)
    requires CacheOk(cache) && key in cache.entries &&
      audio.id == AudioId(key, task) && cache.entries[key].id != audio.id
    ensures var cache' := Put(cache, key, audio); var old_id := cache.entries[key].id;
      && old_id in cache'.index && cache'.index[old_id] == key && cache'.entries[key].id != old_id
      && forall now | now < audio.expiresAt :: FindAudio(cache', old_id, now) == Some(audio)
  {
  }

  /** Every indexed id is that of the entry it leads to. */
  ghost predicate IsBijection(cache: Cache) {
    forall a :: a in cache.index ==> cache.index[a] in cache.entries && cache.entries[cache.index[a]].id == a
  }

  /** Storing breaks the bijection if and only if it overwrites an entry under another
      id; dropping an entry never does. */
  lemma BijectionIff(cache: Cache, key: string, audio: Audio, task: nat)
    requires CacheOk(cache) && IsBijection(cache) && audio.id == AudioId(key, task)
    ensures IsBijection(Put(cache, key, audio)) <==> key !in cache.entries || cache.entries[key].id == audio.id
    ensures key in cache.entries ==> IsBijection(Drop(cache, key))
  {
    var cache' := Put(cache, key, audio);
    if key in cache.entries && cache.entries[key].id != audio.id {
      OverwritingLeavesOldId(cache, key, audio, task);
      assert cache.entries[key].id in cache'.index;
    }
  }

  /** The id of an entry finds exactly that entry, until it expires. */
  lemma FindAudioFindsEntries(cache: Cache, key: string, now: int)
    requires CacheOk(cache) && key in cache.entries
    ensures FindAudio(cache, cache.entries[key].id, now) ==
      if cache.entries[key].expiresAt > now then Some(cache.entries[key]) else None
  {
  }

  /** Right after clearing, what is not expired is found as before. */
  lemma ClearingKeepsUnexpired(cache: Cache, key: string, clearedAt: int, now: int)
    requires clearedAt <= now
    ensures FindCached(WithoutExpired(cache, clearedAt), key, now) == FindCached(cache, key, now)
  {
  }
}
