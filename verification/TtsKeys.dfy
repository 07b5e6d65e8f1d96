/** When equal cache keys mean equal requests. */
module TtsKeys {
  import opened Common
  import opened Text
  import opened TtsModel
  import opened TtsCache
  import Q = TaskQueue

  /** Keys are equal if and only if what is hashed has equal hashes. */
  lemma KeyIff(c: Config, a: Request, b: Request)
    ensures Key(c, a) == Key(c, b) <==> c.hash(Spelled(a)) == c.hash(Spelled(b))
  {
    hide Spelled;
    var x, y := Decimal(c.hash(Spelled(a))), Decimal(c.hash(Spelled(b)));
    if Key(c, a) == Key(c, b) {
      assert ("tts:" + x)[4..] == x && ("tts:" + y)[4..] == y;
      DecimalInjective(c.hash(Spelled(a)), c.hash(Spelled(b)));
    }
  }

  // ---------- two joined strings ----------

  /** The separator after `x` stands further to the right than that after `p`, with `m`
      between them. */
  predicate Shifted(x: string, y: string, p: string, q: string, m: string) {
    x == Joined(p, m) && q == Joined(m, y)
  }

  /** Both pairs are the same, or one separator stands further to the right. */
  ghost predicate Alike(x: string, y: string, p: string, q: string) {
    (x == p && y == q) || (exists m :: Shifted(x, y, p, q, m)) || exists m :: Shifted(p, q, x, y, m)
  }

  lemma FindShift(x: string, y: string, p: string, q: string) returns (m: string)
    requires Joined(x, y) == Joined(p, q) && |x| > |p|
    ensures Shifted(x, y, p, q, m)
  {
    var s, n := Joined(x, y), |p|;
    assert s[..n] == p == x[..n] && s[n] == '|' == x[n];
    m := x[n + 1..];
    assert x == x[..n] + [x[n]] + m;
    assert s[n + 1..] == q && s[n + 1..] == Joined(m, y);
  }

  lemma JoinedIsAssociative(x: string, y: string, z: string)
    ensures Joined(Joined(x, y), z) == Joined(x, Joined(y, z))
  {
  }

  lemma JoinedSameLength(x: string, y: string, p: string, q: string)
    requires Joined(x, y) == Joined(p, q) && |x| == |p|
    ensures x == p && y == q
  {
    var n := |x|;
    assert Joined(x, y)[..n] == x && Joined(p, q)[..n] == p;
    assert Joined(x, y)[n + 1..] == y && Joined(p, q)[n + 1..] == q;
  }

  lemma JoinedIff(x: string, y: string, p: string, q: string)
    ensures Joined(x, y) == Joined(p, q) <==> Alike(x, y, p, q)
  {
    if Joined(x, y) == Joined(p, q) {
      if |x| == |p| {
        JoinedSameLength(x, y, p, q);
      } else if |x| > |p| {
        var m := FindShift(x, y, p, q);
      } else {
        var m := FindShift(p, q, x, y);
      }
    }
    forall m | Shifted(x, y, p, q, m) ensures Joined(x, y) == Joined(p, q) { JoinedIsAssociative(p, m, y); }
    forall m | Shifted(p, q, x, y, m) ensures Joined(x, y) == Joined(p, q) { JoinedIsAssociative(x, m, q); }
  }

  // ---------- counting separators ----------

  function Bars(s: string): nat { if |s| == 0 then 0 else (if s[0] == '|' then 1 else 0) + Bars(s[1..]) }

  lemma {:induction false} BarsAdd(s: string, t: string)
    ensures Bars(s + t) == Bars(s) + Bars(t)
  {
    if |s| == 0 {
      assert s + t == t;
    } else {
      assert (s + t)[0] == s[0] && (s + t)[1..] == s[1..] + t;
      BarsAdd(s[1..], t);
    }
  }

  lemma BarsJoined(x: string, y: string)
    ensures Bars(Joined(x, y)) == Bars(x) + 1 + Bars(y)
  {
    assert "|"[1..] == "" && Bars("|") == 1;
    BarsAdd(x, "|");
    BarsAdd(x + "|", y);
  }

  lemma {:induction false} NoBars(s: string)
    ensures Bars(s) == 0 <==> '|' !in s
  {
    if |s| != 0 {
      NoBars(s[1..]);
      assert s == [s[0]] + s[1..];
    }
  }

  /** When the second parts have equally many separators, the joined string determines
      both parts. */
  lemma SplitsAlike(x: string, y: string, p: string, q: string)
    requires Joined(x, y) == Joined(p, q) && Bars(y) == Bars(q)
    ensures x == p && y == q
  {
    JoinedIff(x, y, p, q);
    forall m ensures !Shifted(x, y, p, q, m) && !Shifted(p, q, x, y, m) {
      BarsJoined(m, y);
      BarsJoined(m, q);
    }
  }

  // ---------- requests ----------

  function Names(r: Request): string { Joined(Joined(r.text, r.voice.id), r.voice.language) }

  /** The same format, and the same numbers as printed. */
  predicate SameNumbers(a: Request, b: Request) {
    && a.voice.speed == b.voice.speed && a.voice.pitch == b.voice.pitch && a.voice.volume == b.voice.volume
    && a.format == b.format
  }

  predicate SameSpeech(a: Request, b: Request) { a.text == b.text && a.voice == b.voice && a.format == b.format }

  /** Numbers and formats have no separators, so they can be read back from the end. */
  lemma NumbersReadBack(a: Request, b: Request)
    ensures Spelled(a) == Spelled(b) <==> SameNumbers(a, b) && Names(a) == Names(b)
  {
    if Spelled(a) == Spelled(b) {
      var v, w := a.voice, b.voice;
      NoBars(FormatName(a.format));
      NoBars(FormatName(b.format));
      NoBars(v.volume);
      NoBars(w.volume);
      NoBars(v.pitch);
      NoBars(w.pitch);
      NoBars(v.speed);
      NoBars(w.speed);
      hide Joined, Bars;
      var x, y := Joined(Joined(Names(a), v.speed), v.pitch), Joined(Joined(Names(b), w.speed), w.pitch);
      SplitsAlike(Joined(x, v.volume), FormatName(a.format), Joined(y, w.volume), FormatName(b.format));
      SplitsAlike(x, v.volume, y, w.volume);
      SplitsAlike(Joined(Names(a), v.speed), v.pitch, Joined(Names(b), w.speed), w.pitch);
      SplitsAlike(Names(a), v.speed, Names(b), w.speed);
    }
  }

  /** The text of `a` contains the text of `b`, a separator and `m`; then `m` and `a`'s
      two settings together are `b`'s two settings, the separator in them at any place. */
  ghost predicate TextShifted(a: Request, b: Request, m: string) {
    a.text == Joined(b.text, m)
    && Alike(Joined(m, a.voice.id), a.voice.language, b.voice.id, b.voice.language)
  }

  /** Two requests are spelled alike if and only if numbers and format are the same, and
      either the texts are the same and the two settings, or the separator between these
      is shifted, or the separator after the text is shifted. */
  lemma SpelledAlikeIff(a: Request, b: Request)
    ensures Spelled(a) == Spelled(b) <==>
      && SameNumbers(a, b)
      && (|| (a.text == b.text && Alike(a.voice.id, a.voice.language, b.voice.id, b.voice.language))
          || (exists m :: TextShifted(a, b, m))
          || (exists m :: TextShifted(b, a, m)))
  {
    NumbersReadBack(a, b);
    var v, w := Joined(a.voice.id, a.voice.language), Joined(b.voice.id, b.voice.language);
    JoinedIsAssociative(a.text, a.voice.id, a.voice.language);
    JoinedIsAssociative(b.text, b.voice.id, b.voice.language);
    JoinedIff(a.text, v, b.text, w);
    JoinedIff(a.voice.id, a.voice.language, b.voice.id, b.voice.language);
    forall m ensures Shifted(a.text, v, b.text, w, m) <==> TextShifted(a, b, m) { OuterShift(a, b, m); }
    forall m ensures Shifted(b.text, w, a.text, v, m) <==> TextShifted(b, a, m) { OuterShift(b, a, m); }
    hide Joined, Alike, Shifted, TextShifted, Spelled;
  }

  lemma OuterShift(a: Request, b: Request, m: string)
    ensures Shifted(a.text, Joined(a.voice.id, a.voice.language), b.text, Joined(b.voice.id, b.voice.language), m) <==>
      TextShifted(a, b, m)
  {
    JoinedIsAssociative(m, a.voice.id, a.voice.language);
    JoinedIff(Joined(m, a.voice.id), a.voice.language, b.voice.id, b.voice.language);
    hide Joined, Alike;
  }

  /** Voice ids and languages with equally many separators, as when they have none, leave
      no ambiguity. */
  lemma SpellingIsFaithful(a: Request, b: Request)
    requires Bars(a.voice.id) == Bars(b.voice.id) && Bars(a.voice.language) == Bars(b.voice.language)
    requires Spelled(a) == Spelled(b)
    ensures SameSpeech(a, b)
  {
    NumbersReadBack(a, b);
    hide Joined, Bars, Spelled;
    SplitsAlike(Joined(a.text, a.voice.id), a.voice.language, Joined(b.text, b.voice.id), b.voice.language);
    SplitsAlike(a.text, a.voice.id, b.text, b.voice.id);
  }

  /** Whatever the hash: different texts with one key. */
  lemma SeparatorsCollide(c: Config, r: Request, m: string)
    ensures var a, b := r.(text := Joined(r.text, m)), r.(voice := r.voice.(id := Joined(m, r.voice.id)));
      Key(c, a) == Key(c, b) && a.text != b.text
  {
    JoinedIsAssociative(r.text, m, r.voice.id);
  }

  /** Whatever the hash: the same text in different voices, with one key. */
  lemma VoicesCollide(c: Config, r: Request, m: string)
    ensures var a := r.(voice := r.voice.(id := Joined(r.voice.id, m)));
      var b := r.(voice := r.voice.(language := Joined(m, r.voice.language)));
      Key(c, a) == Key(c, b) && a.voice.id != b.voice.id
  {
    JoinedIsAssociative(Joined(r.text, r.voice.id), m, r.voice.language);
    JoinedIsAssociative(r.text, r.voice.id, m);
  }

  // ---------- which requests can be mistaken ----------

  function AllBars(r: Request): nat { Bars(r.text) + Bars(r.voice.id) + Bars(r.voice.language) }

  predicate Accepted(c: Config, r: Request) { 0 < |r.text| <= c.maxTextLength }

  /** An acceptable request for other speech, with the same key whatever the hash. */
  predicate IsTwin(c: Config, a: Request, b: Request) {
    Accepted(c, b) && !SameSpeech(a, b) && Spelled(a) == Spelled(b)
  }

  lemma BarAt(s: string) returns (i: nat)
    requires '|' in s
    ensures i < |s| && s == Joined(s[..i], s[i + 1..])
  {
    i :| i < |s| && s[i] == '|';
    assert s == s[..i] + [s[i]] + s[i + 1..];
  }

  lemma AllBarsAlike(a: Request, b: Request)
    requires Names(a) == Names(b)
    ensures AllBars(a) == AllBars(b)
  {
    hide Joined, Bars;
    BarsJoined(a.text, a.voice.id);
    BarsJoined(b.text, b.voice.id);
    BarsJoined(Joined(a.text, a.voice.id), a.voice.language);
    BarsJoined(Joined(b.text, b.voice.id), b.voice.language);
  }

  /** A twin of a request needs a separator to shift, and a text that starts with one has
      to keep it. */
  lemma TwinNeedsBars(c: Config, a: Request, b: Request)
    requires Accepted(c, a) && IsTwin(c, a, b)
    ensures AllBars(a) >= if a.text[0] == '|' then 2 else 1
  {
    NumbersReadBack(a, b);
    AllBarsAlike(a, b);
    assert Names(a)[0] == a.text[0] && Names(b)[0] == b.text[0];
    hide Spelled, Names;
    if Bars(a.voice.id) == Bars(b.voice.id) && Bars(a.voice.language) == Bars(b.voice.language) {
      SpellingIsFaithful(a, b);
    }
  }

  lemma TwinFromId(c: Config, a: Request) returns (b: Request)
    requires Accepted(c, a) && '|' in a.voice.id
    ensures IsTwin(c, a, b)
  {
    var id := a.voice.id;
    var i := BarAt(id);
    b := a.(voice := a.voice.(id := id[..i], language := Joined(id[i + 1..], a.voice.language)));
    JoinedIsAssociative(a.text, id[..i], id[i + 1..]);
    JoinedIsAssociative(Joined(a.text, id[..i]), id[i + 1..], a.voice.language);
    hide Joined;
  }

  lemma TwinFromLanguage(c: Config, a: Request) returns (b: Request)
    requires Accepted(c, a) && '|' in a.voice.language
    ensures IsTwin(c, a, b)
  {
    var l := a.voice.language;
    var i := BarAt(l);
    b := a.(voice := a.voice.(id := Joined(a.voice.id, l[..i]), language := l[i + 1..]));
    JoinedIsAssociative(a.text, a.voice.id, l[..i]);
    JoinedIsAssociative(Joined(a.text, a.voice.id), l[..i], l[i + 1..]);
    hide Joined;
  }

  lemma TwinFromText(c: Config, a: Request) returns (b: Request)
    requires Accepted(c, a) && '|' in a.text[1..]
    ensures IsTwin(c, a, b)
  {
    var i := BarAt(a.text[1..]);
    var p, q := a.text[..i + 1], a.text[i + 2..];
    assert a.text == [a.text[0]] + a.text[1..] && a.text == Joined(p, q);
    b := a.(text := p, voice := a.voice.(id := Joined(q, a.voice.id)));
    JoinedIsAssociative(p, q, a.voice.id);
    hide Joined;
  }

  /** Exactly which requests can be mistaken for others, whatever the hash: those with a
      separator in the text, the voice id or the language, and with two of them if the
      text starts with one. */
  lemma TwinIff(c: Config, a: Request)
    requires Accepted(c, a)
    ensures (exists b :: IsTwin(c, a, b)) <==> AllBars(a) >= if a.text[0] == '|' then 2 else 1
  {
    forall b | IsTwin(c, a, b) ensures AllBars(a) >= if a.text[0] == '|' then 2 else 1 { TwinNeedsBars(c, a, b); }
    NoBars(a.voice.id);
    NoBars(a.voice.language);
    NoBars(a.text[1..]);
    assert Bars(a.text) == (if a.text[0] == '|' then 1 else 0) + Bars(a.text[1..]);
    hide IsTwin, Bars;
    if '|' in a.voice.id {
      var b := TwinFromId(c, a);
    } else if '|' in a.voice.language {
      var b := TwinFromLanguage(c, a);
    } else if '|' in a.text[1..] {
      var b := TwinFromText(c, a);
    }
  }

  // ---------- what clients are served ----------

  /** A provider was asked for the same speech and returned this audio. */
  ghost predicate ReturnedFor(s: Sys, r: Request, audio: Audio) {
    exists i :: 0 <= i < |s.returned| && s.returned[i].1 == audio && SameSpeech(s.returned[i].0, r)
  }

  /** No request answered so far collides with this one in the hash, and this one has no
      separators, or voice ids and languages have equally many. */
  ghost predicate KeysTellApart(c: Config, s: Sys, r: Request) {
    forall i :: 0 <= i < |s.returned| ==>
      var q := s.returned[i].0;
      && (c.hash(Spelled(q)) == c.hash(Spelled(r)) ==> Spelled(q) == Spelled(r))
      && (AllBars(r) == 0 ||
          (Bars(q.voice.id) == Bars(r.voice.id) && Bars(q.voice.language) == Bars(r.voice.language)))
  }

  lemma NoBarsNoDoubt(a: Request, b: Request)
    requires Spelled(a) == Spelled(b) && AllBars(b) == 0
    ensures SameSpeech(a, b)
  {
    NumbersReadBack(a, b);
    AllBarsAlike(a, b);
    hide Spelled, Names, Bars;
    SpellingIsFaithful(a, b);
  }

  /** From the start: then a hit is audio of the speech asked for. */
  lemma HitIsForSameSpeech(c: Config, clock: int, es: seq<Event>, threads: nat, r: Request, now: int)
    requires Legal(c, Initial(clock), es, threads)
    requires Submit(c, After(c, Initial(clock), es, threads).state, r, now).1.Hit?
    requires KeysTellApart(c, After(c, Initial(clock), es, threads), r)
    ensures var s := After(c, Initial(clock), es, threads); var (s', result) := Submit(c, s.state, r, now);
      && result.id in s'.tasks && s'.tasks[result.id].audio.Some?
      && ReturnedFor(s, r, s'.tasks[result.id].audio.value)
  {
    HitIsSound(c, clock, es, threads, r, now);
    var s := After(c, Initial(clock), es, threads);
    hide After, Legal, Key, Spelled;
    var (s', result) := Submit(c, s.state, r, now);
    var audio := s'.tasks[result.id].audio.value;
    hide Submit;
    var i :| 0 <= i < |s.returned| && s.returned[i].1 == audio && Key(c, s.returned[i].0) == Key(c, r);
    KeyIff(c, s.returned[i].0, r);
    hide SameSpeech, AllBars, Bars;
    if AllBars(r) == 0 { NoBarsNoDoubt(s.returned[i].0, r); } else { SpellingIsFaithful(s.returned[i].0, r); }
  }

  /** After this run the second request is answered with audio that was made for the
      first, and no other was ever made. */
  ghost predicate ServesOther(c: Config, es: seq<Event>, a: Request, b: Request) {
    && Legal(c, Initial(0), es, 1)
    && var s := After(c, Initial(0), es, 1);
    var (s', result) := Submit(c, s.state, b, 0);
    && result.Hit? && result.id in s'.tasks && s'.tasks[result.id].audio.Some?
    && s.returned == [(a, s'.tasks[result.id].audio.value)]
  }

  function WaitingTask(c: Config, r: Request): Task { Task(Q.NewTask(0), r, Key(c, r), "", None) }

  function FirstTask(c: Config, a: Request, core: Q.Core, inflight: multiset<nat>, calls: nat): Sys {
    Sys(State(2, map[1 := WaitingTask(c, a).(core := core)], EMPTY), inflight, calls, 0, [])
  }

  lemma FirstAsked(c: Config, a: Request)
    requires Accepted(c, a) && c.queue.capacity > 0
    ensures Enabled(c, Initial(0), Ask(a, 0))
    ensures Next(c, Initial(0), Ask(a, 0)) == FirstTask(c, a, Q.NewTask(0), multiset{}, 0)
  {
    assert Q.ActiveIds(Cores(map[])) == {};
    hide Key;
  }

  lemma FirstTaken(c: Config, a: Request)
    ensures var s := FirstTask(c, a, Q.NewTask(0), multiset{}, 0);
      && Enabled(c, s, Take(1, 0))
      && Next(c, s, Take(1, 0)) == FirstTask(c, a, Q.Started(Q.NewTask(0), 0), multiset{1}, 1)
  {
    var s := FirstTask(c, a, Q.NewTask(0), multiset{}, 0);
    assert Cores(s.state.tasks) == map[1 := Q.NewTask(0)];
    hide Key;
  }

  lemma FirstAnswered(c: Config, a: Request, r: Response)
    requires a.cacheEnabled && c.maxItems > 0 && Speaks(c, r, 0)
    ensures var s := FirstTask(c, a, Q.Started(Q.NewTask(0), 0), multiset{1}, 1); var e := Finish(1, r, 0, 0, []);
      && Enabled(c, s, e)
      && var s' := Next(c, s, e); var audio := AudioOf(c, 1, WaitingTask(c, a), r, 0);
      && s'.inflight == multiset{} && s'.returned == [(a, audio)] && s'.state.nextTaskId == 2
      && s'.state.cache == Put(EMPTY, Key(c, a), audio)
      && Cores(s'.state.tasks).Keys == {1} && Cores(s'.state.tasks)[1].status == Q.Succeeded
  {
    hide Key;
    var s := FirstTask(c, a, Q.Started(Q.NewTask(0), 0), multiset{1}, 1);
    var put := Put(EMPTY, Key(c, a), AudioOf(c, 1, s.state.tasks[1], r, 0));
    assert put.entries.Keys == {Key(c, a)};
    assert Victims(c.maxItems, put, []);
  }

  lemma SecondHits(c: Config, s: State, b: Request, audio: Audio)
    requires Accepted(c, b) && b.cacheEnabled && c.queue.capacity > 0 && audio.expiresAt > 0
    requires s.cache == Put(EMPTY, Key(c, b), audio)
    requires Cores(s.tasks).Keys == {1} && Cores(s.tasks)[1].status == Q.Succeeded
    ensures var (s', result) := Submit(c, s, b, 0);
      result.Hit? && result.id in s'.tasks && s'.tasks[result.id].audio == Some(audio)
  {
    assert Q.ActiveIds(Cores(s.tasks)) == {};
    hide Key;
  }

  /** Whatever the hash, wherever caching is possible at all: there is a run after which
      a request is served speech made for another one with the same key. */
  lemma TwinIsServed(c: Config, a: Request, b: Request)
    requires Accepted(c, a) && Accepted(c, b) && a.cacheEnabled && b.cacheEnabled && Key(c, a) == Key(c, b)
    requires c.queue.capacity > 0 && c.queue.timeout >= 0 && c.maxItems > 0 && c.ttl > 0
    ensures exists es :: ServesOther(c, es, a, b)
  {
    var r := Response(true, [0], "");
    var es := [Ask(a, 0), Take(1, 0), Finish(1, r, 0, 0, [])];
    FirstAsked(c, a);
    FirstTaken(c, a);
    FirstAnswered(c, a, r);
    assert es[1..] == [es[1], es[2]] && es[1..][1..] == [es[2]] && es[1..][1..][1..] == [];
    var s1 := FirstTask(c, a, Q.NewTask(0), multiset{}, 0);
    var s2 := FirstTask(c, a, Q.Started(Q.NewTask(0), 0), multiset{1}, 1);
    hide Next, Enabled, Key, Submit;
    var s3 := Next(c, s2, es[2]);
    assert Legal(c, s3, [], 1) && After(c, s3, [], 1) == s3;
    assert Legal(c, s2, [es[2]], 1) && After(c, s2, [es[2]], 1) == s3;
    assert Legal(c, s1, es[1..], 1) && After(c, s1, es[1..], 1) == s3;
    SecondHits(c, s3.state, b, AudioOf(c, 1, WaitingTask(c, a), r, 0));
    assert ServesOther(c, es, a, b);
  }
}
