/** Prompt rendering: repeated in-place replacement of `{name}` tokens. */
module Prompt {
  import opened Common
  import opened Text

  // ---------- one replacement pass ----------

  predicate OccursAt(s: string, f: string, i: nat) { i + |f| <= |s| && s[i..i + |f|] == f }

  /** The first occurrence of `f` in `s` at or after `from`, as string search finds it. */
  method Find(s: string, f: string, from: nat) returns (found: Option<nat>)
    requires |f| > 0 && from <= |s|
    ensures found.Some? ==> from <= found.value && OccursAt(s, f, found.value)
    ensures forall i :: from <= i && (found.Some? ==> i < found.value) ==> !OccursAt(s, f, i)
  {
    var i := from;
    while i + |f| <= |s|
      invariant from <= i
      invariant forall j :: from <= j < i ==> !OccursAt(s, f, j)
      decreases |s| - i
    {
      if s[i..i + |f|] == f { return Some(i); }
      i := i + 1;
    }
    return None;
  }

  /** Every leftmost, non-overlapping occurrence of `f` replaced by `t`. */
  function Replaced(s: string, f: string, t: string): string {
    if |f| == 0 || |s| < |f| then s
    else if s[..|f|] == f then t + Replaced(s[|f|..], f, t)
    else [s[0]] + Replaced(s[1..], f, t)
  }

  /** The stretches of `s` between those occurrences. */
  function Between(s: string, f: string): (parts: seq<string>)
    requires |f| > 0
    ensures |parts| > 0
  {
    if |s| < |f| then [s]
    else if s[..|f|] == f then [""] + Between(s[|f|..], f)
    else var rest := Between(s[1..], f); [[s[0]] + rest[0]] + rest[1..]
  }

  function Join(parts: seq<string>, glue: string): string
    requires |parts| > 0
  {
    if |parts| == 1 then parts[0] else parts[0] + glue + Join(parts[1..], glue)
  }

  lemma JoinHead(c: char, parts: seq<string>, glue: string)
    requires |parts| > 0
    ensures Join([[c] + parts[0]] + parts[1..], glue) == [c] + Join(parts, glue)
  {
    var longer := [[c] + parts[0]] + parts[1..];
    assert longer[1..] == parts[1..];
  }

  /** What a pass means: the text is the stretches joined by `f`, and the result is the
      same stretches joined by `t`. */
  lemma {:induction false} ReplacedRejoins(s: string, f: string, t: string)
    requires |f| > 0
    ensures Join(Between(s, f), f) == s
    ensures Join(Between(s, f), t) == Replaced(s, f, t)
    decreases |s|
  {
    if |s| >= |f| {
      if s[..|f|] == f {
        var rest := s[|f|..];
        ReplacedRejoins(rest, f, t);
        assert ([""] + Between(rest, f))[1..] == Between(rest, f);
        assert s == f + rest;
      } else {
        ReplacedRejoins(s[1..], f, t);
        JoinHead(s[0], Between(s[1..], f), f);
        JoinHead(s[0], Between(s[1..], f), t);
      }
    }
  }

  /** No occurrence starts inside a stretch: a stretch followed by whatever comes after
      it in the text has the first occurrence of `f` no earlier than its end. */
  lemma {:induction false} StretchIsFree(s: string, f: string, i: nat)
    requires |f| > 0 && i < |Between(s, f)[0]|
    ensures !OccursAt(s, f, i)
    decreases |s|
  {
    if |s| >= |f| && i > 0 {
      StretchIsFree(s[1..], f, i - 1);
      OccursInTail(s, f, i - 1);
    }
  }

  lemma OccursInTail(s: string, f: string, i: nat)
    requires |s| > 0
    ensures OccursAt(s, f, i + 1) == OccursAt(s[1..], f, i)
  {
    if i + 1 + |f| <= |s| { assert s[1..][i..i + |f|] == s[i + 1..i + 1 + |f|]; }
  }

  lemma {:induction false} TailIsBetween(s: string, f: string, i: nat) returns (x: string)
    requires |f| > 0 && i < |Between(s, f)|
    ensures Between(x, f) == Between(s, f)[i..]
    decreases |s|
  {
    var parts := Between(s, f);
    if i == 0 {
      x := s;
    } else if s[..|f|] == f {
      x := TailIsBetween(s[|f|..], f, i - 1);
      assert parts[i..] == Between(s[|f|..], f)[i - 1..];
    } else {
      x := TailIsBetween(s[1..], f, i);
      assert parts[i..] == Between(s[1..], f)[i..];
    }
  }

  /** The occurrences replaced are the leftmost ones that do not overlap: from any
      stretch on, the first occurrence of `f` is not before the end of that stretch. */
  lemma StretchesAreFree(s: string, f: string, i: nat, j: nat)
    requires |f| > 0 && i < |Between(s, f)| && j < |Between(s, f)[i]|
    ensures !OccursAt(Join(Between(s, f)[i..], f), f, j)
  {
    var x := TailIsBetween(s, f, i);
    ReplacedRejoins(x, f, "");
    StretchIsFree(x, f, j);
  }

  lemma {:induction false} SkipTo(s: string, f: string, t: string, i: nat)
    requires |f| > 0 && i <= |s|
    requires forall j :: 0 <= j < i ==> !OccursAt(s, f, j)
    ensures Replaced(s, f, t) == s[..i] + Replaced(s[i..], f, t)
    decreases i
  {
    if i == 0 {
      assert s[..0] + Replaced(s[0..], f, t) == Replaced(s, f, t) by { assert s[0..] == s; }
    } else if |s| >= |f| {
      assert !OccursAt(s, f, 0);
      assert s[0..|f|] == s[..|f|];
      assert Replaced(s, f, t) == [s[0]] + Replaced(s[1..], f, t);
      hide Replaced;
      forall j | 0 <= j < i - 1 ensures !OccursAt(s[1..], f, j) { OccursInTail(s, f, j); }
      hide OccursAt;
      SkipTo(s[1..], f, t, i - 1);
      assert s[1..][i - 1..] == s[i..];
      ConsPrefix(s, i, Replaced(s[i..], f, t));
    } else {
      assert |s[i..]| < |f|;
      assert s == s[..i] + s[i..];
    }
  }

  lemma ConsPrefix(s: string, i: nat, tail: string)
    requires 0 < i <= |s|
    ensures [s[0]] + (s[1..][..i - 1] + tail) == s[..i] + tail
  {
  }

  /** Replacement in place: the text may grow under the loop, but the part not yet
      scanned always shrinks. */
  method ReplaceAll(text: string, from: string, to: string) returns (r: string)
    ensures r == Replaced(text, from, to)
  {
    r := text;
    if |from| == 0 { return; }
    var pos := 0;
    while true
      invariant 0 <= pos <= |r|
      invariant r[..pos] + Replaced(r[pos..], from, to) == Replaced(text, from, to)
      decreases |r| - pos
    {
      var found := Find(r, from, pos);
      ghost var scanned, rest := r[..pos], r[pos..];
      if found.None? {
        forall j | 0 <= j < |rest| ensures !OccursAt(rest, from, j) { InTail(r, from, pos, j); }
        SkipTo(rest, from, to, |rest|);
        assert scanned + (rest + Replaced(rest[|rest|..], from, to)) == r;
        return;
      }
      var at := found.value;
      forall j | 0 <= j < at - pos ensures !OccursAt(rest, from, j) { InTail(r, from, pos, j); }
      SkipTo(rest, from, to, at - pos);
      ghost var gap, after := r[pos..at], r[at + |from|..];
      Splice(r, to, pos, at, at + |from|);
      InTail(r, from, at, 0);
      ReplacedAtFront(r[at..], from, to);
      Regroup(scanned, gap, to, Replaced(after, from, to));
      r := r[..at] + to + r[at + |from|..];
      pos := at + |to|;
    }
  }

  lemma ReplacedAtFront(s: string, f: string, t: string)
    requires |f| > 0 && OccursAt(s, f, 0)
    ensures Replaced(s, f, t) == t + Replaced(s[|f|..], f, t)
  {
    assert s[0..|f|] == s[..|f|];
  }

  /** The text after one step, cut at the new scan position. */
  lemma Splice<T>(r: seq<T>, t: seq<T>, pos: nat, at: nat, end: nat)
    requires pos <= at <= end <= |r|
    ensures r[pos..][..at - pos] == r[pos..at]
    ensures r[pos..][at - pos..] == r[at..]
    ensures r[at..][end - at..] == r[end..]
    ensures (r[..at] + t + r[end..])[at + |t|..] == r[end..]
    ensures (r[..at] + t + r[end..])[..at + |t|] == r[..pos] + r[pos..at] + t
  {
    Cut(r[..at], t, r[end..]);
    assert r[..at] == r[..pos] + r[pos..at];
  }

  lemma Cut<T>(a: seq<T>, b: seq<T>, c: seq<T>)
    ensures (a + b + c)[|a| + |b|..] == c && (a + b + c)[..|a| + |b|] == a + b
  {
  }

  lemma Regroup<T>(a: seq<T>, b: seq<T>, c: seq<T>, d: seq<T>)
    ensures a + (b + (c + d)) == a + b + c + d
  {
  }

  lemma InTail(s: string, f: string, pos: nat, j: nat)
    requires pos <= |s|
    ensures OccursAt(s[pos..], f, j) <==> OccursAt(s, f, pos + j)
  {
    if pos + j + |f| <= |s| {
      assert s[pos..][j..j + |f|] == s[pos + j..pos + j + |f|];
    }
  }

  // ---------- templates ----------

  /** A template is literal text with `{name}` tokens in it. */
  datatype Piece = Literal(text: string) | Token(name: string)

  predicate Plain(s: string) { forall i :: 0 <= i < |s| ==> s[i] != '{' && s[i] != '}' }

  predicate PlainPieces(ps: seq<Piece>) {
    forall i :: 0 <= i < |ps| ==> Plain(match ps[i] case Literal(t) => t case Token(n) => n)
  }

  function Braced(name: string): (token: string)
    ensures |token| == |name| + 2
  {
    "{" + name + "}"
  }

  function Flat(ps: seq<Piece>): string {
    if |ps| == 0 then ""
    else (match ps[0] case Literal(t) => t case Token(n) => Braced(n)) + Flat(ps[1..])
  }

  function FillOne(p: Piece, name: string, value: string): Piece {
    if p == Token(name) then Literal(value) else p
  }

  function Fill(ps: seq<Piece>, name: string, value: string): seq<Piece> {
    seq(|ps|, i requires 0 <= i < |ps| => FillOne(ps[i], name, value))
  }

  lemma {:induction false} SkipPlain(p: string, rest: string, f: string, t: string)
    requires |f| > 0 && f[0] == '{'
    requires forall i :: 0 <= i < |p| ==> p[i] != '{'
    ensures Replaced(p + rest, f, t) == p + Replaced(rest, f, t)
  {
    var s := p + rest;
    forall j | 0 <= j < |p| ensures !OccursAt(s, f, j) {
      assert s[j] == p[j];
      OccursFrom(s, f, j);
    }
    SkipTo(s, f, t, |p|);
    assert s[|p|..] == rest && s[..|p|] == p;
  }

  lemma OccursFrom(s: string, f: string, j: nat)
    requires |f| > 0 && j < |s|
    ensures OccursAt(s, f, j) ==> s[j] == f[0]
  {
    if j + |f| <= |s| { assert s[j..j + |f|][0] == s[j]; }
  }

  /** A token closes right after its name. */
  lemma CloseAt(n: string, rest: string, i: nat)
    requires Plain(n) && i <= |n|
    ensures (Braced(n) + rest)[i + 1] == '}' <==> i == |n|
  {
    if i < |n| { assert (Braced(n) + rest)[i + 1] == n[i]; }
  }

  /** Two brace-free names make the same token only if they are equal, even when more
      text follows. */
  lemma SameToken(n: string, k: string, rest: string)
    requires Plain(n) && Plain(k) && Braced(k) <= Braced(n) + rest
    ensures n == k
  {
    var m := if |n| < |k| then |n| else |k|;
    CloseAt(n, rest, m);
    CloseAt(k, "", m);
    assert Braced(k) + "" == Braced(k);
    assert (Braced(n) + rest)[m + 1] == Braced(k)[m + 1];
    assert |n| == |k|;
    forall i | 0 <= i < |n| ensures n[i] == k[i] {
      assert n[i] == (Braced(n) + rest)[i + 1] == Braced(k)[i + 1];
    }
  }

  lemma TokensDiffer(n: string, k: string, rest: string)
    requires Plain(n) && Plain(k) && n != k
    ensures !(Braced(k) <= Braced(n) + rest)
  {
    if Braced(k) <= Braced(n) + rest { SameToken(n, k, rest); }
  }

  /** One pass over a template fills exactly the tokens of that name. The value may be
      any text. */
  lemma {:induction false} PassFills(ps: seq<Piece>, name: string, value: string)
    requires PlainPieces(ps) && Plain(name)
    ensures Replaced(Flat(ps), Braced(name), value) == Flat(Fill(ps, name, value))
  {
    if |ps| != 0 {
      var rest := ps[1..];
      PassFills(rest, name, value);
      FillSplits(ps, name, value);
      match ps[0]
      case Literal(t) => SkipPlain(t, Flat(rest), Braced(name), value);
      case Token(n) => PassToken(n, Flat(rest), name, value);
    }
  }

  lemma PassToken(n: string, rest: string, name: string, value: string)
    requires Plain(n) && Plain(name)
    ensures Replaced(Braced(n) + rest, Braced(name), value) ==
      (if n == name then value else Braced(n)) + Replaced(rest, Braced(name), value)
  {
    var s := Braced(n) + rest;
    if n == name {
      assert s[..|Braced(n)|] == Braced(n) && s[|Braced(n)|..] == rest;
    } else {
      TokensDiffer(n, name, rest);
      Reopen(n, rest);
      assert s[0] == '{' && s[1..] == (n + "}") + rest;
      SkipPlain(n + "}", rest, Braced(name), value);
      Reopen(n, Replaced(rest, Braced(name), value));
    }
  }

  lemma Reopen(n: string, rest: string)
    ensures ['{'] + ((n + "}") + rest) == Braced(n) + rest
  {
  }

  lemma FillSplits(ps: seq<Piece>, name: string, value: string)
    requires |ps| > 0
    ensures Flat(Fill(ps, name, value)) ==
      (match FillOne(ps[0], name, value) case Literal(t) => t case Token(n) => Braced(n))
        + Flat(Fill(ps[1..], name, value))
  {
    assert Fill(ps, name, value)[1..] == Fill(ps[1..], name, value);
  }

  // ---------- the passes of one rendering ----------

  datatype Context = Context(roomId: nat, playerId: string, sceneId: string, topic: string, userInput: string,
                             metadata: map<string, string>)

  datatype Binding = Binding(name: string, value: string)

  function MetadataBindings(metadata: map<string, string>, order: seq<string>): seq<Binding>
    requires forall k :: k in order ==> k in metadata
  {
    if |order| == 0 then []
    else [Binding("metadata." + order[0], metadata[order[0]])] + MetadataBindings(metadata, order[1..])
  }

  function FixedBindings(ctx: Context): seq<Binding> {
    [Binding("room_id", Decimal(ctx.roomId)), Binding("player_id", ctx.playerId), Binding("scene_id", ctx.sceneId),
     Binding("topic", ctx.topic), Binding("user_input", ctx.userInput)]
  }

  /** `order` is one of the orders in which the metadata table may be walked. */
  ghost predicate Lists(order: seq<string>, metadata: map<string, string>) {
    && (forall k :: k in order <==> k in metadata)
    && (forall i, j :: 0 <= i < j < |order| ==> order[i] != order[j])
  }

  function Passes(text: string, bs: seq<Binding>): string
    decreases |bs|
  {
    if |bs| == 0 then text else Passes(Replaced(text, Braced(bs[0].name), bs[0].value), bs[1..])
  }

  function Rendered(template: string, ctx: Context, order: seq<string>): string
    requires forall k :: k in order ==> k in ctx.metadata
  {
    Passes(template, FixedBindings(ctx) + MetadataBindings(ctx.metadata, order))
  }

  lemma MetadataPass(text: string, metadata: map<string, string>, order: seq<string>, i: nat)
    requires (forall k :: k in order ==> k in metadata) && i < |order|
    ensures Passes(text, MetadataBindings(metadata, order[i..])) ==
      Passes(Replaced(text, "{metadata." + order[i] + "}", metadata[order[i]]),
          MetadataBindings(metadata, order[i + 1..]))
  {
    var key, left := order[i], order[i..];
    assert left[0] == key && left[1..] == order[i + 1..];
    assert Braced("metadata." + key) == "{metadata." + key + "}";
    hide Replaced, Passes;
    assert MetadataBindings(metadata, left) ==
      [Binding("metadata." + key, metadata[key])] + MetadataBindings(metadata, order[i + 1..]);
    PassesCons(text, Binding("metadata." + key, metadata[key]), MetadataBindings(metadata, order[i + 1..]));
  }

  method RenderPrompt(template: string, ctx: Context, order: seq<string>) returns (prompt: string)
    requires Lists(order, ctx.metadata)
    ensures prompt == Rendered(template, ctx, order)
  {
    hide Replaced, Passes, MetadataBindings, FixedBindings;
    prompt := ReplaceAll(template, "{room_id}", Decimal(ctx.roomId));
    prompt := ReplaceAll(prompt, "{player_id}", ctx.playerId);
    prompt := ReplaceAll(prompt, "{scene_id}", ctx.sceneId);
    prompt := ReplaceAll(prompt, "{topic}", ctx.topic);
    prompt := ReplaceAll(prompt, "{user_input}", ctx.userInput);
    FixedPasses(template, ctx, MetadataBindings(ctx.metadata, order));
    assert order[0..] == order;
    var i := 0;
    while i < |order|
      invariant i <= |order|
      invariant Passes(prompt, MetadataBindings(ctx.metadata, order[i..])) == Rendered(template, ctx, order)
    {
      var key := order[i];
      MetadataPass(prompt, ctx.metadata, order, i);
      prompt := ReplaceAll(prompt, "{metadata." + key + "}", ctx.metadata[key]);
      i := i + 1;
    }
    assert order[i..] == [];
    NoMetadata(prompt, ctx.metadata);
  }

  lemma NoMetadata(text: string, metadata: map<string, string>)
    ensures Passes(text, MetadataBindings(metadata, [])) == text
  {
  }

  lemma FixedPasses(template: string, ctx: Context, more: seq<Binding>)
    ensures Passes(template, FixedBindings(ctx) + more) ==
      Passes(Replaced(Replaced(Replaced(Replaced(Replaced(template, "{room_id}", Decimal(ctx.roomId)),
        "{player_id}", ctx.playerId), "{scene_id}", ctx.sceneId),
          "{topic}", ctx.topic), "{user_input}", ctx.userInput), more)
  {
    var b := FixedBindings(ctx);
    assert Braced("room_id") == "{room_id}" && Braced("player_id") == "{player_id}" &&
        Braced("scene_id") == "{scene_id}";
    assert Braced("topic") == "{topic}" && Braced("user_input") == "{user_input}";
    hide Replaced, Passes;
    assert b + more == [b[0]] + ([b[1]] + ([b[2]] + ([b[3]] + ([b[4]] + more))));
    PassesCons(template, b[0], [b[1]] + ([b[2]] + ([b[3]] + ([b[4]] + more))));
    var t1 := Replaced(template, Braced(b[0].name), b[0].value);
    PassesCons(t1, b[1], [b[2]] + ([b[3]] + ([b[4]] + more)));
    var t2 := Replaced(t1, Braced(b[1].name), b[1].value);
    PassesCons(t2, b[2], [b[3]] + ([b[4]] + more));
    var t3 := Replaced(t2, Braced(b[2].name), b[2].value);
    PassesCons(t3, b[3], [b[4]] + more);
    var t4 := Replaced(t3, Braced(b[3].name), b[3].value);
    PassesCons(t4, b[4], more);
  }

  lemma PassesCons(text: string, b: Binding, bs: seq<Binding>)
    ensures Passes(text, [b] + bs) == Passes(Replaced(text, Braced(b.name), b.value), bs)
  {
    assert ([b] + bs)[1..] == bs;
  }

  // ---------- one simultaneous substitution ----------

  function Lookup(bs: seq<Binding>, name: string): Option<string> {
    if |bs| == 0 then None
    else if bs[0].name == name then Some(bs[0].value)
    else Lookup(bs[1..], name)
  }

  function FilledBy(p: Piece, found: Option<string>): Piece {
    if p.Token? && found.Some? then Literal(found.value) else p
  }

  function FillAll(ps: seq<Piece>, bs: seq<Binding>): seq<Piece> {
    seq(|ps|, i requires 0 <= i < |ps| => FilledBy(ps[i], if ps[i].Token? then Lookup(bs, ps[i].name) else None))
  }

  ghost predicate PlainBindings(bs: seq<Binding>) {
    forall i :: 0 <= i < |bs| ==> Plain(bs[i].name) && Plain(bs[i].value)
  }

  lemma {:induction false} PassesFillAll(ps: seq<Piece>, bs: seq<Binding>)
    requires PlainPieces(ps) && PlainBindings(bs)
    ensures Passes(Flat(ps), bs) == Flat(FillAll(ps, bs))
    decreases |bs|
  {
    if |bs| == 0 {
      assert FillAll(ps, bs) == ps;
    } else {
      var b := bs[0];
      PassFills(ps, b.name, b.value);
      var filled := Fill(ps, b.name, b.value);
      assert PlainPieces(filled);
      PassesFillAll(filled, bs[1..]);
      assert FillAll(filled, bs[1..]) == FillAll(ps, bs);
    }
  }

  /** The value a token stands for, independent of any order. */
  function TokenValue(ctx: Context, name: string): Option<string> {
    if name == "room_id" then Some(Decimal(ctx.roomId))
    else if name == "player_id" then Some(ctx.playerId)
    else if name == "scene_id" then Some(ctx.sceneId)
    else if name == "topic" then Some(ctx.topic)
    else if name == "user_input" then Some(ctx.userInput)
    else if |name| >= 9 && name[..9] == "metadata." && name[9..] in ctx.metadata then Some(ctx.metadata[name[9..]])
    else None
  }

  function Substituted(ps: seq<Piece>, ctx: Context): seq<Piece> {
    seq(|ps|, i requires 0 <= i < |ps| => FilledBy(ps[i], if ps[i].Token? then TokenValue(ctx, ps[i].name) else None))
  }

  lemma {:induction false} MetadataLookup(metadata: map<string, string>, order: seq<string>, name: string)
    requires forall k :: k in order ==> k in metadata
    ensures Lookup(MetadataBindings(metadata, order), name) ==
      if |name| >= 9 && name[..9] == "metadata." && name[9..] in order then Some(metadata[name[9..]]) else None
  {
    if |order| != 0 {
      MetadataLookup(metadata, order[1..], name);
      var bs := MetadataBindings(metadata, order);
      assert bs[1..] == MetadataBindings(metadata, order[1..]);
      assert ("metadata." + order[0])[..9] == "metadata." && ("metadata." + order[0])[9..] == order[0];
      if |name| >= 9 && name[..9] == "metadata." {
        assert name == "metadata." + name[9..];
      }
    }
  }

  lemma LookupCons(b: Binding, bs: seq<Binding>, name: string)
    ensures Lookup([b] + bs, name) == if b.name == name then Some(b.value) else Lookup(bs, name)
  {
    assert ([b] + bs)[1..] == bs;
  }

  lemma LookupIsTokenValue(ctx: Context, order: seq<string>, name: string)
    requires Lists(order, ctx.metadata)
    ensures Lookup(FixedBindings(ctx) + MetadataBindings(ctx.metadata, order), name) == TokenValue(ctx, name)
  {
    var b := FixedBindings(ctx);
    var more := MetadataBindings(ctx.metadata, order);
    assert b + more == [b[0]] + ([b[1]] + ([b[2]] + ([b[3]] + ([b[4]] + more))));
    hide Lookup, MetadataBindings;
    LookupCons(b[0], [b[1]] + ([b[2]] + ([b[3]] + ([b[4]] + more))), name);
    LookupCons(b[1], [b[2]] + ([b[3]] + ([b[4]] + more)), name);
    LookupCons(b[2], [b[3]] + ([b[4]] + more), name);
    LookupCons(b[3], [b[4]] + more, name);
    LookupCons(b[4], more, name);
    MetadataLookup(ctx.metadata, order, name);
  }

  ghost predicate PlainContext(ctx: Context) {
    && Plain(ctx.playerId) && Plain(ctx.sceneId) && Plain(ctx.topic) && Plain(ctx.userInput)
    && (forall k :: k in ctx.metadata ==> Plain(k) && Plain(ctx.metadata[k]))
  }

  lemma {:induction false} MetadataIsPlain(metadata: map<string, string>, order: seq<string>)
    requires forall k :: k in order ==> k in metadata
    requires forall k :: k in metadata ==> Plain(k) && Plain(metadata[k])
    ensures PlainBindings(MetadataBindings(metadata, order))
  {
    if |order| != 0 {
      MetadataIsPlain(metadata, order[1..]);
      assert order[0] in order && Plain("metadata." + order[0]);
    }
  }

  /** Rendering a template of brace-free text and tokens with brace-free keys and
      values is one simultaneous substitution, whatever the metadata order. */
  lemma RenderingIsSubstitution(ps: seq<Piece>, ctx: Context, order: seq<string>)
    requires PlainPieces(ps) && PlainContext(ctx) && Lists(order, ctx.metadata)
    ensures Rendered(Flat(ps), ctx, order) == Flat(Substituted(ps, ctx))
  {
    var bs := FixedBindings(ctx) + MetadataBindings(ctx.metadata, order);
    ContextIsPlain(ctx, order);
    PassesFillAll(ps, bs);
    hide PlainPieces, PlainContext, PlainBindings, Passes, Flat, TokenValue, Lookup, MetadataBindings, FixedBindings;
    forall i | 0 <= i < |ps| ensures FillAll(ps, bs)[i] == Substituted(ps, ctx)[i] {
      if ps[i].Token? { LookupIsTokenValue(ctx, order, ps[i].name); }
    }
    assert FillAll(ps, bs) == Substituted(ps, ctx);
  }

  lemma ContextIsPlain(ctx: Context, order: seq<string>)
    requires PlainContext(ctx) && Lists(order, ctx.metadata)
    ensures PlainBindings(FixedBindings(ctx) + MetadataBindings(ctx.metadata, order))
  {
    MetadataIsPlain(ctx.metadata, order);
    assert Plain(Decimal(ctx.roomId));
  }
}
