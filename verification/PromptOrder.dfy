/** Values with braces: exactly when the passes of a rendering are one simultaneous
    substitution, and so do not depend on the order of the metadata table. */
module PromptOrder {
  import opened Common
  import opened Prompt

  /** How often a pass finds `f`. */
  function Occurrences(s: string, f: string): nat
    requires |f| > 0
  {
    |Between(s, f)| - 1
  }

  /** The string has a brace at its start and nowhere else, so it cannot overlap itself. */
  predicate IsTokenText(f: string) { |f| > 1 && f[0] == '{' && forall i :: 1 <= i < |f| ==> f[i] != '{' }

  lemma BracedIsTokenText(name: string)
    requires Plain(name)
    ensures IsTokenText(Braced(name))
  {
  }

  // ---------- one text ----------

  /** No occurrence reaches from a shorter text into a token. */
  lemma NoOverlap(u: string, f: string, rest: string)
    requires IsTokenText(f) && 0 < |u| < |f|
    ensures (u + (f + rest))[..|f|] != f
  {
    assert (u + (f + rest))[..|f|][|u|] == '{';
    assert f[|u|] != '{';
  }

  lemma MeetsToken(u: string, f: string, rest: string)
    requires IsTokenText(f) && |u| > 0
    ensures var s := u + (f + rest);
      if s[..|f|] == f then |u| >= |f| && u[..|f|] == f && s[|f|..] == u[|f|..] + (f + rest)
      else !(|u| >= |f| && u[..|f|] == f) && s[0] == u[0] && s[1..] == u[1..] + (f + rest)
  {
    var s := u + (f + rest);
    if |u| < |f| { NoOverlap(u, f, rest); } else { assert s[..|f|] == u[..|f|]; }
  }

  /** A pass treats what is before a token, and what is after it, separately. */
  lemma {:induction false} PassSplitsAtToken(u: string, f: string, rest: string, t: string)
    requires IsTokenText(f)
    ensures Replaced(u + (f + rest), f, t) == Replaced(u, f, t) + (t + Replaced(rest, f, t))
    ensures Occurrences(u + (f + rest), f) == Occurrences(u, f) + 1 + Occurrences(rest, f)
    decreases |u|
  {
    var s := u + (f + rest);
    if |u| == 0 {
      assert s == f + rest && s[..|f|] == f && s[|f|..] == rest;
      assert "" + (t + Replaced(rest, f, t)) == t + Replaced(rest, f, t);
    } else {
      MeetsToken(u, f, rest);
      if s[..|f|] == f {
        PassSplitsAtToken(u[|f|..], f, rest, t);
        Associate(t, Replaced(u[|f|..], f, t), t + Replaced(rest, f, t));
      } else {
        PassSplitsAtToken(u[1..], f, rest, t);
        ReplacedFirst(u, f, t);
        Associate([u[0]], Replaced(u[1..], f, t), t + Replaced(rest, f, t));
      }
    }
  }

  /** A character where no occurrence starts is kept. */
  lemma ReplacedFirst(u: string, f: string, t: string)
    requires |f| > 0 && |u| > 0 && !(|u| >= |f| && u[..|f|] == f)
    ensures Replaced(u, f, t) == [u[0]] + Replaced(u[1..], f, t)
    ensures Occurrences(u, f) == Occurrences(u[1..], f)
  {
    if |u| < |f| { assert u == [u[0]] + u[1..]; }
  }

  lemma {:induction false} ReplacedLength(u: string, f: string, t: string)
    requires |f| > 0
    ensures |Replaced(u, f, t)| == |u| + Occurrences(u, f) * (|t| - |f|)
    decreases |u|
  {
    if |u| > 0 {
      if |u| >= |f| && u[..|f|] == f {
        var rest := u[|f|..];
        ReplacedLength(rest, f, t);
        assert (Occurrences(rest, f) + 1) * (|t| - |f|) == Occurrences(rest, f) * (|t| - |f|) + (|t| - |f|);
      } else {
        ReplacedFirst(u, f, t);
        ReplacedLength(u[1..], f, t);
      }
    }
  }

  /** Nothing to replace, or a replacement by itself, changes nothing. */
  lemma PassIsIdle(u: string, f: string, t: string)
    requires |f| > 0 && (t == f || Occurrences(u, f) == 0)
    ensures Replaced(u, f, t) == u
  {
    ReplacedRejoins(u, f, t);
  }

  lemma HeadChanges(u: string, f: string, t: string)
    requires |f| > 0 && |t| == |f| && t != f && |u| >= |f| && u[..|f|] == f
    ensures Replaced(u, f, t) != u
  {
    assert Replaced(u, f, t)[..|f|] == t;
  }

  lemma {:induction false} IdleFindsNothing(u: string, f: string, t: string)
    requires |f| > 0 && |t| == |f| && t != f && Replaced(u, f, t) == u
    ensures Occurrences(u, f) == 0
    decreases |u|
  {
    if |u| >= |f| && u[..|f|] == f {
      HeadChanges(u, f, t);
    } else if |u| > 0 {
      ReplacedFirst(u, f, t);
      assert ([u[0]] + Replaced(u[1..], f, t))[1..] == Replaced(u[1..], f, t);
      IdleFindsNothing(u[1..], f, t);
    }
  }

  // ---------- one pass over pieces ----------

  function TextOf(p: Piece): string { match p case Literal(t) => t case Token(n) => Braced(n) }

  function TokenCount(ps: seq<Piece>, name: string): nat {
    if |ps| == 0 then 0 else (if ps[0] == Token(name) then 1 else 0) + TokenCount(ps[1..], name)
  }

  /** A text against another: by how much it is longer, and when they are the same. */
  ghost predicate Compares(made: string, wanted: string, surplus: int, d: int, same: bool) {
    surplus >= 0 && |made| == |wanted| + surplus * d && (made == wanted <==> same || surplus == 0)
  }

  /** What a pass makes of a text that ends in these pieces, against filling the pieces:
      the surplus is what it finds besides the tokens. */
  ghost predicate PassAgainstFill(u: string, ps: seq<Piece>, name: string, value: string) {
    var f := Braced(name);
    Compares(Replaced(u + Flat(ps), f, value), u + Flat(Fill(ps, name, value)),
             Occurrences(u + Flat(ps), f) - TokenCount(ps, name), |value| - |f|, value == f)
  }

  lemma FlatCons(ps: seq<Piece>, name: string, value: string)
    requires |ps| > 0
    ensures Flat(ps) == TextOf(ps[0]) + Flat(ps[1..])
    ensures Flat(Fill(ps, name, value)) == TextOf(FillOne(ps[0], name, value)) + Flat(Fill(ps[1..], name, value))
  {
    FillSplits(ps, name, value);
  }

  lemma NoPieces(u: string, name: string, value: string)
    ensures PassAgainstFill(u, [], name, value)
  {
    assert u + Flat([]) == u && u + Flat(Fill([], name, value)) == u;
    PassCompares(u, Braced(name), value);
    hide Compares, Replaced, Occurrences;
  }

  lemma ProductNotZero(n: nat, d: int)
    requires n > 0 && d != 0
    ensures n * d != 0
  {
  }

  lemma OtherPiece(u: string, ps: seq<Piece>, name: string, value: string)
    requires |ps| > 0 && ps[0] != Token(name) && PassAgainstFill(u + TextOf(ps[0]), ps[1..], name, value)
    ensures PassAgainstFill(u, ps, name, value)
  {
    FlatCons(ps, name, value);
    Associate(u, TextOf(ps[0]), Flat(ps[1..]));
    Associate(u, TextOf(ps[0]), Flat(Fill(ps[1..], name, value)));
    hide Replaced, Occurrences, Flat, Fill;
  }

  /** Two texts with the same middle, compared by length and content. */
  lemma SplitCompares(u: string, u': string, v: string, x: string, x': string, k: nat, n: int, d: int, same: bool)
    requires Compares(u', u, k, d, same) && Compares(x', x, n, d, same) && (same ==> d == 0)
    ensures Compares(u' + (v + x'), u + (v + x), k + n, d, same)
  {
    assert (k + n) * d == k * d + n * d;
    if d == 0 {
      if u' + (v + x') == u + (v + x) { SameParts(u, u', v, x, x'); }
    } else if k + n > 0 {
      ProductNotZero(k + n, d);
    }
  }

  lemma SameParts(u: string, u': string, v: string, x: string, x': string)
    requires |u'| == |u| && u' + (v + x') == u + (v + x)
    ensures u' == u && x' == x
  {
    assert (u' + (v + x'))[..|u|] == u' && (u + (v + x))[..|u|] == u;
    assert (u' + (v + x'))[|u| + |v|..] == x' && (u + (v + x))[|u| + |v|..] == x;
  }

  lemma PassCompares(u: string, f: string, t: string)
    requires |f| > 0
    ensures Compares(Replaced(u, f, t), u, Occurrences(u, f), |t| - |f|, t == f)
  {
    ReplacedLength(u, f, t);
    var k := Occurrences(u, f);
    if t == f || k == 0 {
      PassIsIdle(u, f, t);
    } else if |t| == |f| {
      if Replaced(u, f, t) == u { IdleFindsNothing(u, f, t); }
    } else {
      ProductNotZero(k, |t| - |f|);
    }
  }

  lemma OwnTokenParts(u: string, ps: seq<Piece>, name: string, value: string)
    requires Plain(name) && |ps| > 0 && ps[0] == Token(name)
    ensures var f := Braced(name); var rest := Flat(ps[1..]);
      && Replaced(u + Flat(ps), f, value) == Replaced(u, f, value) + (value + Replaced(rest, f, value))
      && u + Flat(Fill(ps, name, value)) == u + (value + Flat(Fill(ps[1..], name, value)))
      && Occurrences(u + Flat(ps), f) - TokenCount(ps, name) ==
           Occurrences(u, f) + (Occurrences(rest, f) - TokenCount(ps[1..], name))
  {
    FlatCons(ps, name, value);
    BracedIsTokenText(name);
    PassSplitsAtToken(u, Braced(name), Flat(ps[1..]), value);
    assert TokenCount(ps, name) == 1 + TokenCount(ps[1..], name);
    hide Flat, Fill, Occurrences, Replaced, IsTokenText, TokenCount, Braced;
  }

  lemma Concludes(u: string, ps: seq<Piece>, name: string, value: string, made: string, wanted: string, surplus: int)
    requires made == Replaced(u + Flat(ps), Braced(name), value) && wanted == u + Flat(Fill(ps, name, value))
    requires surplus == Occurrences(u + Flat(ps), Braced(name)) - TokenCount(ps, name)
    requires Compares(made, wanted, surplus, |value| - |Braced(name)|, value == Braced(name))
    ensures PassAgainstFill(u, ps, name, value)
  {
  }

  lemma WithoutPrefix(ps: seq<Piece>, name: string, value: string)
    requires PassAgainstFill("", ps, name, value)
    ensures Compares(Replaced(Flat(ps), Braced(name), value), Flat(Fill(ps, name, value)),
                     Occurrences(Flat(ps), Braced(name)) - TokenCount(ps, name),
                     |value| - |Braced(name)|, value == Braced(name))
  {
    hide Compares, Replaced, Flat, Fill, Occurrences, TokenCount, Braced;
    NothingBefore(Flat(ps));
    NothingBefore(Flat(Fill(ps, name, value)));
  }

  lemma OwnToken(u: string, ps: seq<Piece>, name: string, value: string)
    requires Plain(name) && |ps| > 0 && ps[0] == Token(name) && PassAgainstFill("", ps[1..], name, value)
    ensures PassAgainstFill(u, ps, name, value)
  {
    hide Flat, Fill, Occurrences, Replaced, TokenCount, Compares, Braced, PassAgainstFill, Plain;
    var f, rest := Braced(name), ps[1..];
    var k, n := Occurrences(u, f), Occurrences(Flat(rest), f) - TokenCount(rest, name);
    var u', x', x := Replaced(u, f, value), Replaced(Flat(rest), f, value), Flat(Fill(rest, name, value));
    OwnTokenParts(u, ps, name, value);
    WithoutPrefix(rest, name, value);
    PassCompares(u, f, value);
    SplitCompares(u, u', value, x, x', k, n, |value| - |f|, value == f);
    Concludes(u, ps, name, value, u' + (value + x'), u + (value + x), k + n);
  }

  lemma {:induction false} PassComparesToFill(u: string, ps: seq<Piece>, name: string, value: string)
    requires Plain(name)
    ensures PassAgainstFill(u, ps, name, value)
    decreases |ps|
  {
    hide PassAgainstFill;
    if |ps| == 0 {
      NoPieces(u, name, value);
    } else if ps[0] == Token(name) {
      PassComparesToFill("", ps[1..], name, value);
      OwnToken(u, ps, name, value);
    } else {
      PassComparesToFill(u + TextOf(ps[0]), ps[1..], name, value);
      OtherPiece(u, ps, name, value);
    }
  }

  /** A pass fills exactly the tokens, whatever the literals contain, if and only if it
      finds nothing besides the tokens or replaces a token by itself. */
  lemma PassFillsIff(ps: seq<Piece>, name: string, value: string)
    requires Plain(name)
    ensures Occurrences(Flat(ps), Braced(name)) >= TokenCount(ps, name)
    ensures Replaced(Flat(ps), Braced(name), value) == Flat(Fill(ps, name, value)) <==>
      value == Braced(name) || Occurrences(Flat(ps), Braced(name)) == TokenCount(ps, name)
  {
    hide Replaced, Flat, Fill, Occurrences, TokenCount, Braced, PassAgainstFill;
    PassComparesToFill("", ps, name, value);
    WithoutPrefix(ps, name, value);
  }

  /** In a template of brace-free literals a pass finds exactly the tokens. */
  lemma PlainHasTokensOnly(ps: seq<Piece>, name: string)
    requires PlainPieces(ps) && Plain(name)
    ensures Occurrences(Flat(ps), Braced(name)) == TokenCount(ps, name)
  {
    PassFills(ps, name, "");
    PassFillsIff(ps, name, "");
  }

  // ---------- all passes ----------

  lemma {:induction false} SameTokens(ps: seq<Piece>, bs: seq<Binding>, name: string)
    requires Lookup(bs, name) == None
    ensures TokenCount(FillAll(ps, bs), name) == TokenCount(ps, name)
    decreases |ps|
  {
    if |ps| != 0 {
      SameTokens(ps[1..], bs, name);
      assert FillAll(ps, bs)[1..] == FillAll(ps[1..], bs);
    }
  }

  lemma {:induction false} LookupSnoc(bs: seq<Binding>, b: Binding, name: string)
    ensures Lookup(bs + [b], name) ==
      if Lookup(bs, name).Some? then Lookup(bs, name) else if b.name == name then Some(b.value) else None
    decreases |bs|
  {
    if |bs| == 0 {
      assert bs + [b] == [b] && [b][1..] == [];
    } else {
      assert (bs + [b])[0] == bs[0] && (bs + [b])[1..] == bs[1..] + [b];
      LookupSnoc(bs[1..], b, name);
    }
  }

  lemma FillAllSnoc(ps: seq<Piece>, bs: seq<Binding>, b: Binding)
    requires Lookup(bs, b.name) == None
    ensures FillAll(ps, bs + [b]) == Fill(FillAll(ps, bs), b.name, b.value)
  {
    forall i | 0 <= i < |ps| ensures FillAll(ps, bs + [b])[i] == Fill(FillAll(ps, bs), b.name, b.value)[i] {
      if ps[i].Token? { LookupSnoc(bs, b, ps[i].name); }
    }
  }

  /** The values filled in so far have made no new token of this name. */
  predicate NoneCreated(ps: seq<Piece>, done: seq<Binding>, b: Binding) {
    Occurrences(Flat(FillAll(ps, done)), Braced(b.name)) == Occurrences(Flat(ps), Braced(b.name))
  }

  /** The next pass of a rendering that has been a simultaneous substitution so far. */
  predicate NextIsExact(ps: seq<Piece>, done: seq<Binding>, b: Binding) {
    Replaced(Flat(FillAll(ps, done)), Braced(b.name), b.value) == Flat(FillAll(ps, done + [b]))
  }

  /** It remains one if and only if the values filled in so far made no token of this
      name, or the token is replaced by itself. */
  lemma NextIsExactIff(ps: seq<Piece>, done: seq<Binding>, b: Binding)
    requires PlainPieces(ps) && Plain(b.name) && Lookup(done, b.name) == None
    ensures NextIsExact(ps, done, b) <==> b.value == Braced(b.name) || NoneCreated(ps, done, b)
  {
    FillAllSnoc(ps, done, b);
    PassFillsIff(FillAll(ps, done), b.name, b.value);
    SameTokens(ps, done, b.name);
    PlainHasTokensOnly(ps, b.name);
    hide Replaced, Flat, Fill, FillAll, Occurrences, TokenCount, PlainPieces;
  }

  /** Every pass is exact. */
  predicate AllExact(ps: seq<Piece>, done: seq<Binding>, left: seq<Binding>)
    decreases |left|
  {
    |left| == 0 || (NextIsExact(ps, done, left[0]) && AllExact(ps, done + [left[0]], left[1..]))
  }

  predicate NeverCreated(ps: seq<Piece>, done: seq<Binding>, left: seq<Binding>)
    decreases |left|
  {
    |left| == 0 ||
    ((left[0].value == Braced(left[0].name) || NoneCreated(ps, done, left[0]))
      && NeverCreated(ps, done + [left[0]], left[1..]))
  }

  /** Names are brace-free, and bound once. */
  ghost predicate NamesAreFine(done: seq<Binding>, left: seq<Binding>) {
    && (forall i :: 0 <= i < |left| ==> Plain(left[i].name) && Lookup(done, left[i].name) == None)
    && (forall i, j :: 0 <= i < j < |left| ==> left[i].name != left[j].name)
  }

  lemma NamesStayFine(done: seq<Binding>, left: seq<Binding>)
    requires NamesAreFine(done, left) && |left| > 0
    ensures NamesAreFine(done + [left[0]], left[1..])
  {
    forall i | 0 <= i < |left[1..]| ensures Lookup(done + [left[0]], left[1..][i].name) == None {
      LookupSnoc(done, left[0], left[1..][i].name);
    }
  }

  lemma {:induction false} AllExactIff(ps: seq<Piece>, done: seq<Binding>, left: seq<Binding>)
    requires PlainPieces(ps) && NamesAreFine(done, left)
    ensures AllExact(ps, done, left) <==> NeverCreated(ps, done, left)
    ensures AllExact(ps, done, left) ==> Passes(Flat(FillAll(ps, done)), left) == Flat(FillAll(ps, done + left))
    decreases |left|
  {
    if |left| == 0 {
      assert done + left == done;
    } else {
      NextIsExactIff(ps, done, left[0]);
      NamesStayFine(done, left);
      AllExactIff(ps, done + [left[0]], left[1..]);
      assert (done + [left[0]]) + left[1..] == done + left;
      hide NamesAreFine, PlainPieces, NoneCreated, FillAll, Flat, Replaced;
    }
  }

  // ---------- renderings ----------

  function Bindings(ctx: Context, order: seq<string>): seq<Binding>
    requires forall k :: k in order ==> k in ctx.metadata
  {
    FixedBindings(ctx) + MetadataBindings(ctx.metadata, order)
  }

  lemma {:induction false} MetadataAt(metadata: map<string, string>, order: seq<string>, i: nat)
    requires (forall k :: k in order ==> k in metadata) && i < |order|
    ensures |MetadataBindings(metadata, order)| == |order|
    ensures MetadataBindings(metadata, order)[i] == Binding("metadata." + order[i], metadata[order[i]])
    decreases |order|
  {
    if i > 0 {
      MetadataAt(metadata, order[1..], i - 1);
    } else if |order| > 1 {
      MetadataAt(metadata, order[1..], 0);
    }
  }

  ghost predicate PlainKeys(ctx: Context) { forall k :: k in ctx.metadata ==> Plain(k) }

  /** The fixed names are brace-free, and none starts like a metadata name. */
  lemma FixedNameAt(ctx: Context, i: nat)
    requires i < 5
    ensures var name := FixedBindings(ctx)[i].name; Plain(name) && |name| > 0 && name[0] != 'm'
  {
    var fixed := FixedBindings(ctx);
    assert fixed[0].name == "room_id" && fixed[1].name == "player_id" && fixed[2].name == "scene_id";
    assert fixed[3].name == "topic" && fixed[4].name == "user_input";
  }

  /** The bindings in the order of the passes: five fixed ones, then the metadata. */
  lemma BindingAt(ctx: Context, order: seq<string>, i: nat)
    requires Lists(order, ctx.metadata) && i < |Bindings(ctx, order)|
    ensures |Bindings(ctx, order)| == 5 + |order|
    ensures i < 5 ==> Bindings(ctx, order)[i] == FixedBindings(ctx)[i]
    ensures i >= 5 ==> Bindings(ctx, order)[i].name == "metadata." + order[i - 5]
  {
    if |order| > 0 { MetadataAt(ctx.metadata, order, 0); }
    if i >= 5 { MetadataAt(ctx.metadata, order, i - 5); }
  }

  lemma NameIsPlain(ctx: Context, order: seq<string>, i: nat)
    requires PlainKeys(ctx) && Lists(order, ctx.metadata) && i < |Bindings(ctx, order)|
    ensures Plain(Bindings(ctx, order)[i].name)
  {
    BindingAt(ctx, order, i);
    hide Bindings, FixedBindings;
    if i < 5 {
      FixedNameAt(ctx, i);
    } else {
      assert order[i - 5] in order;
    }
  }

  lemma FixedNamesDiffer(ctx: Context, i: nat, j: nat)
    requires i < j < 5
    ensures FixedBindings(ctx)[i].name != FixedBindings(ctx)[j].name
  {
    var fixed := FixedBindings(ctx);
    assert fixed[0].name[..2] == "ro" && fixed[1].name[..2] == "pl" && fixed[2].name[..2] == "sc";
    assert fixed[3].name[..2] == "to" && fixed[4].name[..2] == "us";
  }

  lemma NamesDiffer(ctx: Context, order: seq<string>, i: nat, j: nat)
    requires PlainKeys(ctx) && Lists(order, ctx.metadata) && i < j < |Bindings(ctx, order)|
    ensures Bindings(ctx, order)[i].name != Bindings(ctx, order)[j].name
  {
    BindingAt(ctx, order, i);
    BindingAt(ctx, order, j);
    hide Bindings, FixedBindings;
    if j < 5 {
      FixedNamesDiffer(ctx, i, j);
    } else if i < 5 {
      FixedNameAt(ctx, i);
      assert ("metadata." + order[j - 5])[0] == 'm';
    } else {
      assert ("metadata." + order[j - 5])[9..] == order[j - 5] && ("metadata." + order[i - 5])[9..] == order[i - 5];
    }
  }

  lemma BindingNames(ctx: Context, order: seq<string>)
    requires PlainKeys(ctx) && Lists(order, ctx.metadata)
    ensures NamesAreFine([], Bindings(ctx, order))
  {
    hide PlainKeys, Bindings, Plain;
    var bs := Bindings(ctx, order);
    forall i | 0 <= i < |bs| ensures Plain(bs[i].name) { NameIsPlain(ctx, order, i); }
    forall i, j | 0 <= i < j < |bs| ensures bs[i].name != bs[j].name { NamesDiffer(ctx, order, i, j); }
  }

  /** Over a template of brace-free text and tokens, with any values: each pass of a
      rendering fills exactly its tokens if and only if no value filled in earlier made
      one of them; and then the rendering is the one simultaneous substitution. */
  lemma RenderingIsExactIff(ps: seq<Piece>, ctx: Context, order: seq<string>)
    requires PlainPieces(ps) && PlainKeys(ctx) && Lists(order, ctx.metadata)
    ensures AllExact(ps, [], Bindings(ctx, order)) <==> NeverCreated(ps, [], Bindings(ctx, order))
    ensures AllExact(ps, [], Bindings(ctx, order)) ==> Rendered(Flat(ps), ctx, order) == Flat(Substituted(ps, ctx))
  {
    var bs := Bindings(ctx, order);
    BindingNames(ctx, order);
    AllExactIff(ps, [], bs);
    hide PlainPieces, PlainKeys, NamesAreFine, AllExact, NeverCreated, Flat, Passes,
      TokenValue, Lookup, MetadataBindings,
      FixedBindings;
    assert [] + bs == bs;
    assert FillAll(ps, []) == ps by { NothingBound(ps); }
    forall i | 0 <= i < |ps| ensures FillAll(ps, bs)[i] == Substituted(ps, ctx)[i] {
      if ps[i].Token? { LookupIsTokenValue(ctx, order, ps[i].name); }
    }
    assert FillAll(ps, bs) == Substituted(ps, ctx);
  }

  lemma NothingBound(ps: seq<Piece>)
    ensures FillAll(ps, []) == ps
  {
  }

  /** Two orders of the metadata table, neither of which creates a token before its
      pass, give the same prompt. */
  lemma OrderDoesNotMatter(ps: seq<Piece>, ctx: Context, o1: seq<string>, o2: seq<string>)
    requires PlainPieces(ps) && PlainKeys(ctx) && Lists(o1, ctx.metadata) && Lists(o2, ctx.metadata)
    requires NeverCreated(ps, [], Bindings(ctx, o1)) && NeverCreated(ps, [], Bindings(ctx, o2))
    ensures Rendered(Flat(ps), ctx, o1) == Rendered(Flat(ps), ctx, o2)
  {
    hide PlainPieces, NeverCreated, AllExact, Rendered, Bindings, Flat;
    RenderingIsExactIff(ps, ctx, o1);
    RenderingIsExactIff(ps, ctx, o2);
  }

  // ---------- two values ----------

  lemma TwoPasses(text: string, a: Binding, b: Binding)
    ensures Passes(text, [a, b]) == Replaced(Replaced(text, Braced(a.name), a.value), Braced(b.name), b.value)
  {
    hide Replaced;
    assert [a, b] == [a] + ([b] + []);
    PassesCons(text, a, [b] + []);
    PassesCons(Replaced(text, Braced(a.name), a.value), b, []);
  }

  /** Filling in the first value makes no token of the second name, or that token stands
      for itself. */
  predicate CreatesNone(ps: seq<Piece>, a: Binding, b: Binding) {
    || b.value == Braced(b.name)
    || Occurrences(Flat(Fill(ps, a.name, a.value)), Braced(b.name)) == Occurrences(Flat(ps), Braced(b.name))
  }

  /** With two bindings: the passes are the simultaneous substitution if and only if the
      first creates no token of the second. */
  lemma TwoPassesIff(ps: seq<Piece>, a: Binding, b: Binding)
    requires PlainPieces(ps) && Plain(a.name) && Plain(b.name) && a.name != b.name
    ensures Passes(Flat(ps), [a, b]) == Flat(FillAll(ps, [a, b])) <==> CreatesNone(ps, a, b)
  {
    PassFills(ps, a.name, a.value);
    NothingBound(ps);
    LookupSnoc([], a, b.name);
    assert [] + [a] == [a] && [a] + [b] == [a, b];
    FillAllSnoc(ps, [], a);
    NextIsExactIff(ps, [a], b);
    hide Replaced, Flat, Fill, FillAll, Occurrences, PlainPieces, Passes;
    TwoPasses(Flat(ps), a, b);
  }

  lemma FillBoth(ps: seq<Piece>, a: Binding, b: Binding)
    requires a.name != b.name
    ensures FillAll(ps, [a, b]) == FillAll(ps, [b, a])
  {
    assert [a] + [b] == [a, b] && [b] + [a] == [b, a] && [] + [a] == [a] && [] + [b] == [b];
    forall i | 0 <= i < |ps| ensures FillAll(ps, [a, b])[i] == FillAll(ps, [b, a])[i] {
      if ps[i].Token? {
        LookupSnoc([], a, ps[i].name);
        LookupSnoc([], b, ps[i].name);
        LookupSnoc([a], b, ps[i].name);
        LookupSnoc([b], a, ps[i].name);
      }
    }
  }

  /** When one of two bindings creates no token of the other, their two orders give the
      same text if and only if the other creates none either. */
  lemma OrdersAgreeIff(ps: seq<Piece>, a: Binding, b: Binding)
    requires PlainPieces(ps) && Plain(a.name) && Plain(b.name) && a.name != b.name && CreatesNone(ps, b, a)
    ensures Passes(Flat(ps), [a, b]) == Passes(Flat(ps), [b, a]) <==> CreatesNone(ps, a, b)
  {
    hide PlainPieces, Plain, CreatesNone, Passes, Flat, FillAll;
    TwoPassesIff(ps, a, b);
    TwoPassesIff(ps, b, a);
    FillBoth(ps, a, b);
  }

  /** One pass over a text that is a single token. */
  lemma FillLone(token: string, name: string, value: string)
    requires Plain(token) && Plain(name)
    ensures Replaced(Braced(token), Braced(name), value) == if token == name then value else Braced(token)
  {
    PassFills([Token(token)], name, value);
    FlatOne(Token(token));
    FlatOne(FillOne(Token(token), name, value));
    assert Fill([Token(token)], name, value) == [FillOne(Token(token), name, value)];
    hide Replaced, Flat;
  }

  lemma FlatOne(p: Piece)
    ensures Flat([p]) == TextOf(p)
  {
    assert [p][1..] == [] && Flat([]) == "";
    match p
    case Literal(t) => assert t + "" == t;
    case Token(n) => assert Braced(n) + "" == Braced(n);
  }

  /** Passes for names that start differently leave a lone token alone. */
  lemma {:induction false} PassesSkip(token: string, bs: seq<Binding>, more: seq<Binding>)
    requires Plain(token) && |token| > 0
    requires forall i :: 0 <= i < |bs| ==> Plain(bs[i].name) && |bs[i].name| > 0 && bs[i].name[0] != token[0]
    ensures Passes(Braced(token), bs + more) == Passes(Braced(token), more)
    decreases |bs|
  {
    if |bs| == 0 {
      assert bs + more == more;
    } else {
      assert bs + more == [bs[0]] + (bs[1..] + more);
      PassesCons(Braced(token), bs[0], bs[1..] + more);
      FillLone(token, bs[0].name, bs[0].value);
      hide Replaced, Passes;
      PassesSkip(token, bs[1..], more);
    }
  }

  /** A lone metadata token is untouched by the five fixed passes. */
  lemma FixedPassesSkip(key: string, ctx: Context, more: seq<Binding>)
    requires Plain("metadata." + key)
    ensures Passes(Braced("metadata." + key), FixedBindings(ctx) + more) == Passes(Braced("metadata." + key), more)
  {
    assert ("metadata." + key)[0] == 'm';
    forall i | 0 <= i < 5 ensures var name := FixedBindings(ctx)[i].name; Plain(name) && |name| > 0 && name[0] != 'm' {
      FixedNameAt(ctx, i);
    }
    assert |FixedBindings(ctx)| == 5;
    hide Passes, Braced, FixedBindings, Plain;
    PassesSkip("metadata." + key, FixedBindings(ctx), more);
  }

  const REFERS := Binding("metadata.a", "{metadata.b}")
  const LETTER := Binding("metadata.b", "x")

  lemma MetadataOrders(metadata: map<string, string>)
    requires metadata == map["a" := "{metadata.b}", "b" := "x"]
    ensures Lists(["a", "b"], metadata) && Lists(["b", "a"], metadata)
    ensures MetadataBindings(metadata, ["a", "b"]) == [REFERS, LETTER]
    ensures MetadataBindings(metadata, ["b", "a"]) == [LETTER, REFERS]
  {
    var o1, o2 := ["a", "b"], ["b", "a"];
    assert o1[0] in o1 && o1[1] in o1 && o2[0] in o2 && o2[1] in o2;
    assert "metadata." + "a" == "metadata.a" && "metadata." + "b" == "metadata.b";
    hide MetadataBindings;
    MetadataAt(metadata, o1, 0);
    MetadataAt(metadata, o1, 1);
    MetadataAt(metadata, o2, 0);
    MetadataAt(metadata, o2, 1);
  }

  /** A prompt that depends on the metadata order, whatever the other fields are: one
      entry's value is the token of another entry. */
  lemma BracesMakeOrderMatter(ctx: Context)
    requires ctx.metadata == map["a" := "{metadata.b}", "b" := "x"]
    ensures Lists(["a", "b"], ctx.metadata) && Lists(["b", "a"], ctx.metadata)
    ensures Rendered("{metadata.a}", ctx, ["a", "b"]) == "x"
    ensures Rendered("{metadata.a}", ctx, ["b", "a"]) == "{metadata.b}"
  {
    MetadataOrders(ctx.metadata);
    var a, b := REFERS, LETTER;
    assert "metadata." + "a" == a.name && Plain(a.name) && Plain(b.name);
    assert Braced(a.name) == "{metadata.a}" && Braced(b.name) == "{metadata.b}";
    FixedPassesSkip("a", ctx, [a, b]);
    FixedPassesSkip("a", ctx, [b, a]);
    hide Replaced, Passes, FixedBindings, MetadataBindings;
    TwoPasses(Braced(a.name), a, b);
    TwoPasses(Braced(a.name), b, a);
    FillLone(a.name, a.name, a.value);
    FillLone(b.name, b.name, b.value);
    FillLone(a.name, b.name, b.value);
  }
}
