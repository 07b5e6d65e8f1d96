/** Shared vocabulary: optional values and the order-preserving selection that
    models the erase/remove_if idiom used by every service. */
module Common {

  datatype Option<+T> = None | Some(value: T)

  const TWO_TO_THE_32 := 0x1_0000_0000

  /** The elements of `s` that satisfy `keep`, in their original order. */
  function Filter<T(!new)>(s: seq<T>, keep: T -> bool): (r: seq<T>)
    ensures |r| <= |s|
    ensures forall x {:trigger x in r} :: x in r <==> x in s && keep(x)
  {
    if |s| == 0 then []
    else if keep(s[0]) then [s[0]] + Filter(s[1..], keep)
    else Filter(s[1..], keep)
  }

  /** The first position whose element satisfies `found`, or `|s|` if there is none. */
  function FirstIndex<T>(s: seq<T>, found: T -> bool): (i: nat)
    ensures i <= |s|
    ensures i < |s| ==> found(s[i])
    ensures forall j :: 0 <= j < i ==> !found(s[j])
  {
    if |s| == 0 || found(s[0]) then 0 else 1 + FirstIndex(s[1..], found)
  }

  lemma {:induction false} FilterAppend<T(!new)>(a: seq<T>, b: seq<T>, keep: T -> bool)
    ensures Filter(a + b, keep) == Filter(a, keep) + Filter(b, keep)
  {
    if |a| == 0 {
      assert a + b == b;
    } else {
      assert (a + b)[1..] == a[1..] + b;
      FilterAppend(a[1..], b, keep);
    }
  }

  /** Two selections in a row are one selection by both conditions. */
  lemma {:induction false} FilterTwice<T(!new)>(s: seq<T>, f: T -> bool, g: T -> bool, both: T -> bool)
    requires forall x :: x in s ==> (both(x) <==> f(x) && g(x))
    ensures Filter(Filter(s, f), g) == Filter(s, both)
  {
    if |s| != 0 {
      FilterTwice(s[1..], f, g, both);
      assert s[0] in s;
    }
  }

  /** Selections that agree on the elements at hand are the same. */
  lemma {:induction false} FilterSame<T(!new)>(s: seq<T>, f: T -> bool, g: T -> bool)
    requires forall x :: x in s ==> (f(x) <==> g(x))
    ensures Filter(s, f) == Filter(s, g)
  {
    if |s| != 0 {
      FilterSame(s[1..], f, g);
      assert s[0] in s;
    }
  }

  lemma {:induction false} FilterAll<T(!new)>(s: seq<T>, f: T -> bool)
    requires forall x :: x in s ==> f(x)
    ensures Filter(s, f) == s
  {
    if |s| != 0 {
      FilterAll(s[1..], f);
      assert s[0] in s;
    }
  }

  lemma {:induction false} FilterNone<T(!new)>(s: seq<T>, f: T -> bool)
    requires forall x :: x in s ==> !f(x)
    ensures Filter(s, f) == []
  {
    if |s| != 0 {
      assert s[0] in s;
      FilterNone(s[1..], f);
    }
  }

  /** A condition that fails on a prefix and holds after it selects the suffix. */
  lemma {:induction false} FilterSuffix<T(!new)>(s: seq<T>, k: nat, f: T -> bool)
    requires k <= |s|
    requires forall i :: 0 <= i < k ==> !f(s[i])
    requires forall i :: k <= i < |s| ==> f(s[i])
    ensures Filter(s, f) == s[k..]
  {
    if |s| != 0 {
      FilterSuffix(s[1..], if k == 0 then 0 else k - 1, f);
    }
  }

  /** A condition that holds on a prefix and fails after it selects the prefix. */
  lemma {:induction false} FilterPrefix<T(!new)>(s: seq<T>, k: nat, f: T -> bool)
    requires k <= |s|
    requires forall i :: 0 <= i < k ==> f(s[i])
    requires forall i :: k <= i < |s| ==> !f(s[i])
    ensures Filter(s, f) == s[..k]
  {
    if |s| != 0 {
      FilterPrefix(s[1..], if k == 0 then 0 else k - 1, f);
      if k != 0 { assert s[..k] == [s[0]] + s[1..][..k - 1]; }
    }
  }

  /** Dropping at least one element makes the selection shorter. */
  lemma {:induction false} FilterShorter<T(!new)>(s: seq<T>, f: T -> bool, i: nat)
    requires i < |s| && !f(s[i])
    ensures |Filter(s, f)| < |s|
  {
    if i != 0 { FilterShorter(s[1..], f, i - 1); }
  }

  function Not<T>(f: T -> bool): T -> bool { (x: T) => !f(x) }

  lemma MultisetCons<T>(x: T, a: seq<T>)
    ensures multiset([x] + a) == multiset{x} + multiset(a)
  {
  }

  /** A selection and its complement together hold exactly the original elements. */
  lemma {:induction false} FilterSplits<T(!new)>(s: seq<T>, f: T -> bool)
    ensures multiset(s) == multiset(Filter(s, f)) + multiset(Filter(s, Not(f)))
  {
    if |s| != 0 {
      FilterSplits(s[1..], f);
      assert s == [s[0]] + s[1..];
      MultisetCons(s[0], s[1..]);
      MultisetCons(s[0], Filter(s[1..], f));
      MultisetCons(s[0], Filter(s[1..], Not(f)));
    }
  }

  lemma {:induction false} SubsetSize<T>(a: set<T>, b: set<T>)
    requires a <= b
    ensures |a| <= |b|
    decreases a
  {
    if a != {} {
      var x :| x in a;
      SubsetSize(a - {x}, b - {x});
    }
  }

  // ---------- sequences ----------

  function Flatten<T>(parts: seq<seq<T>>): seq<T> {
    if |parts| == 0 then [] else parts[0] + Flatten(parts[1..])
  }

  lemma Associate<T>(a: seq<T>, b: seq<T>, c: seq<T>)
    ensures (a + b) + c == a + (b + c)
  {
  }

  lemma NothingBefore<T>(s: seq<T>)
    ensures [] + s == s
  {
  }

  lemma NothingAfter<T>(s: seq<T>)
    ensures s + [] == s
  {
  }
}
