/** The fixed-window limiter of a connection. */
module RateLimiter {
  import opened Arithmetic

  datatype Limiter = Limiter(max: nat, window: int, used: nat, startedAt: int)

  function New(max: nat, window: int, now: int): Limiter { Limiter(max, window, 0, now) }

  function Rolled(l: Limiter, now: int): Limiter {
    if now - l.startedAt >= l.window then l.(startedAt := now, used := 0) else l
  }

  /** Whether a call at this time is allowed; a limit of 0 allows everything. */
  predicate Allows(l: Limiter, now: int) { l.max == 0 || Rolled(l, now).used < l.max }

  function Called(l: Limiter, now: int): Limiter {
    if l.max == 0 then l
    else var r := Rolled(l, now); if r.used < r.max then r.(used := r.used + 1) else r
  }

  /** How many of the calls made from time `a` on and before `b` are allowed. */
  function AllowedIn(l: Limiter, calls: seq<int>, a: int, b: int): nat
    decreases |calls|
  {
    if |calls| == 0 then 0
    else (if a <= calls[0] < b && Allows(l, calls[0]) then 1 else 0) + AllowedIn(Called(l, calls[0]), calls[1..], a, b)
  }

  /** The clock does not run backwards. */
  predicate InOrder(calls: seq<int>, from: int) {
    |calls| == 0 || (from <= calls[0] && InOrder(calls[1..], calls[0]))
  }

  ghost predicate Valid(l: Limiter) { l.max > 0 && l.window > 0 && l.used <= l.max }

  lemma {:induction false} NoneAfter(l: Limiter, calls: seq<int>, from: int, a: int, b: int)
    requires InOrder(calls, from) && b <= from
    ensures AllowedIn(l, calls, a, b) == 0
    decreases |calls|
  {
    if |calls| != 0 { NoneAfter(Called(l, calls[0]), calls[1..], calls[0], a, b); }
  }

  // ---------- the long run ----------

  /** What one more window is worth. */
  lemma WindowsPassed(s: int, x: int, t: int, w: int, m: nat, used: nat)
    requires w > 0 && x - s >= w && x <= t && used <= m
    ensures m * ((t - x) / w + 1) <= m * ((t - s) / w + 1) - used
  {
    var k, n := (t - x) / w, (t - s) / w;
    assert k + 1 <= n by { QuotientsApart(t - x, t - s, w); }
    MulMonotone(k + 2, n + 1, m);
    assert m * (k + 2) == m * (k + 1) + m;
  }

  lemma QuotientsApart(a: int, b: int, w: int)
    requires w > 0 && 0 <= a && a + w <= b
    ensures a / w + 1 <= b / w
  {
    DivStep(a + w, w);
    Quotients(a + w, b, w);
  }

  lemma Quotients(a: int, b: int, w: int)
    requires w > 0 && 0 <= a <= b
    ensures a / w <= b / w
  {
    var p, q := a / w, b / w;
    assert a == p * w + a % w && b == q * w + b % w;
    assert (q + 1) * w == q * w + w;
    if q < p { MulMonotone(q + 1, p, w); }
  }

  lemma {:induction false} AllowedUntil(l: Limiter, calls: seq<int>, from: int, t: int)
    requires Valid(l) && l.startedAt <= from <= t && InOrder(calls, from)
    ensures AllowedIn(l, calls, from, t + 1) <= l.max * ((t - l.startedAt) / l.window + 1) - l.used
    decreases |calls|
  {
    var m, w, s := l.max, l.window, l.startedAt;
    if |calls| == 0 {
      AtLeastOneWindow(m, t - s, w);
    } else {
      var x := calls[0];
      if x > t {
        NoneAfter(Called(l, x), calls[1..], x, from, t + 1);
        AtLeastOneWindow(m, t - s, w);
      } else {
        LaterStart(Called(l, x), calls[1..], from, x, t + 1);
        AllowedUntil(Called(l, x), calls[1..], x, t);
        if x - s >= w { WindowsPassed(s, x, t, w, m, l.used); }
      }
    }
  }

  lemma AtLeastOneWindow(m: nat, d: int, w: int)
    requires w > 0 && d >= 0
    ensures m <= m * (d / w + 1)
  {
    Quotients(0, d, w);
    MulMonotone(1, d / w + 1, m);
  }

  lemma {:induction false} LaterStart(l: Limiter, calls: seq<int>, a: int, from: int, b: int)
    requires InOrder(calls, from) && a <= from
    ensures AllowedIn(l, calls, a, b) == AllowedIn(l, calls, from, b)
    decreases |calls|
  {
    if |calls| != 0 {
      LaterStart(Called(l, calls[0]), calls[1..], a, calls[0], b);
      LaterStart(Called(l, calls[0]), calls[1..], from, calls[0], b);
    }
  }

  /** From construction at t0 to any time t, at most max * (floor((t - t0) / window) + 1)
      calls are allowed. */
  lemma LongRunBound(max: nat, window: int, t0: int, calls: seq<int>, t: int)
    requires max > 0 && window > 0 && t0 <= t && InOrder(calls, t0)
    ensures AllowedIn(New(max, window, t0), calls, t0, t + 1) <= max * ((t - t0) / window + 1)
  {
    AllowedUntil(New(max, window, t0), calls, t0, t);
  }

  // ---------- any interval of one window ----------

  /** Once a window has started inside the interval, the next one starts after it. */
  lemma {:induction false} RestOfWindow(l: Limiter, calls: seq<int>, from: int, a: int)
    requires Valid(l) && a <= l.startedAt <= from && InOrder(calls, from)
    ensures AllowedIn(l, calls, a, a + l.window) <= l.max - l.used
    decreases |calls|
  {
    if |calls| != 0 {
      var x := calls[0];
      if x < a + l.window {
        RestOfWindow(Called(l, x), calls[1..], x, a);
      } else {
        NoneAfter(Called(l, x), calls[1..], x, a, a + l.window);
      }
    }
  }

  lemma {:induction false} FromInterval(l: Limiter, calls: seq<int>, from: int, a: int)
    requires Valid(l) && a <= from && InOrder(calls, from)
    ensures AllowedIn(l, calls, a, a + l.window) <= 2 * l.max - l.used
    decreases |calls|
  {
    if |calls| != 0 {
      var x := calls[0];
      if x - l.startedAt >= l.window {
        RestOfWindow(Called(l, x), calls[1..], x, a);
      } else {
        FromInterval(Called(l, x), calls[1..], x, a);
      }
    }
  }

  /** Any half-open interval as long as the window contains at most twice the limit of
      allowed calls, wherever it lies and whatever came before. */
  lemma {:induction false} AnyWindowBound(l: Limiter, calls: seq<int>, from: int, a: int)
    requires Valid(l) && InOrder(calls, from)
    ensures AllowedIn(l, calls, a, a + l.window) <= 2 * l.max
    decreases |calls|
  {
    if |calls| != 0 {
      if calls[0] < a {
        AnyWindowBound(Called(l, calls[0]), calls[1..], calls[0], a);
      } else {
        FromInterval(l, calls, calls[0], a);
      }
    }
  }

  function Times(n: nat, x: int): seq<int> { if n == 0 then [] else [x] + Times(n - 1, x) }

  /** Calls at one moment inside the current window use up what is left of the limit. */
  lemma {:induction false} Burst(l: Limiter, n: nat, x: int, more: seq<int>, a: int, b: int)
    requires Valid(l) && x - l.startedAt < l.window && l.used + n <= l.max && a <= x < b
    ensures AllowedIn(l, Times(n, x) + more, a, b) == n + AllowedIn(l.(used := l.used + n), more, a, b)
    decreases n
  {
    if n == 0 {
      assert [] + more == more;
    } else {
      assert (Times(n, x) + more)[0] == x && (Times(n, x) + more)[1..] == Times(n - 1, x) + more;
      Burst(l.(used := l.used + 1), n - 1, x, more, a, b);
    }
  }

  lemma {:induction false} TimesInOrder(n: nat, x: int, more: seq<int>, from: int)
    requires from <= x && InOrder(more, x)
    ensures InOrder(Times(n, x) + more, from)
  {
    if n == 0 {
      assert [] + more == more;
      LaterOrder(more, from, x);
    } else {
      assert (Times(n, x) + more)[0] == x && (Times(n, x) + more)[1..] == Times(n - 1, x) + more;
      TimesInOrder(n - 1, x, more, x);
    }
  }

  lemma LaterOrder(calls: seq<int>, from: int, x: int)
    requires from <= x && InOrder(calls, x)
    ensures InOrder(calls, from)
  {
  }

  /** The bound is met: a burst at the end of one window and one at the start of the
      next are both allowed in full. */
  lemma TwiceIsReached(max: nat, window: int, t0: int)
    requires max > 0 && window > 1
    ensures var calls := Times(max, t0 + window - 1) + Times(max, t0 + window);
      && InOrder(calls, t0)
      && AllowedIn(New(max, window, t0), calls, t0 + window - 1, t0 + window - 1 + window) == 2 * max
  {
    var l, x, y := New(max, window, t0), t0 + window - 1, t0 + window;
    TimesInOrder(max, y, [], y);
    assert Times(max, y) + [] == Times(max, y);
    LaterOrder(Times(max, y), x, y);
    TimesInOrder(max, x, Times(max, y), t0);
    Burst(l, max, x, Times(max, y), x, x + window);
    var full := l.(used := max);
    var rolled := l.(used := 1, startedAt := y);
    assert Times(max, y) == [y] + Times(max - 1, y) && ([y] + Times(max - 1, y))[1..] == Times(max - 1, y);
    assert Called(full, y) == rolled;
    Burst(rolled, max - 1, y, [], x, x + window);
    assert Times(max - 1, y) + [] == Times(max - 1, y);
  }

  /** A window of a single tick never covers two moments. */
  lemma {:induction false} OneInstant(l: Limiter, calls: seq<int>, from: int, a: int)
    requires Valid(l) && l.window == 1 && l.startedAt <= from && InOrder(calls, from)
    ensures AllowedIn(l, calls, a, a + 1) <= l.max
    decreases |calls|
  {
    if |calls| != 0 {
      var x := calls[0];
      if x < a {
        OneInstant(Called(l, x), calls[1..], x, a);
      } else if l.startedAt >= a {
        RestOfWindow(l, calls, from, a);
      } else if x < a + 1 {
        RestOfWindow(Called(l, x), calls[1..], x, a);
      } else {
        NoneAfter(Called(l, x), calls[1..], x, a, a + 1);
      }
    }
  }

  /** The interval of one window from `a` on contains no more allowed calls than the limit. */
  ghost predicate HoldsFrom(max: nat, window: int, t0: int, calls: seq<int>, a: int) {
    AllowedIn(New(max, window, t0), calls, a, a + window) <= max
  }

  ghost predicate HoldsEverywhere(max: nat, window: int, t0: int) {
    forall calls, a :: InOrder(calls, t0) ==> HoldsFrom(max, window, t0, calls, a)
  }

  /** That is so for every interval if and only if the window is a single tick of the
      clock. */
  lemma LimitHoldsIff(max: nat, window: int, t0: int)
    requires max > 0 && window > 0
    ensures HoldsEverywhere(max, window, t0) <==> window == 1
  {
    if window == 1 {
      forall calls, a | InOrder(calls, t0) ensures HoldsFrom(max, window, t0, calls, a) {
        OneInstant(New(max, window, t0), calls, t0, a);
      }
    } else {
      TwiceIsReached(max, window, t0);
      var calls, a := Times(max, t0 + window - 1) + Times(max, t0 + window), t0 + window - 1;
      assert InOrder(calls, t0) && !HoldsFrom(max, window, t0, calls, a);
    }
  }

  // ---------- nothing is refused without need ----------

  function After(l: Limiter, calls: seq<int>): Limiter
    decreases |calls|
  {
    if |calls| == 0 then l else After(Called(l, calls[0]), calls[1..])
  }

  /** What the limiter has counted are calls allowed since its window started. */
  lemma {:induction false} CountedSince(l: Limiter, calls: seq<int>, from: int, b: int)
    requires Valid(l) && l.startedAt <= from && InOrder(calls, from)
    requires forall i :: 0 <= i < |calls| ==> calls[i] < b
    ensures var l' := After(l, calls); var n := AllowedIn(l, calls, l'.startedAt, b);
      && l'.max == l.max && l'.window == l.window && l.startedAt <= l'.startedAt
      && l'.used <= if l'.startedAt == l.startedAt then n + l.used else n
    decreases |calls|
  {
    if |calls| != 0 {
      var x := calls[0];
      var l1 := Called(l, x);
      assert forall i :: 0 <= i < |calls[1..]| ==> calls[1..][i] == calls[i + 1];
      CountedSince(l1, calls[1..], x, b);
    }
  }

  lemma {:induction false} WiderCounts(l: Limiter, calls: seq<int>, a: int, a': int, b: int)
    requires a' <= a
    ensures AllowedIn(l, calls, a, b) <= AllowedIn(l, calls, a', b)
    decreases |calls|
  {
    if |calls| != 0 { WiderCounts(Called(l, calls[0]), calls[1..], a, a', b); }
  }

  predicate AllUpTo(calls: seq<int>, x: int) { forall i :: 0 <= i < |calls| ==> calls[i] <= x }

  /** A call is refused only if the full number of calls has been allowed within the
      window's length up to it. */
  lemma RefusedOnlyWhenFull(max: nat, window: int, t0: int, calls: seq<int>, x: int)
    requires max > 0 && window > 0 && t0 <= x && InOrder(calls, t0) && AllUpTo(calls, x)
    requires !Allows(After(New(max, window, t0), calls), x)
    ensures AllowedIn(New(max, window, t0), calls, x - window + 1, x + 1) >= max
  {
    var l := New(max, window, t0);
    var l' := After(l, calls);
    CountedSince(l, calls, t0, x + 1);
    WiderCounts(l, calls, l'.startedAt, x - window + 1, x + 1);
  }

  /** A limit of 0 means no limit: every call in the interval is allowed. */
  lemma {:induction false} ZeroIsUnlimited(l: Limiter, calls: seq<int>, a: int, b: int)
    requires l.max == 0 && forall i :: 0 <= i < |calls| ==> a <= calls[i] < b
    ensures AllowedIn(l, calls, a, b) == |calls|
    decreases |calls|
  {
    if |calls| != 0 { ZeroIsUnlimited(Called(l, calls[0]), calls[1..], a, b); }
  }

  class ConnectionLimiter {
    const maxEvents: nat
    const window: int
    var usedEvents: nat
    var windowStartedAt: int

    ghost function View(): Limiter
      reads this
    {
      Limiter(maxEvents, window, usedEvents, windowStartedAt)
    }

    constructor (maxEvents: nat, window: int, now: int)
      ensures View() == New(maxEvents, window, now)
    {
      this.maxEvents, this.window := maxEvents, window;
      usedEvents, windowStartedAt := 0, now;
    }

    method Allow(now: int) returns (ok: bool)
      modifies this
      ensures ok == Allows(old(View()), now) && View() == Called(old(View()), now)
    {
      if maxEvents == 0 { return true; }
      if now - windowStartedAt >= window {
        windowStartedAt := now;
        usedEvents := 0;
      }
      if usedEvents >= maxEvents { return false; }
      usedEvents := usedEvents + 1;
      ok := true;
    }

    method Reset(now: int)
      modifies this
      ensures View() == New(maxEvents, window, now)
    {
      usedEvents := 0;
      windowStartedAt := now;
    }
  }
}
