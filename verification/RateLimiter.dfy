// The Proton request pacer: a shared slot counter advanced under a lock. Instants and
// durations are whole nanoseconds; instants count from Go's zero time.
module RateLimiter {

  const MINUTE: int := 60_000_000_000

  function Max(a: int, b: int): int {
    if a >= b then a else b
  }

  // The field `next` after arrivals a, in lock order, on a limiter that starts at first.
  function Next(first: int, interval: nat, a: seq<int>): int {
    if a == [] then first
    else Max(a[|a| - 1], Next(first, interval, a[..|a| - 1])) + interval
  }

  // The slot granted to the last of the arrivals.
  function Slot(first: int, interval: nat, a: seq<int>): int
    requires a != []
  {
    Max(a[|a| - 1], Next(first, interval, a[..|a| - 1]))
  }

  function Slots(first: int, interval: nat, a: seq<int>): (r: seq<int>)
    ensures |r| == |a|
  {
    if a == [] then [] else Slots(first, interval, a[..|a| - 1]) + [Slot(first, interval, a)]
  }

  // ---- The code ---------------------------------------------------------------------

  class Limiter {
    const interval: nat
    var next: int
    ghost var arrivals: seq<int>

    // next is what the arrivals so far have made of it, cancelled or not.
    ghost predicate Valid()
      reads this
    {
      next == Next(0, interval, arrivals)
    }

    constructor (interval: nat)
      ensures this.interval == interval && next == 0 && arrivals == [] && Valid()
    {
      this.interval := interval;
      next := 0;
      arrivals := [];
    }

    // The critical section of wait: one clock reading, one slot.
    method Reserve(now: int) returns (start: int)
      requires Valid()
      modifies this`next, this`arrivals
      ensures Valid()
      ensures arrivals == old(arrivals) + [now]
      ensures start == Slot(0, interval, arrivals)
    {
      start := next;
      if start < now {
        start := now;
      }
      next := start + interval;
      ghost var before := arrivals;
      arrivals := arrivals + [now];
      assert arrivals[..|arrivals| - 1] == before;
    }
  }

  method NewRateLimiter(perMinute: int) returns (l: Limiter?)
    ensures l == null <==> perMinute <= 0
    ensures l != null ==> fresh(l) && l.Valid() && l.arrivals == [] && l.interval == MINUTE / perMinute
  {
    if perMinute <= 0 {
      return null;
    }
    l := new Limiter(MINUTE / perMinute);
  }

  // wait: `now` is the clock under the lock, `later` the clock after it, and `cancelled`
  // says that the context ends before the timer fires. A cancelled caller has already
  // consumed its slot.
  method Wait(l: Limiter?, now: int, later: int, cancelled: bool) returns (granted: bool)
    requires l != null ==> l.Valid()
    modifies if l == null then {} else {l}
    ensures l == null ==> granted
    ensures l != null ==>
              && l.Valid() && l.arrivals == old(l.arrivals) + [now]
              && (granted <==> later >= Slot(0, l.interval, l.arrivals) || !cancelled)
  {
    if l == null {
      return true;
    }
    var start := l.Reserve(now);
    var delay := start - later;
    if delay <= 0 {
      return true;
    }
    return !cancelled;
  }

  // ---- Optimality -------------------------------------------------------------------

  lemma NextLast(first: int, interval: nat, a: seq<int>, x: int)
    ensures Next(first, interval, a + [x]) == Max(x, Next(first, interval, a)) + interval
    ensures Slot(first, interval, a + [x]) == Max(x, Next(first, interval, a))
    ensures Slots(first, interval, a + [x]) == Slots(first, interval, a) + [Slot(first, interval, a + [x])]
  {
    assert (a + [x])[..|a|] == a;
  }

  // Closed form: the last of n slots is the latest of first + (n-1)I and a_i + (n-1-i)I.
  lemma {:induction false} SlotClosedForm(first: int, interval: nat, a: seq<int>)
    requires a != []
    ensures var s, n := Slot(first, interval, a), |a| - 1;
            && s >= first + n * interval
            && (forall i | 0 <= i <= n :: s >= a[i] + (n - i) * interval)
            && (s == first + n * interval || exists i :: 0 <= i <= n && s == a[i] + (n - i) * interval)
  {
    var s, n := Slot(first, interval, a), |a| - 1;
    if n == 0 {
      assert Next(first, interval, a[..0]) == first;
      assert s == first || s == a[0] + (0 - 0) * interval;
    } else {
      var b := a[..n];
      var t := Slot(first, interval, b);
      SlotClosedForm(first, interval, b);
      assert s == Max(a[n], t + interval);
      forall i | 0 <= i <= n ensures s >= a[i] + (n - i) * interval {
        if i < n {
          OneMore(n - 1 - i, interval);
          assert t >= b[i] + (n - 1 - i) * interval;
        }
      }
      OneMore(n - 1, interval);
      if s == a[n] {
        assert s == a[n] + (n - n) * interval;
      } else if t != first + (n - 1) * interval {
        var i :| 0 <= i <= n - 1 && t == b[i] + (n - 1 - i) * interval;
        OneMore(n - 1 - i, interval);
        assert s == a[i] + (n - i) * interval;
      }
    }
  }

  lemma OneMore(k: int, interval: int)
    ensures (k + 1) * interval == k * interval + interval
  {
  }

  // A schedule serves the arrivals in lock order, none before it arrives or before first,
  // and at least interval apart.
  ghost predicate Feasible(first: int, interval: nat, a: seq<int>, s: seq<int>) {
    && |s| == |a|
    && (forall i | 0 <= i < |a| :: s[i] >= a[i])
    && (a != [] ==> s[0] >= first)
    && (forall i | 0 < i < |a| :: s[i] >= s[i - 1] + interval)
  }

  lemma {:induction false} SlotsFeasible(first: int, interval: nat, a: seq<int>)
    ensures Feasible(first, interval, a, Slots(first, interval, a))
    ensures a != [] ==> Next(first, interval, a) == Slots(first, interval, a)[|a| - 1] + interval
  {
    if a != [] {
      SlotsFeasible(first, interval, a[..|a| - 1]);
    }
  }

  // No schedule serves anyone earlier.
  lemma {:induction false} SlotsEarliest(first: int, interval: nat, a: seq<int>, s: seq<int>, n: nat)
    requires Feasible(first, interval, a, s) && n < |a|
    ensures Slots(first, interval, a)[n] <= s[n]
  {
    var b, t := a[..|a| - 1], s[..|a| - 1];
    assert Feasible(first, interval, b, t);
    if n < |b| {
      SlotsEarliest(first, interval, b, t, n);
    } else if b != [] {
      SlotsEarliest(first, interval, b, t, |b| - 1);
      SlotsFeasible(first, interval, b);
    }
  }

  // ---- Windows ----------------------------------------------------------------------

  function CountIn(s: seq<int>, lo: int, hi: int): nat {
    if s == [] then 0
    else CountIn(s[..|s| - 1], lo, hi) + if lo <= s[|s| - 1] < hi then 1 else 0
  }

  // The k-th slot inside a window opening at lo is at least (k-1) intervals into it.
  lemma {:induction false} CountReaches(first: int, interval: nat, a: seq<int>, s: seq<int>, lo: int, hi: int)
    requires Feasible(first, interval, a, s)
    ensures var k := CountIn(s, lo, hi);
            k > 0 ==> s[|s| - 1] >= lo + (k - 1) * interval && (k - 1) * interval < hi - lo
    decreases |s|
  {
    if s != [] {
      var b, t := a[..|a| - 1], s[..|s| - 1];
      assert Feasible(first, interval, b, t);
      CountReaches(first, interval, b, t, lo, hi);
      var k := CountIn(t, lo, hi);
      if k > 0 {
        OneMore(k - 1, interval);
        assert s[|s| - 1] >= t[|t| - 1] + interval;
      }
    }
  }

  // Slots granted in [lo, lo + width).
  function InWindow(first: int, interval: nat, a: seq<int>, lo: int, width: nat): nat {
    CountIn(Slots(first, interval, a), lo, lo + width)
  }

  function WindowCapacity(interval: nat, width: nat): nat
    requires interval > 0 && width > 0
  {
    (width - 1) / interval + 1
  }

  // Any half-open window of length width holds at most (width-1)/interval + 1 slots.
  lemma WindowBound(first: int, interval: nat, a: seq<int>, lo: int, width: nat)
    requires interval > 0 && width > 0
    ensures InWindow(first, interval, a, lo, width) <= WindowCapacity(interval, width)
  {
    var k := InWindow(first, interval, a, lo, width);
    SlotsFeasible(first, interval, a);
    CountReaches(first, interval, a, Slots(first, interval, a), lo, lo + width);
    if k > 0 {
      QuotientBound(k - 1, interval, width - 1);
    }
  }

  lemma QuotientBound(k: nat, d: nat, n: nat)
    requires d > 0 && k * d <= n
    ensures k <= n / d
  {
    QuotientRemainder(n, d);
    CancelFactor(k, n / d, d);
  }

  lemma QuotientRemainder(n: nat, d: nat)
    requires d > 0
    ensures n < (n / d + 1) * d
  {
    assert n == n / d * d + n % d;
    OneMore(n / d, d);
  }

  lemma CancelFactor(k: nat, q: nat, d: nat)
    requires k * d < (q + 1) * d
    ensures k <= q
  {
    MulMonotone(q + 1, Max(k, q + 1), d);
  }

  lemma MulMonotone(a: nat, b: nat, d: nat)
    requires a <= b
    ensures a * d <= b * d
  {
    assert b * d == a * d + (b - a) * d;
  }

  lemma QuotientBelow(k: nat, d: nat, n: nat)
    requires d > 0 && n < k * d
    ensures n / d < k
  {
  }

  // A burst of n simultaneous arrivals on a fresh limiter.
  function Burst(n: nat): seq<int> {
    seq(n, _ => 0)
  }

  lemma {:induction false} BurstSlots(interval: nat, n: nat)
    ensures Next(0, interval, Burst(n)) == n * interval
    ensures forall i | 0 <= i < n :: Slots(0, interval, Burst(n))[i] == i * interval
  {
    if n > 0 {
      assert Burst(n) == Burst(n - 1) + [0];
      BurstSlots(interval, n - 1);
      NextLast(0, interval, Burst(n - 1), 0);
      assert (n - 1) * interval >= 0;
      OneMore(n - 1, interval);
    }
  }

  lemma {:induction false} CountAll(s: seq<int>, lo: int, hi: int)
    requires forall i | 0 <= i < |s| :: lo <= s[i] < hi
    ensures CountIn(s, lo, hi) == |s|
  {
    if s != [] {
      CountAll(s[..|s| - 1], lo, hi);
    }
  }

  lemma Multiples(i: nat, m: nat, d: nat, n: nat)
    requires d > 0 && i <= m && m <= n / d
    ensures i * d <= n
  {
    MulMonotone(i, m, d);
    MulMonotone(m, n / d, d);
  }

  // The bound is attained: a large enough burst fills the first window.
  lemma BurstFills(interval: nat, width: nat)
    requires interval > 0 && width > 0
    ensures InWindow(0, interval, Burst(WindowCapacity(interval, width)), 0, width) == WindowCapacity(interval, width)
  {
    var n := WindowCapacity(interval, width);
    var s := Slots(0, interval, Burst(n));
    BurstSlots(interval, n);
    forall i | 0 <= i < n ensures 0 <= s[i] < width {
      assert s[i] == i * interval;
      Multiples(i, n - 1, interval, width - 1);
    }
    CountAll(s, 0, width);
  }

  ghost predicate AtMostPerMinute(interval: nat, p: nat) {
    forall a, lo :: InWindow(0, interval, a, lo, MINUTE) <= p
  }

  lemma IntervalOf(p: nat)
    requires 0 < p <= MINUTE
    ensures MINUTE / p > 0 && MINUTE == p * (MINUTE / p) + MINUTE % p
  {
  }

  // WindowCapacity is p when p divides a minute, and more otherwise.
  lemma CapacityOfRate(p: nat)
    requires 0 < p <= MINUTE
    ensures MINUTE / p > 0
    ensures MINUTE % p == 0 <==> WindowCapacity(MINUTE / p, MINUTE) <= p
  {
    IntervalOf(p);
    if MINUTE % p == 0 {
      QuotientBelow(p, MINUTE / p, MINUTE - 1);
    } else {
      QuotientBound(p, MINUTE / p, MINUTE - 1);
    }
  }

  // A rate of more than one request per nanosecond rounds to no spacing at all.
  lemma NoSpacing(p: nat)
    requires p > MINUTE
    ensures MINUTE / p == 0 && MINUTE % p != 0
    ensures InWindow(0, 0, Burst(p + 1), 0, MINUTE) > p
  {
    BurstSlots(0, p + 1);
    CountAll(Slots(0, 0, Burst(p + 1)), 0, MINUTE);
  }

  // The advertised rate - p requests in any minute - is kept for every arrival pattern
  // exactly when p divides a minute; otherwise a burst gets more than p through.
  lemma RateKeptExactly(p: nat)
    requires p > 0
    ensures AtMostPerMinute(MINUTE / p, p) <==> MINUTE % p == 0
  {
    var interval := MINUTE / p;
    if p > MINUTE {
      NoSpacing(p);
    } else if MINUTE % p == 0 {
      CapacityOfRate(p);
      forall a, lo ensures InWindow(0, interval, a, lo, MINUTE) <= p {
        WindowBound(0, interval, a, lo, MINUTE);
      }
    } else {
      CapacityOfRate(p);
      BurstFills(interval, MINUTE);
      var burst := Burst(WindowCapacity(interval, MINUTE));
      assert InWindow(0, interval, burst, 0, MINUTE) > p;
    }
  }

  // For ordinary rates the excess is at most one request a minute.
  lemma RateExcess(p: nat, a: seq<int>, lo: int)
    requires 0 < p <= MINUTE / p
    ensures InWindow(0, MINUTE / p, a, lo, MINUTE) <= p + 1
  {
    var interval := MINUTE / p;
    IntervalAtMost(p);
    IntervalOf(p);
    WindowBound(0, interval, a, lo, MINUTE);
    OneMore(p, interval);
    QuotientBelow(p + 1, interval, MINUTE - 1);
  }

  lemma IntervalAtMost(p: nat)
    requires 0 < p <= MINUTE / p
    ensures p <= MINUTE
  {
  }
}
