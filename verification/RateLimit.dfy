/** The fixed hourly rate window of internal/server/server.go. */
module RateLimit {
  import opened Common

  datatype Window = Window(hour: int, count: int)

  /** One call that reached the window: the caller's limit, the hour read from the clock, the request. */
  datatype Call = Call(limit: int, hour: int, id: nat)

  /** `clock().Unix() / 3600`, truncating. */
  function HourOf(unix: int): int { TruncDiv(unix, 3600) }

  /** One pass through the locked part of `allowRate`: the window afterwards, and whether a slot was free. */
  function Admit(win: Option<Window>, limit: int, hour: int): (Window, bool) {
    var w := if win.None? || win.value.hour != hour then Window(hour, 0) else win.value;
    if w.count >= limit then (w, false) else (w.(count := w.count + 1), true)
  }

  /** The window after a run of calls, in lock order. */
  function After(calls: seq<Call>): Option<Window> {
    if calls == [] then None
    else
      var last := calls[|calls| - 1];
      Some(Admit(After(calls[..|calls| - 1]), last.limit, last.hour).0)
  }

  /** Call `k` got a slot. */
  predicate Allowed(calls: seq<Call>, k: int)
    requires 0 <= k < |calls|
  {
    Admit(After(calls[..k]), calls[k].limit, calls[k].hour).1
  }

  /** Where the block of same-hour calls that ends just before `n` begins. */
  function BlockStart(calls: seq<Call>, n: nat): (start: nat)
    requires n <= |calls|
    ensures start <= n && (n > 0 ==> start < n)
  {
    if n == 0 then 0
    else if n == 1 || calls[n - 2].hour != calls[n - 1].hour then n - 1
    else BlockStart(calls, n - 1)
  }

  /** How many of the calls in `[lo, hi)` got a slot. */
  ghost function SlotsIn(calls: seq<Call>, lo: nat, hi: nat): nat
    requires hi <= |calls|
  {
    if hi <= lo then 0 else SlotsIn(calls, lo, hi - 1) + if Allowed(calls, hi - 1) then 1 else 0
  }

  /** The calls of hour `h` that got a slot. */
  ghost function AllowedAt(calls: seq<Call>, h: int): set<int> {
    set k | 0 <= k < |calls| && calls[k].hour == h && Allowed(calls, k)
  }

  ghost predicate Limited(calls: seq<Call>) {
    forall k :: 0 <= k < |calls| ==> calls[k].limit > 0
  }

  ghost predicate Uniform(calls: seq<Call>, limit: int) {
    forall k :: 0 <= k < |calls| ==> calls[k].limit == limit
  }

  function Min(a: int, b: int): int { if a < b then a else b }

  // ----- what the window counts --------------------------------------------

  lemma {:induction false} BlockSameHour(calls: seq<Call>, n: nat)
    requires 0 < n <= |calls|
    ensures var a := BlockStart(calls, n);
            && (forall k :: a <= k < n ==> calls[k].hour == calls[n - 1].hour)
            && (a > 0 ==> calls[a - 1].hour != calls[a].hour)
  {
    if n > 1 && calls[n - 2].hour == calls[n - 1].hour {
      BlockSameHour(calls, n - 1);
    }
  }

  lemma {:induction false} BlockStartPrefix(calls: seq<Call>, m: nat, n: nat)
    requires n <= m <= |calls|
    ensures BlockStart(calls[..m], n) == BlockStart(calls, n)
  {
    if n > 1 && calls[n - 2].hour == calls[n - 1].hour {
      BlockStartPrefix(calls, m, n - 1);
    }
  }

  lemma {:induction false} SlotsInPrefix(calls: seq<Call>, m: nat, lo: nat, hi: nat)
    requires hi <= m <= |calls|
    ensures SlotsIn(calls[..m], lo, hi) == SlotsIn(calls, lo, hi)
  {
    if lo < hi {
      SlotsInPrefix(calls, m, lo, hi - 1);
      assert calls[..m][..hi - 1] == calls[..hi - 1];
    }
  }

  /** Whatever the limits, the count is the number of slots given since the window was opened. */
  lemma {:induction false} WindowCounts(calls: seq<Call>)
    requires calls != [] && Limited(calls)
    ensures After(calls) ==
            Some(Window(calls[|calls| - 1].hour, SlotsIn(calls, BlockStart(calls, |calls|), |calls|)))
  {
    var n := |calls|;
    var init, last, a := calls[..n - 1], calls[n - 1], BlockStart(calls, n);
    if n > 1 {
      WindowCounts(init);
      BlockStartPrefix(calls, n - 1, n - 1);
      SlotsInPrefix(calls, n - 1, a, n - 1);
    }
  }

  /** Under one limit, the count is the number of calls in the block, capped at the limit. */
  lemma {:induction false} WindowUniform(calls: seq<Call>, limit: int)
    requires calls != [] && Uniform(calls, limit) && limit > 0
    ensures After(calls) ==
            Some(Window(calls[|calls| - 1].hour, Min(limit, |calls| - BlockStart(calls, |calls|))))
  {
    var n := |calls|;
    var init := calls[..n - 1];
    if n > 1 {
      WindowUniform(init, limit);
      BlockStartPrefix(calls, n - 1, n - 1);
    }
  }

  /** A call gets a slot exactly when fewer than `limit` calls precede it in its block. */
  lemma AllowedExact(calls: seq<Call>, limit: int, k: nat)
    requires Uniform(calls, limit) && limit > 0 && k < |calls|
    ensures Allowed(calls, k) <==> k - BlockStart(calls, k + 1) < limit
  {
    if k > 0 {
      WindowUniform(calls[..k], limit);
      BlockStartPrefix(calls, k, k);
    }
  }

  /** The integers from `a` up to, not including, `b`. */
  ghost function Interval(a: int, b: int): (s: set<int>)
    ensures forall k :: k in s <==> a <= k < b
    ensures |s| == if a <= b then b - a else 0
    decreases b - a
  {
    if a >= b then {} else Interval(a, b - 1) + {b - 1}
  }

  lemma SubsetSize(s: set<int>, t: set<int>)
    requires s <= t
    ensures |s| <= |t|
  {
    assert t == s + (t - s);
  }

  /** `[a, b)` is a maximal run of calls in one hour. */
  ghost predicate IsBlock(calls: seq<Call>, a: int, b: int) {
    && 0 <= a < b <= |calls|
    && (forall k :: a <= k < b ==> calls[k].hour == calls[a].hour)
    && (a > 0 ==> calls[a - 1].hour != calls[a].hour)
    && (b < |calls| ==> calls[b].hour != calls[a].hour)
  }

  lemma {:induction false} BlockStartIn(calls: seq<Call>, a: nat, n: nat)
    requires a < n <= |calls|
    requires forall k :: a <= k < n ==> calls[k].hour == calls[a].hour
    requires a > 0 ==> calls[a - 1].hour != calls[a].hour
    ensures BlockStart(calls, n) == a
  {
    if n > a + 1 {
      assert calls[n - 2].hour == calls[a].hour && calls[n - 1].hour == calls[a].hour;
      BlockStartIn(calls, a, n - 1);
    } else if a > 0 {
      assert calls[n - 2].hour != calls[n - 1].hour;
    }
  }

  /** Each maximal same-hour block allows exactly `min(limit, length)` calls: its first ones. */
  lemma BlockExact(calls: seq<Call>, limit: int, a: int, b: int)
    requires Uniform(calls, limit) && limit > 0 && IsBlock(calls, a, b)
    ensures forall k :: a <= k < b ==> (Allowed(calls, k) <==> k < a + limit)
    ensures SlotsIn(calls, a, b) == Min(limit, b - a)
  {
    forall k | a <= k < b ensures Allowed(calls, k) <==> k < a + limit {
      BlockStartIn(calls, a, k + 1);
      AllowedExact(calls, limit, k);
    }
    SlotsCapped(calls, limit, a, b);
  }

  lemma {:induction false} SlotsCapped(calls: seq<Call>, limit: int, a: nat, b: nat)
    requires a <= b <= |calls| && limit > 0
    requires forall k :: a <= k < b ==> (Allowed(calls, k) <==> k < a + limit)
    ensures SlotsIn(calls, a, b) == Min(limit, b - a)
  {
    if a < b {
      SlotsCapped(calls, limit, a, b - 1);
    }
  }

  // ----- the hourly promise ------------------------------------------------

  /** The hour of call `i` is left at `j` and come back to at `k`. */
  ghost predicate Returns(calls: seq<Call>, i: int, j: int, k: int) {
    0 <= i < j < k < |calls| && calls[i].hour == calls[k].hour && calls[j].hour != calls[i].hour
  }

  /** No hour is left and come back to. */
  ghost predicate Contiguous(calls: seq<Call>) {
    forall i, j, k :: !Returns(calls, i, j, k)
  }

  function WithLimit(calls: seq<Call>, limit: int): seq<Call> {
    seq(|calls|, i requires 0 <= i < |calls| => calls[i].(limit := limit))
  }

  lemma {:induction false} BlockGoesOn(calls: seq<Call>, i: nat, k: nat)
    requires Contiguous(calls) && i <= k < |calls| && calls[i].hour == calls[k].hour
    ensures BlockStart(calls, i + 1) == BlockStart(calls, k + 1)
  {
    if i < k {
      assert !Returns(calls, i, k - 1, k);
      BlockGoesOn(calls, i, k - 1);
    }
  }

  /** When hours are not come back to, calls of one hour share their block. */
  lemma OneBlock(calls: seq<Call>, i: nat, k: nat)
    requires Contiguous(calls) && i < |calls| && k < |calls| && calls[i].hour == calls[k].hour
    ensures BlockStart(calls, i + 1) == BlockStart(calls, k + 1)
  {
    if k < i {
      BlockGoesOn(calls, k, i);
    } else {
      BlockGoesOn(calls, i, k);
    }
  }

  /** Call `k` is of hour `h` and stands among the first `limit` of its block. */
  predicate Early(calls: seq<Call>, limit: int, h: int, k: int)
    requires 0 <= k < |calls|
  {
    calls[k].hour == h && k - BlockStart(calls, k + 1) < limit
  }

  ghost function EarlyAt(calls: seq<Call>, limit: int, h: int, n: nat): set<int>
    requires n <= |calls|
  {
    set k | 0 <= k < n && Early(calls, limit, h, k)
  }

  /** Over the blocks of hour `h` among the first `n` calls, the sum of min(limit, block length). */
  function HourTotal(calls: seq<Call>, limit: int, h: int, n: nat): int
    requires n <= |calls|
  {
    if n == 0 then 0
    else
      var a := BlockStart(calls, n);
      HourTotal(calls, limit, h, a) + if calls[n - 1].hour == h then Min(limit, n - a) else 0
  }

  lemma EarlyInBlock(calls: seq<Call>, limit: int, h: int, n: nat, k: nat)
    requires 0 < n <= |calls| && BlockStart(calls, n) <= k < n
    ensures Early(calls, limit, h, k) <==> calls[n - 1].hour == h && k < BlockStart(calls, n) + limit
  {
    var a := BlockStart(calls, n);
    BlockSameHour(calls, n);
    BlockStartIn(calls, a, k + 1);
  }

  lemma {:induction false} HourCount(calls: seq<Call>, limit: int, h: int, n: nat)
    requires n <= |calls| && limit > 0
    ensures |EarlyAt(calls, limit, h, n)| == HourTotal(calls, limit, h, n)
  {
    if n == 0 {
      assert EarlyAt(calls, limit, h, n) == {};
    } else {
      var a := BlockStart(calls, n);
      HourCount(calls, limit, h, a);
      forall k | a <= k < n ensures Early(calls, limit, h, k) <==> calls[n - 1].hour == h && k < a + limit {
        EarlyInBlock(calls, limit, h, n, k);
      }
      if calls[n - 1].hour == h {
        assert EarlyAt(calls, limit, h, n) == EarlyAt(calls, limit, h, a) + Interval(a, a + Min(limit, n - a));
        assert EarlyAt(calls, limit, h, a) !! Interval(a, a + Min(limit, n - a));
      } else {
        assert EarlyAt(calls, limit, h, n) == EarlyAt(calls, limit, h, a);
      }
    }
  }

  /** How many calls of an hour get a slot, for any limit and any order of hours: over its blocks, the sum
      of min(limit, block length). */
  lemma HourExact(calls: seq<Call>, limit: int, h: int)
    requires Uniform(calls, limit) && limit > 0
    ensures AllowedAt(calls, h) == EarlyAt(calls, limit, h, |calls|)
    ensures |AllowedAt(calls, h)| == HourTotal(calls, limit, h, |calls|)
  {
    forall k | 0 <= k < |calls| ensures Allowed(calls, k) <==> k - BlockStart(calls, k + 1) < limit {
      AllowedExact(calls, limit, k);
    }
    HourCount(calls, limit, h, |calls|);
  }

  /** The blocks of hour `h`, each counted up to the limit, add up to no more than the limit. */
  predicate BlocksWithin(calls: seq<Call>, limit: int, h: int) { HourTotal(calls, limit, h, |calls|) <= limit }

  /** "At most `limit` per hour", for the limit a caller has, holds exactly when the blocks of every hour,
      each counted up to the limit, add up to no more. For that it is enough that no hour is come back to. */
  lemma PromiseExact(calls: seq<Call>, limit: int)
    requires Uniform(calls, limit) && limit > 0
    ensures (forall h :: |AllowedAt(calls, h)| <= limit) <==> (forall h :: BlocksWithin(calls, limit, h))
    ensures Contiguous(calls) ==> forall h :: BlocksWithin(calls, limit, h)
  {
    forall h ensures |AllowedAt(calls, h)| <= limit <==> BlocksWithin(calls, limit, h) {
      HourExact(calls, limit, h);
    }
    if Contiguous(calls) {
      forall h ensures BlocksWithin(calls, limit, h) {
        HourBound(calls, limit, h);
        HourExact(calls, limit, h);
      }
    }
  }

  lemma HourBound(calls: seq<Call>, limit: int, h: int)
    requires Uniform(calls, limit) && limit > 0 && Contiguous(calls)
    ensures |AllowedAt(calls, h)| <= limit
  {
    var s := AllowedAt(calls, h);
    if s != {} {
      var any :| any in s;
      var a := BlockStart(calls, any + 1);
      forall k | k in s ensures k in Interval(a, a + limit) {
        AllowedExact(calls, limit, k);
        OneBlock(calls, any, k);
      }
      SubsetSize(s, Interval(a, a + limit));
    }
  }

  /** When an hour is come back to, its two blocks give two slots under a limit of one. */
  lemma TwoBlocks(calls: seq<Call>, i: nat, j: nat, k: nat)
    requires Uniform(calls, 1) && i < j < k < |calls|
    requires calls[i].hour == calls[k].hour && calls[j].hour != calls[i].hour
    ensures |AllowedAt(calls, calls[i].hour)| > 1
  {
    FirstAllowed(calls, 1, i + 1);
    FirstAllowed(calls, 1, k + 1);
    var a, b := BlockStart(calls, i + 1), BlockStart(calls, k + 1);
    BlockSameHour(calls, k + 1);
    assert a < j < b;
    SubsetSize({a, b}, AllowedAt(calls, calls[i].hour));
  }

  /** A first call of a block always gets a slot. */
  lemma FirstAllowed(calls: seq<Call>, limit: int, n: nat)
    requires Uniform(calls, limit) && limit > 0 && 0 < n <= |calls|
    ensures BlockStart(calls, n) in AllowedAt(calls, calls[n - 1].hour)
  {
    var a := BlockStart(calls, n);
    BlockSameHour(calls, n);
    BlockStartIn(calls, a, a + 1);
    AllowedExact(calls, limit, a);
  }

  /** "At most `limit` per hour" holds for every limit exactly when no hour is come back to in lock
      order. A clock read before the lock was taken can break that, and then the promise fails. */
  lemma HourlyPromiseExact(calls: seq<Call>)
    ensures (forall limit, h :: limit > 0 ==> |AllowedAt(WithLimit(calls, limit), h)| <= limit) <==> Contiguous(calls)
  {
    if Contiguous(calls) {
      forall limit, h | limit > 0 ensures |AllowedAt(WithLimit(calls, limit), h)| <= limit {
        forall i, j, k ensures !Returns(WithLimit(calls, limit), i, j, k) {
          assert !Returns(calls, i, j, k);
        }
        HourBound(WithLimit(calls, limit), limit, h);
      }
    } else {
      var i, j, k :| Returns(calls, i, j, k);
      TwoBlocks(WithLimit(calls, 1), i, j, k);
      assert |AllowedAt(WithLimit(calls, 1), calls[i].hour)| > 1;
    }
  }

  /** `n` calls of one hour. */
  function Burst(limit: int, h: int, n: nat): seq<Call> { seq(n, i requires 0 <= i < n => Call(limit, h, i)) }

  /** A window that starts afresh gives a full allowance: the first `limit` calls of an hour all get a slot. */
  lemma FullAllowance(limit: int, h: int)
    requires limit > 0
    ensures |AllowedAt(Burst(limit, h, limit), h)| == limit
  {
    var calls := Burst(limit, h, limit);
    HourExact(calls, limit, h);
    BlockStartIn(calls, 0, limit);
    assert calls[limit - 1].hour == h && HourTotal(calls, limit, h, 0) == 0;
  }

  // ----- any 3600 seconds --------------------------------------------------

  lemma HourSteps(t: int, u: int)
    requires t <= u <= t + 3600
    ensures HourOf(t) <= HourOf(u) <= HourOf(t) + 1
  {
  }

  lemma HourMonotone(t: int, u: int)
    requires t <= u
    ensures HourOf(t) <= HourOf(u)
  {
  }

  /** With times that never go back, at most `limit` calls get a slot in an hour and at most twice
      `limit` in any span of 3600 seconds, its ends included, before the epoch as well as after it. */
  lemma SpanBound(calls: seq<Call>, limit: int, times: seq<int>, t: int)
    requires Uniform(calls, limit) && limit > 0 && |times| == |calls|
    requires forall k :: 0 <= k < |calls| ==> calls[k].hour == HourOf(times[k])
    requires forall i, j :: 0 <= i < j < |times| ==> times[i] <= times[j]
    ensures forall h :: |AllowedAt(calls, h)| <= limit
    ensures |set k | 0 <= k < |calls| && Allowed(calls, k) && t <= times[k] <= t + 3600| <= 2 * limit
  {
    forall i, j, k ensures !Returns(calls, i, j, k) {
      if 0 <= i < j < k < |calls| {
        HourMonotone(times[i], times[j]);
        HourMonotone(times[j], times[k]);
      }
    }
    forall h ensures |AllowedAt(calls, h)| <= limit {
      HourBound(calls, limit, h);
    }
    var h := HourOf(t);
    var span := set k | 0 <= k < |calls| && Allowed(calls, k) && t <= times[k] <= t + 3600;
    forall k | k in span ensures k in AllowedAt(calls, h) + AllowedAt(calls, h + 1) {
      HourSteps(t, times[k]);
    }
    SubsetSize(span, AllowedAt(calls, h) + AllowedAt(calls, h + 1));
  }
}
