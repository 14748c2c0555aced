/** The signatures of a run against the hourly limit. */
module DaemonHours {
  import opened Common
  import opened Primitives
  import opened Bags
  import opened Policy
  import opened RateLimit
  import opened Daemon
  import opened DaemonRate
  import DaemonAudit
  import EndToEnd

  // ----- hours in nanoseconds ----------------------------------------------

  /** The instant, in nanoseconds, at which hour `h` begins. Before the epoch hours are counted by truncation, so
      that hour 0 begins early and each hour before it does too. */
  function HourBegins(h: int): int {
    if h >= 1 then h * 3_600_000_000_000 else ((h - 1) * 3600 + 1) * 1_000_000_000
  }

  /** The hour of the rate window is the hour on the clock. */
  lemma HourOfInstant(now: int, h: int)
    ensures HourOf(UnixSeconds(now)) == h <==> HourBegins(h) <= now < HourBegins(h + 1)
    ensures now >= 0 ==>
              (HourOf(UnixSeconds(now)) == h <==> h * 3_600_000_000_000 <= now < (h + 1) * 3_600_000_000_000)
  {
  }

  lemma InstantsOrdered(a: int, b: int)
    requires a <= b
    ensures UnixSeconds(a) <= UnixSeconds(b)
    ensures b < a + 3_600_000_000_000 ==> UnixSeconds(b) <= UnixSeconds(a) + 3600
  {
  }

  // ----- slots, once all is answered ---------------------------------------

  /** A signed answer, or the refusal that follows a policy grant whose key cannot be loaded. */
  predicate Served(response: Response) { response.Success? || response.KeyUnavailable? }

  /** The calls of a caller's current window whose request was served. */
  ghost function ServedInWindow(w: World, name: string): set<int> {
    var calls := CallsOf(w, name);
    set k | BlockStart(calls, |calls|) <= k < |calls| && ServedCall(w, calls[k].id)
  }

  ghost predicate ServedCall(w: World, id: nat) {
    id in w.requests && w.requests[id].stage.Done? && Served(w.requests[id].stage.response)
  }

  ghost function SlotSet(calls: seq<Call>, lo: nat, hi: nat): set<int>
    requires hi <= |calls|
  {
    set k | lo <= k < hi && Allowed(calls, k)
  }

  lemma SlotSetSnoc(calls: seq<Call>, lo: nat, hi: nat)
    requires lo < hi <= |calls|
    ensures SlotSet(calls, lo, hi) == SlotSet(calls, lo, hi - 1) + (if Allowed(calls, hi - 1) then {hi - 1} else {})
  {
  }

  lemma {:induction false} SlotsInSet(calls: seq<Call>, lo: nat, hi: nat)
    requires lo <= hi <= |calls|
    ensures SlotsIn(calls, lo, hi) == |SlotSet(calls, lo, hi)|
  {
    if lo == hi {
      assert SlotSet(calls, lo, hi) == {};
    } else {
      SlotsInSet(calls, lo, hi - 1);
      SlotSetSnoc(calls, lo, hi);
      assert hi - 1 !in SlotSet(calls, lo, hi - 1);
    }
  }

  lemma SettledCall(w: World, calls: seq<Call>, k: nat)
    requires k < |calls| && calls[k].id in w.requests
    requires var stage := w.requests[calls[k].id].stage;
             && stage.Done? && stage != Done(InternalError)
             && (if Allowed(calls, k) then KeptSlot(stage) else RateRefused(stage))
    ensures Allowed(calls, k) <==> ServedCall(w, calls[k].id)
  {
  }

  /** Once this caller's requests are answered, its window counts exactly its signatures and key-unavailable
      refusals since the window was opened: nothing else consumed a slot, and none was given back. */
  lemma SettledWindow(pr: Suite, r: Trace, n: nat, name: string)
    requires IsRun(pr, r) && n <= |r.evs| && name in r.worlds[n].windows
    requires var w := r.worlds[n];
             forall id :: id in w.requests && LaneOf(w.requests[id].ticket) == Lane(w.uptime, name) ==> w.requests[id].stage.Done?
    ensures r.worlds[n].windows[name].count == |ServedInWindow(r.worlds[n], name)|
  {
    var w := r.worlds[n];
    var calls := CallsOf(w, name);
    SlotConservation(pr, r, n, Lane(w.uptime, name));
    var start := BlockStart(calls, |calls|);
    SlotsInSet(calls, start, |calls|);
    forall k | start <= k < |calls| ensures Allowed(calls, k) <==> ServedCall(w, calls[k].id) {
      EndToEnd.NeverInternalError(pr, r, n, calls[k].id);
      SettledCall(w, calls, k);
    }
    assert ServedInWindow(w, name) == SlotSet(calls, start, |calls|);
  }

  // ----- signatures and slots ----------------------------------------------

  /** Some of the grants of one lane, all of them limited, by their place among the grants. */
  ghost predicate InLane(w: World, lane: Lane, s: set<int>) {
    forall i :: i in s ==>
      0 <= i < |w.grants| && LaneOf(w.grants[i]) == lane && w.grants[i].caller.ratePerHour > 0
  }

  ghost function SlotPlace(w: World): int -> int {
    i => if 0 <= i < |w.grants| && w.grants[i].slot.Some? then w.grants[i].slot.value as int else -1
  }

  ghost predicate Books(w: World) { Accounted(w) && DaemonAudit.GrantsBooked(w) }

  lemma AlwaysBooks(pr: Suite, r: Trace, n: nat)
    requires IsRun(pr, r) && n <= |r.evs|
    ensures Books(r.worlds[n])
  {
    DaemonAudit.AlwaysOrderly(pr, r, n);
    AlwaysAccounted(pr, r, n);
  }

  /** Where a limited grant stands among the calls of its lane, and that the window let it through. */
  lemma GrantSlot(w: World, g: Ticket)
    requires Accounted(w) && DaemonAudit.GrantBooked(w.requests, g) && g.caller.ratePerHour > 0
    ensures var calls := LaneCalls(w, LaneOf(g));
            && g.slot.Some? && g.slot.value < |calls|
            && calls[g.slot.value].id == g.id
            && w.requests[g.id].ticket == g
            && Allowed(calls, g.slot.value)
            && calls[g.slot.value].hour == HourOf(UnixSeconds(g.slotTime))
  {
    var p := w.requests[g.id];
    assert SlotFiled(w.calls, p);
    assert KeptSlot(p.stage) && !RateRefused(p.stage);
  }

  /** Grants of one lane stand at different calls. */
  lemma DistinctPlaces(w: World, lane: Lane, s: set<int>)
    requires Books(w) && InLane(w, lane, s)
    ensures var calls, place := LaneCalls(w, lane), SlotPlace(w);
            forall i :: i in s ==> 0 <= place(i) < |calls| && Allowed(calls, place(i))
                                   && calls[place(i)].hour == HourOf(UnixSeconds(w.grants[i].slotTime))
                                   && calls[place(i)].id == w.grants[i].id
    ensures forall i, j :: i in s && j in s && SlotPlace(w)(i) == SlotPlace(w)(j) ==> i == j
  {
    var calls, place := LaneCalls(w, lane), SlotPlace(w);
    forall i | i in s
      ensures 0 <= place(i) < |calls| && Allowed(calls, place(i))
      ensures calls[place(i)].hour == HourOf(UnixSeconds(w.grants[i].slotTime)) && calls[place(i)].id == w.grants[i].id
    {
      assert DaemonAudit.GrantBooked(w.requests, w.grants[i]);
      GrantSlot(w, w.grants[i]);
    }
    OnePlaceEach(w, s, place);
  }

  lemma OnePlaceEach(w: World, s: set<int>, place: int -> int)
    requires DaemonAudit.GrantsBooked(w) && forall i :: i in s ==> 0 <= i < |w.grants|
    requires forall i, j :: i in s && j in s && place(i) == place(j) ==> w.grants[i].id == w.grants[j].id
    ensures forall i, j :: i in s && j in s && place(i) == place(j) ==> i == j
  {
  }

  // ----- the hourly promise ------------------------------------------------

  /** The signatures of a lane that took their slot in this range of nanoseconds, by their place among the grants. */
  ghost function GrantsBetween(w: World, lane: Lane, lo: int, hi: int): set<int> {
    set i | 0 <= i < |w.grants| && LaneOf(w.grants[i]) == lane && lo <= w.grants[i].slotTime < hi
  }

  /** Every signature of this caller was made under a limit. */
  ghost predicate AlwaysLimited(w: World, name: string) {
    forall i :: 0 <= i < |w.grants| && w.grants[i].caller.name == name ==> w.grants[i].caller.ratePerHour > 0
  }

  /** The instants, in nanoseconds, at which the calls of a lane reached the window. */
  ghost function TimesOf(w: World, lane: Lane): seq<int> {
    var calls := LaneCalls(w, lane);
    seq(|calls|, k requires 0 <= k < |calls| =>
      if calls[k].id in w.requests then w.requests[calls[k].id].ticket.slotTime else 0)
  }

  ghost predicate NeverBack(times: seq<int>) { forall i, j :: 0 <= i < j < |times| ==> times[i] <= times[j] }

  /** Each call carries the hour of its instant. */
  ghost predicate Timed(calls: seq<Call>, times: seq<int>) {
    |times| == |calls| && forall k :: 0 <= k < |calls| ==> calls[k].hour == HourOf(UnixSeconds(times[k]))
  }

  lemma TimesTrue(w: World, lane: Lane)
    requires Accounted(w)
    ensures Timed(LaneCalls(w, lane), TimesOf(w, lane))
  {
    var calls := LaneCalls(w, lane);
    forall k: nat | k < |calls| ensures calls[k].hour == HourOf(UnixSeconds(TimesOf(w, lane)[k])) {
      assert CallOwned(w.requests, lane, k, calls[k]);
      assert SlotFiled(w.calls, w.requests[calls[k].id]);
    }
  }

  /** A clock that does not go back comes back to no hour. */
  lemma NeverBackContiguous(calls: seq<Call>, times: seq<int>)
    requires Timed(calls, times) && NeverBack(times)
    ensures Contiguous(calls)
  {
    forall i, j, k ensures !Returns(calls, i, j, k) {
      if 0 <= i < j < k < |calls| {
        InstantsOrdered(times[i], times[j]);
        InstantsOrdered(times[j], times[k]);
        HourMonotone(UnixSeconds(times[i]), UnixSeconds(times[j]));
        HourMonotone(UnixSeconds(times[j]), UnixSeconds(times[k]));
      }
    }
  }

  /** The signatures a caller obtains in an hour, between restarts, under a limit that does not change: no more
      than its blocks of that hour, each counted up to the limit, add up to; and so no more than the
      limit when the hour is not left and come back to. */
  lemma SignaturesOfHour(pr: Suite, r: Trace, n: nat, lane: Lane, limit: int, h: int)
    requires IsRun(pr, r) && n <= |r.evs| && limit > 0
    requires Uniform(LaneCalls(r.worlds[n], lane), limit) && AlwaysLimited(r.worlds[n], lane.name)
    ensures var w := r.worlds[n]; var calls := LaneCalls(w, lane); var s := GrantsBetween(w, lane, HourBegins(h), HourBegins(h + 1));
            && |s| <= HourTotal(calls, limit, h, |calls|)
            && (Contiguous(calls) ==> |s| <= limit)
  {
    var w := r.worlds[n];
    AlwaysBooks(pr, r, n);
    HourGrants(w, lane, limit, h);
    if Contiguous(LaneCalls(w, lane)) {
      HourExact(LaneCalls(w, lane), limit, h);
      HourBound(LaneCalls(w, lane), limit, h);
    }
  }

  lemma HourGrants(w: World, lane: Lane, limit: int, h: int)
    requires Books(w) && limit > 0 && Uniform(LaneCalls(w, lane), limit) && AlwaysLimited(w, lane.name)
    ensures var calls := LaneCalls(w, lane);
            |GrantsBetween(w, lane, HourBegins(h), HourBegins(h + 1))| <= HourTotal(calls, limit, h, |calls|)
  {
    var calls, s := LaneCalls(w, lane), GrantsBetween(w, lane, HourBegins(h), HourBegins(h + 1));
    DistinctPlaces(w, lane, s);
    forall i | i in s ensures SlotPlace(w)(i) in AllowedAt(calls, h) {
      HourOfInstant(w.grants[i].slotTime, h);
    }
    Injected(s, SlotPlace(w), AllowedAt(calls, h));
    HourExact(calls, limit, h);
  }

  /** In an hour on the clock, from `h * 3.6e12` nanoseconds after the epoch on, a caller obtains no more signatures than
      its calls of that hour allow, block by block; and no more than its limit if the clock never went back
      between its calls, or no hour was come back to. */
  lemma SignaturesPerHour(pr: Suite, r: Trace, n: nat, lane: Lane, limit: int, h: nat)
    requires IsRun(pr, r) && n <= |r.evs| && limit > 0
    requires Uniform(LaneCalls(r.worlds[n], lane), limit) && AlwaysLimited(r.worlds[n], lane.name)
    ensures var w := r.worlds[n]; var calls := LaneCalls(w, lane);
            var s := GrantsBetween(w, lane, h * 3_600_000_000_000, (h + 1) * 3_600_000_000_000);
            && |s| <= HourTotal(calls, limit, h, |calls|)
            && (NeverBack(TimesOf(w, lane)) || Contiguous(calls) ==> |s| <= limit)
  {
    var w := r.worlds[n];
    SignaturesOfHour(pr, r, n, lane, limit, h);
    SubsetSize(GrantsBetween(w, lane, h * 3_600_000_000_000, (h + 1) * 3_600_000_000_000),
               GrantsBetween(w, lane, HourBegins(h), HourBegins(h + 1)));
    if NeverBack(TimesOf(w, lane)) {
      AlwaysBooks(pr, r, n);
      TimesTrue(w, lane);
      NeverBackContiguous(LaneCalls(w, lane), TimesOf(w, lane));
    }
  }

  /** When the clock never went back between a caller's calls, at most twice the limit is signed for it in any
      3600 seconds, from any nanosecond on, between restarts. */
  lemma SignaturesPerSpan(pr: Suite, r: Trace, n: nat, lane: Lane, limit: int, t: int)
    requires IsRun(pr, r) && n <= |r.evs| && limit > 0
    requires Uniform(LaneCalls(r.worlds[n], lane), limit) && AlwaysLimited(r.worlds[n], lane.name)
    requires NeverBack(TimesOf(r.worlds[n], lane))
    ensures |GrantsBetween(r.worlds[n], lane, t, t + 3_600_000_000_000)| <= 2 * limit
  {
    AlwaysBooks(pr, r, n);
    SpanGrants(r.worlds[n], lane, limit, t);
  }

  function Seconds(times: seq<int>): seq<int> {
    seq(|times|, k requires 0 <= k < |times| => UnixSeconds(times[k]))
  }

  lemma SpanGrants(w: World, lane: Lane, limit: int, t: int)
    requires Books(w) && limit > 0 && Uniform(LaneCalls(w, lane), limit) && AlwaysLimited(w, lane.name)
    requires NeverBack(TimesOf(w, lane))
    ensures |GrantsBetween(w, lane, t, t + 3_600_000_000_000)| <= 2 * limit
  {
    var calls, times, place := LaneCalls(w, lane), TimesOf(w, lane), SlotPlace(w);
    var s, seconds, from := GrantsBetween(w, lane, t, t + 3_600_000_000_000), Seconds(TimesOf(w, lane)), UnixSeconds(t);
    DistinctPlaces(w, lane, s);
    TimesTrue(w, lane);
    forall i, j | 0 <= i < j < |times| ensures seconds[i] <= seconds[j] {
      InstantsOrdered(times[i], times[j]);
    }
    SpanBound(calls, limit, seconds, from);
    var span := set k | 0 <= k < |calls| && Allowed(calls, k) && from <= seconds[k] <= from + 3600;
    forall i | i in s ensures place(i) in span {
      GrantTime(w, lane, s, i);
      InstantsOrdered(t, w.grants[i].slotTime);
    }
    Injected(s, place, span);
  }

  lemma GrantTime(w: World, lane: Lane, s: set<int>, i: int)
    requires Books(w) && InLane(w, lane, s) && i in s
    ensures var calls := LaneCalls(w, lane);
            0 <= SlotPlace(w)(i) < |calls| && TimesOf(w, lane)[SlotPlace(w)(i)] == w.grants[i].slotTime
  {
    DistinctPlaces(w, lane, s);
    assert DaemonAudit.GrantBooked(w.requests, w.grants[i]);
  }

  // ----- when a call gets its slot -----------------------------------------

  /** The two instants lie in one hour on the clock. */
  ghost predicate SameHour(a: int, b: int) {
    exists h :: h * 3_600_000_000_000 <= a < (h + 1) * 3_600_000_000_000 && h * 3_600_000_000_000 <= b < (h + 1) * 3_600_000_000_000
  }

  lemma SameHourExact(a: int, b: int)
    requires a >= 0 && b >= 0
    ensures SameHour(a, b) <==> HourOf(UnixSeconds(a)) == HourOf(UnixSeconds(b))
  {
    var h := HourOf(UnixSeconds(a));
    HourOfInstant(a, h);
    HourOfInstant(b, h);
    if k :| k * 3_600_000_000_000 <= a < (k + 1) * 3_600_000_000_000 && k * 3_600_000_000_000 <= b < (k + 1) * 3_600_000_000_000 {
      HourOfInstant(a, k);
      HourOfInstant(b, k);
    }
  }

  /** When a call of a limited caller gets a slot, in any run and by the clock: always if it is its first since the start
      of the daemon, or comes in another hour than the last one; and in the same hour exactly if fewer slots than
      the limit were given since its window was opened. */
  lemma SlotFreeExact(pr: Suite, r: Trace, n: nat, c: Caller, now: int)
    requires IsRun(pr, r) && n <= |r.evs| && c.ratePerHour > 0
    ensures var w := r.worlds[n]; var calls := CallsOf(w, c.name); var times := TimesOf(w, Lane(w.uptime, c.name));
            if calls == [] then SlotFree(w.windows, c, now)
            else times[|calls| - 1] >= 0 && now >= 0 ==>
                   (SlotFree(w.windows, c, now) <==>
                    !SameHour(times[|calls| - 1], now)
                    || SlotsIn(calls, BlockStart(calls, |calls|), |calls|) < c.ratePerHour)
  {
    AlwaysAccounted(pr, r, n);
    var w := r.worlds[n];
    var calls, times := CallsOf(w, c.name), TimesOf(w, Lane(w.uptime, c.name));
    SlotConservation(pr, r, n, Lane(w.uptime, c.name));
    TimesTrue(w, Lane(w.uptime, c.name));
    if calls != [] && times[|calls| - 1] >= 0 && now >= 0 {
      SameHourExact(times[|calls| - 1], now);
    }
  }

  // ----- restarts ----------------------------------------------------------

  /** The signatures of a caller in an hour, up to its `u`-th restart and after, by their place. */
  ghost function GrantsUpTo(w: World, name: string, h: nat, u: nat): set<int> {
    set i | 0 <= i < |w.grants| && w.grants[i].caller.name == name && w.grants[i].uptime <= u
            && h * 3_600_000_000_000 <= w.grants[i].slotTime < (h + 1) * 3_600_000_000_000
  }

  ghost predicate UniformUpTo(w: World, name: string, limit: int, u: nat) {
    forall v: nat :: v <= u ==> Uniform(LaneCalls(w, Lane(v, name)), limit)
  }

  ghost predicate ContiguousUpTo(w: World, name: string, u: nat) {
    forall v: nat :: v <= u ==> Contiguous(LaneCalls(w, Lane(v, name)))
  }

  /** The slots of a caller in an hour, each by its uptime and its place in it. */
  ghost function SlotsUpTo(w: World, name: string, h: int, u: nat): set<(nat, int)> {
    set v: nat, k: int | v <= u && k in AllowedAt(LaneCalls(w, Lane(v, name)), h) :: (v, k)
  }

  ghost function SlotsAt(w: World, lane: Lane, h: int): set<(nat, int)> {
    set k | k in AllowedAt(LaneCalls(w, lane), h) :: (lane.uptime, k)
  }

  /** The sum, over the uptimes and their blocks of that hour, of min(limit, block length). */
  function TotalUpTo(w: World, name: string, limit: int, h: int, u: nat): int {
    var calls := LaneCalls(w, Lane(u, name));
    HourTotal(calls, limit, h, |calls|) + if u == 0 then 0 else TotalUpTo(w, name, limit, h, u - 1)
  }

  lemma SlotsCounted(w: World, lane: Lane, h: int)
    ensures |SlotsAt(w, lane, h)| == |AllowedAt(LaneCalls(w, lane), h)|
  {
    var s := AllowedAt(LaneCalls(w, lane), h);
    Injected(s, (k: int) => (lane.uptime, k), SlotsAt(w, lane, h));
    Injected(SlotsAt(w, lane, h), (p: (nat, int)) => p.1, s);
  }

  /** Under one limit, the slots a caller gets in an hour over all uptimes are exactly that many, in whatever order the
      hours came and however often the daemon was restarted. */
  lemma {:induction false} SlotsAcrossRestarts(w: World, name: string, limit: int, h: int, u: nat)
    requires limit > 0 && UniformUpTo(w, name, limit, u)
    ensures |SlotsUpTo(w, name, h, u)| == TotalUpTo(w, name, limit, h, u)
    decreases u
  {
    SlotsMore(w, name, h, u);
    SlotsCounted(w, Lane(u, name), h);
    HourExact(LaneCalls(w, Lane(u, name)), limit, h);
    if u > 0 {
      SlotsAcrossRestarts(w, name, limit, h, u - 1);
    }
  }

  lemma SlotsMore(w: World, name: string, h: int, u: nat)
    ensures |SlotsUpTo(w, name, h, u)| ==
            (if u == 0 then 0 else |SlotsUpTo(w, name, h, u - 1)|) + |SlotsAt(w, Lane(u, name), h)|
  {
    var here := SlotsAt(w, Lane(u, name), h);
    if u == 0 {
      assert SlotsUpTo(w, name, h, u) == here;
    } else {
      assert SlotsUpTo(w, name, h, u) == SlotsUpTo(w, name, h, u - 1) + here;
      assert SlotsUpTo(w, name, h, u - 1) !! here;
    }
  }

  predicate TotalWithin(w: World, name: string, limit: int, h: int, u: nat) { TotalUpTo(w, name, limit, h, u) <= limit }

  /** So the hourly promise holds across restarts if and only if the blocks of every hour, over all uptimes and each
      counted up to the limit, add up to no more than the limit. */
  lemma PromiseAcrossRestarts(w: World, name: string, limit: int, u: nat)
    requires limit > 0 && UniformUpTo(w, name, limit, u)
    ensures (forall h :: |SlotsUpTo(w, name, h, u)| <= limit) <==> (forall h :: TotalWithin(w, name, limit, h, u))
  {
    forall h ensures |SlotsUpTo(w, name, h, u)| <= limit <==> TotalWithin(w, name, limit, h, u) {
      SlotsAcrossRestarts(w, name, limit, h, u);
    }
  }

  /** The signatures of a caller in an hour over all uptimes are no more than those slots; and no more than one limit
      for each time the daemon was started, if no hour was come back to between restarts. */
  lemma {:induction false} SignaturesAcrossRestarts(pr: Suite, r: Trace, n: nat, name: string, limit: int, h: nat, u: nat)
    requires IsRun(pr, r) && n <= |r.evs| && limit > 0 && AlwaysLimited(r.worlds[n], name)
    requires UniformUpTo(r.worlds[n], name, limit, u)
    ensures |GrantsUpTo(r.worlds[n], name, h, u)| <= TotalUpTo(r.worlds[n], name, limit, h, u)
    ensures ContiguousUpTo(r.worlds[n], name, u) ==> TotalUpTo(r.worlds[n], name, limit, h, u) <= limit * (u + 1)
    decreases u
  {
    var w := r.worlds[n];
    SignaturesPerHour(pr, r, n, Lane(u, name), limit, h);
    OneUptimeMore(w, name, h, u);
    if u > 0 {
      SignaturesAcrossRestarts(pr, r, n, name, limit, h, u - 1);
      assert limit * (u - 1 + 1) + limit == limit * (u + 1);
    }
    if ContiguousUpTo(w, name, u) {
      HourExact(LaneCalls(w, Lane(u, name)), limit, h);
      HourBound(LaneCalls(w, Lane(u, name)), limit, h);
    }
  }

  lemma OneUptimeMore(w: World, name: string, h: nat, u: nat)
    ensures |GrantsUpTo(w, name, h, u)| <=
            (if u == 0 then 0 else |GrantsUpTo(w, name, h, u - 1)|) + |GrantsBetween(w, Lane(u, name), h * 3_600_000_000_000, (h + 1) * 3_600_000_000_000)|
  {
    var here := GrantsBetween(w, Lane(u, name), h * 3_600_000_000_000, (h + 1) * 3_600_000_000_000);
    if u == 0 {
      assert GrantsUpTo(w, name, h, u) == here;
    } else {
      assert GrantsUpTo(w, name, h, u) == GrantsUpTo(w, name, h, u - 1) + here;
    }
  }

  /** The allowance is renewed in full: whatever a caller had used up before, and whatever the hours of its calls after a
      restart, the first `limit` calls of each of their blocks get a slot, and no others. */
  lemma RestartRenews(pr: Suite, w: World, name: string, limit: int, calls: seq<Call>, k: nat)
    requires Accounted(w) && Uniform(calls, limit) && limit > 0 && k < |calls|
    ensures var w' := Step(pr, w, Restart);
            && CallsOf(w', name) == [] && WindowOf(w', name) == None
            && (Allowed(CallsOf(w', name) + calls, k) <==> k - BlockStart(calls, k + 1) < limit)
  {
    FreshLane(pr, w, name);
    AllowedExact(calls, limit, k);
    assert [] + calls == calls;
  }

  lemma FreshLane(pr: Suite, w: World, name: string)
    requires Accounted(w)
    ensures var w' := Step(pr, w, Restart); CallsOf(w', name) == [] && WindowOf(w', name) == None
  {
    assert Lane(w.uptime + 1, name) !in w.calls;
  }
}
