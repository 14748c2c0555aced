/** Rate accounting over whole runs of the daemon. */
module DaemonRate {
  import opened Common
  import opened Primitives
  import opened RateLimit
  import opened Audit
  import opened Daemon

  /** A stage that is reached only by passing the rate window, and from which the slot is not given back. */
  predicate KeptSlot(stage: Stage) {
    match stage
    case Slotted => true
    case Loaded => true
    case Signed(_) => true
    case Refused(_, response) => Spent(response)
    case Done(response) => Spent(response)
    case _ => false
  }

  predicate Spent(response: Response) {
    response.KeyUnavailable? || response.Success? || response.InternalError?
  }

  predicate RateRefused(stage: Stage) {
    (stage.Refused? && stage.response.TooManyRequests?) || (stage.Done? && stage.response.TooManyRequests?)
  }

  function LaneOf(t: Ticket): Lane { Lane(t.uptime, t.caller.name) }

  /** A request without a recorded call never met a limit; one with a call passed or was refused, as the window said. */
  ghost predicate SlotFiled(calls: map<Lane, seq<Call>>, p: Pending) {
    match p.ticket.slot
    case None => !RateRefused(p.stage) && (KeptSlot(p.stage) ==> p.ticket.caller.ratePerHour <= 0)
    case Some(k) =>
      var lane := LaneOf(p.ticket);
      && lane in calls && k < |calls[lane]|
      && calls[lane][k] == Call(p.ticket.caller.ratePerHour, HourOf(UnixSeconds(p.ticket.slotTime)), p.ticket.id)
      && p.ticket.caller.ratePerHour > 0
      && (if Allowed(calls[lane], k) then KeptSlot(p.stage) else RateRefused(p.stage))
  }

  /** The k-th call of a lane belongs to a request that says so. */
  ghost predicate CallOwned(requests: map<nat, Pending>, lane: Lane, k: nat, call: Call) {
    && call.limit > 0
    && call.id in requests
    && requests[call.id].ticket.slot == Some(k)
    && LaneOf(requests[call.id].ticket) == lane
  }

  ghost predicate Accounted(w: World) {
    && (forall name :: WindowOf(w, name) == After(CallsOf(w, name)))
    && (forall id :: id in w.requests ==> w.requests[id].ticket.id == id && SlotFiled(w.calls, w.requests[id]))
    && (forall lane, k: nat :: lane in w.calls && k < |w.calls[lane]| ==>
          CallOwned(w.requests, lane, k, w.calls[lane][k]))
    && (forall lane :: lane in w.calls ==> lane.uptime <= w.uptime)
  }

  lemma AllowedStable(calls: seq<Call>, more: seq<Call>, k: nat)
    requires k < |calls|
    ensures Allowed(calls + more, k) <==> Allowed(calls, k)
  {
    assert (calls + more)[..k] == calls[..k];
  }

  /** A change of stage that keeps the request's place in the accounts. */
  lemma PutAccounted(w: World, w': World, p: Pending)
    requires Accounted(w) && p.ticket.id in w.requests
    requires w'.windows == w.windows && w'.calls == w.calls && w'.requests == w.requests[p.ticket.id := p]
    requires w'.uptime == w.uptime && p.ticket.uptime == w.requests[p.ticket.id].ticket.uptime
    requires p.ticket.slot == w.requests[p.ticket.id].ticket.slot
    requires p.ticket.slot.Some? ==> p.ticket.caller == w.requests[p.ticket.id].ticket.caller
    requires SlotFiled(w.calls, p)
    ensures Accounted(w')
  {
    forall name ensures WindowOf(w', name) == After(CallsOf(w', name)) {
      assert WindowOf(w, name) == After(CallsOf(w, name));
    }
    forall lane, k: nat | lane in w'.calls && k < |w'.calls[lane]|
      ensures CallOwned(w'.requests, lane, k, w'.calls[lane][k])
    {
      assert CallOwned(w.requests, lane, k, w.calls[lane][k]);
    }
  }

  /** Everything else leaves the accounts alone. */
  lemma SameAccounts(w: World, w': World)
    requires Accounted(w) && w'.windows == w.windows && w'.calls == w.calls && w'.requests == w.requests
    requires w'.uptime == w.uptime
    ensures Accounted(w')
  {
    forall name ensures WindowOf(w', name) == After(CallsOf(w', name)) {
      assert WindowOf(w, name) == After(CallsOf(w, name));
    }
  }

  lemma ArriveAccounted(w: World, ev: Event)
    requires Accounted(w) && ev.Arrive? && ev.id !in w.requests
    ensures Accounted(Put(w, FirstFiled(w, ev)))
  {
    var w' := Put(w, FirstFiled(w, ev));
    forall name ensures WindowOf(w', name) == After(CallsOf(w', name)) {
      assert WindowOf(w, name) == After(CallsOf(w, name));
    }
    forall lane, k: nat | lane in w'.calls && k < |w'.calls[lane]|
      ensures CallOwned(w'.requests, lane, k, w'.calls[lane][k])
    {
      assert CallOwned(w.requests, lane, k, w.calls[lane][k]);
    }
  }

  /** The window a call leaves behind is the one its history describes, and its verdict is recorded. */
  lemma CallCounted(calls: seq<Call>, call: Call)
    ensures After(calls + [call]) == Some(Admit(After(calls), call.limit, call.hour).0)
    ensures Allowed(calls + [call], |calls|) == Admit(After(calls), call.limit, call.hour).1
  {
    assert (calls + [call])[..|calls|] == calls;
  }

  lemma SlotFiledLater(w: World, w': World, lane: Lane, call: Call, p: Pending)
    requires SlotFiled(w.calls, p)
    requires w'.calls == w.calls[lane := LaneCalls(w, lane) + [call]]
    ensures SlotFiled(w'.calls, p)
  {
    if p.ticket.slot.Some? && LaneOf(p.ticket) == lane {
      AllowedStable(w.calls[lane], [call], p.ticket.slot.value);
    }
  }

  lemma TakeSlotAccounted(w: World, t: Ticket, now: int)
    requires Accounted(w) && t.id in w.requests && w.requests[t.id] == Pending(t, Admitted) && t.body.Some?
    requires t.uptime == w.uptime
    ensures Accounted(Put(CountCall(w, t, now), TakeSlotStep(w, t, now)))
  {
    var p := TakeSlotStep(w, t, now);
    assert SlotFiled(w.calls, w.requests[t.id]);
    if t.caller.ratePerHour <= 0 {
      PutAccounted(w, Put(CountCall(w, t, now), p), p);
    } else {
      var call := Call(t.caller.ratePerHour, HourOf(UnixSeconds(now)), t.id);
      CallAccounted(w, Put(CountCall(w, t, now), p), t, p, call);
    }
  }

  /** One more call of `name`, for request `t.id`, and nothing else. */
  ghost predicate OneMoreCall(w: World, w': World, t: Ticket, p: Pending, call: Call) {
    var name := t.caller.name;
    && t.id in w.requests && w.requests[t.id] == Pending(t, Admitted) && t.caller.ratePerHour > 0
    && w'.uptime == w.uptime == t.uptime == p.ticket.uptime
    && call.limit == t.caller.ratePerHour && call.id == t.id
    && w'.calls == w.calls[Lane(w.uptime, name) := CallsOf(w, name) + [call]]
    && w'.windows == w.windows[name := Admit(WindowOf(w, name), call.limit, call.hour).0]
    && w'.requests == w.requests[t.id := p]
    && p.ticket.id == t.id && p.ticket.caller == t.caller && p.ticket.slot == Some(|CallsOf(w, name)|)
    && call.hour == HourOf(UnixSeconds(p.ticket.slotTime))
    && (if Admit(WindowOf(w, name), call.limit, call.hour).1 then KeptSlot(p.stage) else RateRefused(p.stage))
  }

  lemma CallKeepsWindows(w: World, w': World, t: Ticket, p: Pending, call: Call, name: string)
    requires Accounted(w) && OneMoreCall(w, w', t, p, call)
    ensures WindowOf(w', name) == After(CallsOf(w', name))
  {
    assert WindowOf(w, name) == After(CallsOf(w, name));
    CallCounted(CallsOf(w, t.caller.name), call);
  }

  lemma CallKeepsSlots(w: World, w': World, t: Ticket, p: Pending, call: Call, id: nat)
    requires Accounted(w) && OneMoreCall(w, w', t, p, call) && id in w'.requests
    ensures w'.requests[id].ticket.id == id && SlotFiled(w'.calls, w'.requests[id])
  {
    if id == t.id {
      assert WindowOf(w, t.caller.name) == After(CallsOf(w, t.caller.name));
      CallCounted(CallsOf(w, t.caller.name), call);
    } else {
      SlotFiledLater(w, w', LaneOf(t), call, w.requests[id]);
    }
  }

  lemma CallKeepsOwners(w: World, w': World, t: Ticket, p: Pending, call: Call, lane: Lane, k: nat)
    requires Accounted(w) && OneMoreCall(w, w', t, p, call) && lane in w'.calls && k < |w'.calls[lane]|
    ensures CallOwned(w'.requests, lane, k, w'.calls[lane][k])
  {
    if lane != LaneOf(t) || k < |LaneCalls(w, lane)| {
      assert CallOwned(w.requests, lane, k, w.calls[lane][k]);
      assert SlotFiled(w.calls, w.requests[t.id]);
    }
  }

  lemma CallAccounted(w: World, w': World, t: Ticket, p: Pending, call: Call)
    requires Accounted(w) && OneMoreCall(w, w', t, p, call)
    ensures Accounted(w')
  {
    forall name ensures WindowOf(w', name) == After(CallsOf(w', name)) {
      CallKeepsWindows(w, w', t, p, call, name);
    }
    forall id | id in w'.requests ensures w'.requests[id].ticket.id == id && SlotFiled(w'.calls, w'.requests[id]) {
      CallKeepsSlots(w, w', t, p, call, id);
    }
    forall lane, k: nat | lane in w'.calls && k < |w'.calls[lane]|
      ensures CallOwned(w'.requests, lane, k, w'.calls[lane][k])
    {
      CallKeepsOwners(w, w', t, p, call, lane, k);
    }
  }

  lemma FiledSlot(pr: Suite, w: World, ev: Event)
    requires Moves(ev) && !ev.TakeSlot? && ev.id in w.requests && Filed(pr, w, ev).Some?
    requires SlotFiled(w.calls, w.requests[ev.id])
    ensures var p, old_ := Filed(pr, w, ev).value, w.requests[ev.id];
            && p.ticket.id == old_.ticket.id && p.ticket.slot == old_.ticket.slot && p.ticket.uptime == old_.ticket.uptime
            && (p.ticket.slot.Some? ==> p.ticket.caller == old_.ticket.caller)
            && SlotFiled(w.calls, p)
  {
  }

  lemma BesideAccounts(pr: Suite, w: World, ev: Event)
    requires Moves(ev) && !ev.TakeSlot? && ev.id in w.requests && Filed(pr, w, ev).Some?
    ensures var w' := Beside(pr, w, ev); w'.windows == w.windows && w'.calls == w.calls && w'.requests == w.requests && w'.uptime == w.uptime
  {
    var t := w.requests[ev.id].ticket;
    if ev.Sign? {
      RecordAccounts(pr, w, SignStep(pr, w, t));
    } else if ev.Log? {
      LogAccounts(pr, w, t.id, DraftToLog(w, ev), ev.now, ev.io);
    }
  }

  lemma RecordAccounts(pr: Suite, w: World, p: Pending)
    requires p.ticket.body.Some?
    ensures var w' := RecordSignature(pr, w, p);
            w'.windows == w.windows && w'.calls == w.calls && w'.requests == w.requests && w'.uptime == w.uptime
  {
  }

  lemma LogAccounts(pr: Suite, w: World, id: nat, draft: Draft, now: int, io: IO)
    ensures var w' := LogStep(pr, w, id, draft, now, io);
            w'.windows == w.windows && w'.calls == w.calls && w'.requests == w.requests && w'.uptime == w.uptime
  {
  }

  lemma MoveAccounted(pr: Suite, w: World, ev: Event)
    requires Moves(ev) && Live(w, ev.id) && Filed(pr, w, ev).Some? && Accounted(w)
    ensures Accounted(Put(Beside(pr, w, ev), Filed(pr, w, ev).value))
  {
    if ev.TakeSlot? {
      TakeSlotAccounted(w, w.requests[ev.id].ticket, ev.now);
    } else {
      FiledSlot(pr, w, ev);
      BesideAccounts(pr, w, ev);
      var p := Filed(pr, w, ev).value;
      PutAccounted(w, Put(Beside(pr, w, ev), p), p);
    }
  }

  /** A restart opens new lanes for all. */
  lemma RestartAccounted(pr: Suite, w: World)
    requires Accounted(w)
    ensures Accounted(OutsideStep(pr, w, Restart))
  {
    var w' := OutsideStep(pr, w, Restart);
    forall name ensures WindowOf(w', name) == After(CallsOf(w', name)) {
      assert Lane(w'.uptime, name) !in w.calls;
    }
  }

  /** `w'` has the windows, calls and requests of `w`. */
  ghost predicate SameRates(w: World, w': World) {
    w'.windows == w.windows && w'.calls == w.calls && w'.requests == w.requests && w'.uptime == w.uptime
  }

  lemma AppendRates(pr: Suite, w: World, who: nat, draft: Draft, io: IO)
    ensures SameRates(w, AppendStep(pr, w, who, draft, io))
  {
  }

  lemma CreateKeyRates(pr: Suite, w: World, ev: Event)
    requires ev.CreateKey?
    ensures SameRates(w, CreateKeyStep(pr, w, ev))
  {
  }

  lemma OutsideAccounts(pr: Suite, w: World, ev: Event)
    requires Outside(ev) && !ev.Restart?
    ensures SameRates(w, OutsideStep(pr, w, ev))
  {
    if ev.OtherAppend? {
      AppendRates(pr, w, ev.who, ev.draft, ev.io);
    } else if ev.CreateKey? {
      CreateKeyRates(pr, w, ev);
    }
  }

  lemma ChangeAccounted(pr: Suite, w: World, ev: Event)
    requires Accounted(w)
    ensures Accounted(Change(pr, w, ev))
  {
    ChangeCases(pr, w, ev);
    if ev.Restart? {
      RestartAccounted(pr, w);
    } else if Outside(ev) {
      OutsideAccounts(pr, w, ev);
      SameAccounts(w, OutsideStep(pr, w, ev));
    } else if NewlyFiled(pr, w, ev).Some? {
      if ev.Arrive? {
        ArriveAccounted(w, ev);
      } else {
        MoveAccounted(pr, w, ev);
      }
    }
  }

  lemma StepAccounted(pr: Suite, w: World, ev: Event)
    requires Accounted(w)
    ensures Accounted(Step(pr, w, ev))
  {
    ChangeAccounted(pr, w, ev);
    SameAccounts(Change(pr, w, ev), Step(pr, w, ev));
  }

  lemma {:induction false} AlwaysAccounted(pr: Suite, r: Trace, n: nat)
    requires IsRun(pr, r) && n <= |r.evs|
    ensures Accounted(r.worlds[n])
  {
    if n > 0 {
      AlwaysAccounted(pr, r, n - 1);
      assert Follows(pr, r, n - 1);
      StepAccounted(pr, r.worlds[n - 1], r.evs[n - 1]);
    }
  }

  // ----- results -----------------------------------------------------------

  /** Slots are conserved: at every moment of every run, a caller's window counts exactly the calls that
      were given a slot since it was opened; each call, in this or an earlier lane, that was given one is
      a different request, now signed, refused for want of its key, or still on the way; requests refused
      by the window, by policy or as malformed hold none of them. */
  lemma SlotConservation(pr: Suite, r: Trace, n: nat, lane: Lane)
    requires IsRun(pr, r) && n <= |r.evs|
    ensures var w := r.worlds[n]; var calls, name := LaneCalls(w, lane), lane.name;
            lane.uptime == w.uptime ==>
              && (calls == [] ==> name !in w.windows)
              && (calls != [] ==>
                    && name in w.windows
                    && w.windows[name] ==
                       Window(calls[|calls| - 1].hour, SlotsIn(calls, BlockStart(calls, |calls|), |calls|)))
    ensures var w := r.worlds[n]; var calls := LaneCalls(w, lane);
            forall k: nat :: k < |calls| ==>
              && calls[k].id in w.requests
              && LaneOf(w.requests[calls[k].id].ticket) == lane
              && (Allowed(calls, k) ==> KeptSlot(w.requests[calls[k].id].stage))
              && (!Allowed(calls, k) ==> RateRefused(w.requests[calls[k].id].stage))
    ensures var w := r.worlds[n]; var calls := LaneCalls(w, lane);
            forall j: nat, k: nat :: j < k < |calls| ==> calls[j].id != calls[k].id
    ensures var w := r.worlds[n];
            forall id :: id in w.requests && KeptSlot(w.requests[id].stage)
                         && LaneOf(w.requests[id].ticket) == lane && w.requests[id].ticket.caller.ratePerHour > 0 ==>
              exists k: nat :: k < |LaneCalls(w, lane)| && LaneCalls(w, lane)[k].id == id
  {
    AlwaysAccounted(pr, r, n);
    LaneConserved(r.worlds[n], lane);
    var calls := LaneCalls(r.worlds[n], lane);
    if lane.uptime == r.worlds[n].uptime {
      assert WindowOf(r.worlds[n], lane.name) == After(CallsOf(r.worlds[n], lane.name));
      if calls != [] {
        assert forall k: nat :: k < |calls| ==> CallOwned(r.worlds[n].requests, lane, k, calls[k]);
        WindowCounts(calls);
      }
    }
  }

  lemma LaneConserved(w: World, lane: Lane)
    requires Accounted(w)
    ensures var calls := LaneCalls(w, lane);
            forall k: nat :: k < |calls| ==>
              && calls[k].id in w.requests
              && LaneOf(w.requests[calls[k].id].ticket) == lane
              && (Allowed(calls, k) ==> KeptSlot(w.requests[calls[k].id].stage))
              && (!Allowed(calls, k) ==> RateRefused(w.requests[calls[k].id].stage))
    ensures var calls := LaneCalls(w, lane);
            forall j: nat, k: nat :: j < k < |calls| ==> calls[j].id != calls[k].id
    ensures forall id :: id in w.requests && KeptSlot(w.requests[id].stage)
                         && LaneOf(w.requests[id].ticket) == lane && w.requests[id].ticket.caller.ratePerHour > 0 ==>
              exists k: nat :: k < |LaneCalls(w, lane)| && LaneCalls(w, lane)[k].id == id
  {
    var calls := LaneCalls(w, lane);
    assert forall k: nat :: k < |calls| ==> CallOwned(w.requests, lane, k, calls[k]);
    forall k: nat | k < |calls|
      ensures Allowed(calls, k) ==> KeptSlot(w.requests[calls[k].id].stage)
      ensures !Allowed(calls, k) ==> RateRefused(w.requests[calls[k].id].stage)
    {
      assert CallOwned(w.requests, lane, k, calls[k]);
      assert SlotFiled(w.calls, w.requests[calls[k].id]);
    }
    forall id | id in w.requests && KeptSlot(w.requests[id].stage)
                && LaneOf(w.requests[id].ticket) == lane && w.requests[id].ticket.caller.ratePerHour > 0
      ensures exists k: nat :: k < |calls| && calls[k].id == id
    {
      assert SlotFiled(w.calls, w.requests[id]);
      assert calls[w.requests[id].ticket.slot.value].id == id;
    }
  }
}
