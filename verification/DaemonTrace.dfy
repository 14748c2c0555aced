/** Every signature the daemon issues has its whole history in the run; the end-to-end theorem. */
module DaemonTrace {
  import opened Common
  import opened Primitives
  import opened Policy
  import opened Envelopes
  import Keystore
  import Booth
  import RateLimit
  import opened Audit
  import opened Daemon

  // ----- what a ticket claims about the first n events of a run ------------

  /** The request that came in. */
  ghost predicate CameIn(r: Trace, n: nat, t: Ticket)
    requires n <= |r.evs| < |r.worlds|
  {
    && t.arrivedAt < n
    && r.evs[t.arrivedAt] == Arrive(t.id, t.header, t.post, t.body)
    && t.uptime == r.worlds[t.arrivedAt].uptime
  }

  /** Its token belonged, at that moment, to the record on disk. */
  ghost predicate WasKnown(pr: Suite, r: Trace, n: nat, t: Ticket)
    requires n <= |r.evs| < |r.worlds|
  {
    && CameIn(r, n, t)
    && t.arrivedAt < t.knownAt < n
    && r.evs[t.knownAt] == Authenticate(t.id)
    && Booth.Authenticated(pr, r.worlds[t.knownAt].callers, t.header) == Some(t.caller)
  }

  /** It was well formed, and the policy of that record allowed it at the instant then read. */
  ghost predicate WasAdmitted(pr: Suite, r: Trace, n: nat, t: Ticket)
    requires n <= |r.evs| < |r.worlds|
  {
    && WasKnown(pr, r, n, t)
    && t.knownAt < t.admittedAt < n
    && r.evs[t.admittedAt] == Decide(t.id, t.now)
    && t.post && t.body.Some? && ValidRequest(t.body.value)
    && Evaluate(pr.readTime, t.caller, PolicyRequest(t.body.value), t.now) == Allow
  }

  /** The caller's rate window had room for it. */
  ghost predicate WasSlotted(pr: Suite, r: Trace, n: nat, t: Ticket)
    requires n <= |r.evs| < |r.worlds|
  {
    && WasAdmitted(pr, r, n, t)
    && t.admittedAt < t.slottedAt < n
    && r.evs[t.slottedAt] == TakeSlot(t.id, t.slotTime)
    && t.uptime == r.worlds[t.slottedAt].uptime
    && (t.caller.ratePerHour > 0 ==>
          RateLimit.Admit(WindowOf(r.worlds[t.slottedAt], t.caller.name), t.caller.ratePerHour,
                          RateLimit.HourOf(UnixSeconds(t.slotTime))).1)
  }

  /** The key on disk was then this private key, and agreed with its record. */
  ghost predicate WasLoaded(pr: Suite, r: Trace, n: nat, t: Ticket)
    requires n <= |r.evs| < |r.worlds|
  {
    && WasSlotted(pr, r, n, t)
    && t.slottedAt < t.loadedAt < n
    && r.evs[t.loadedAt] == LoadKey(t.id)
    && var name := t.body.value.key;
       var loaded := Keystore.LoadSlot(pr, Keystore.SlotOf(r.worlds[t.loadedAt].slots, name), name);
       loaded.Ok? && loaded.value.0 == t.priv
  }

  ghost predicate WasSigned(pr: Suite, r: Trace, n: nat, t: Ticket)
    requires n <= |r.evs| < |r.worlds|
  {
    && WasLoaded(pr, r, n, t)
    && t.loadedAt < t.signedAt < n
    && r.evs[t.signedAt] == Sign(t.id)
  }

  ghost predicate StageTrue(pr: Suite, r: Trace, n: nat, p: Pending)
    requires n <= |r.evs| < |r.worlds|
  {
    match p.stage
    case Arrived => CameIn(r, n, p.ticket)
    case Known => WasKnown(pr, r, n, p.ticket)
    case Admitted => WasAdmitted(pr, r, n, p.ticket)
    case Slotted => WasSlotted(pr, r, n, p.ticket)
    case Loaded => WasLoaded(pr, r, n, p.ticket)
    case Signed(_) => WasSigned(pr, r, n, p.ticket)
    case Done(Success(_)) => WasSigned(pr, r, n, p.ticket)
    case Refused(_, response) => CameIn(r, n, p.ticket) && !response.Success?
    case Done(_) => CameIn(r, n, p.ticket)
  }

  /** Every request of a world satisfies `truth` and every grant `granted`. */
  ghost predicate All(truth: Pending -> bool, granted: Ticket -> bool, w: World) {
    && (forall id :: id in w.requests ==> w.requests[id].ticket.id == id && truth(w.requests[id]))
    && (forall i :: 0 <= i < |w.grants| ==> granted(w.grants[i]))
  }

  /** `StageTrue` and `WasSigned` as of event `n`, as values. */
  ghost function Truth(pr: Suite, r: Trace, n: nat): Pending -> bool
    requires n <= |r.evs| < |r.worlds|
  {
    p => StageTrue(pr, r, n, p)
  }

  ghost function Granted(pr: Suite, r: Trace, n: nat): Ticket -> bool
    requires n <= |r.evs| < |r.worlds|
  {
    t => WasSigned(pr, r, n, t)
  }

  /** Every request and every grant of world `n` tells the truth about the first n events. */
  ghost predicate Traced(pr: Suite, r: Trace, n: nat)
    requires n <= |r.evs| < |r.worlds|
  {
    r.worlds[n].steps == n && All(Truth(pr, r, n), Granted(pr, r, n), r.worlds[n])
  }

  /** Event `n` finds this request in this stage. */
  ghost predicate Finds(pr: Suite, r: Trace, n: nat, t: Ticket, stage: Stage)
    requires n < |r.evs| < |r.worlds|
  {
    var w := r.worlds[n];
    && w.steps == n && w.uptime == t.uptime
    && t.id in w.requests && w.requests[t.id] == Pending(t, stage)
    && StageTrue(pr, r, n, w.requests[t.id])
  }

  lemma AuthenticateTrue(pr: Suite, r: Trace, n: nat, t: Ticket)
    requires n < |r.evs| < |r.worlds| && Finds(pr, r, n, t, Arrived) && r.evs[n] == Authenticate(t.id)
    ensures var p := AuthenticateStep(pr, r.worlds[n], t); p.ticket.id == t.id && StageTrue(pr, r, n + 1, p)
  {
  }

  lemma DecideTrue(pr: Suite, r: Trace, n: nat, t: Ticket, now: int)
    requires n < |r.evs| < |r.worlds| && Finds(pr, r, n, t, Known) && r.evs[n] == Decide(t.id, now)
    ensures var p := DecideStep(pr, r.worlds[n], t, now); p.ticket.id == t.id && StageTrue(pr, r, n + 1, p)
  {
    StageLater(pr, r, n, r.worlds[n].requests[t.id]);
    if RefusalOf(pr, t.post, t.body, t.caller, now).None? {
      AllowedTrue(pr, r, n, t, now);
    } else {
      RefusedTrue(pr, r, n, t, now);
    }
  }

  lemma RefusedTrue(pr: Suite, r: Trace, n: nat, t: Ticket, now: int)
    requires n < |r.evs| < |r.worlds| && CameIn(r, n, t)
    requires RefusalOf(pr, t.post, t.body, t.caller, now).Some?
    ensures var p := DecideStep(pr, r.worlds[n], t, now); p.ticket == t && StageTrue(pr, r, n + 1, p)
  {
  }

  lemma AllowedTrue(pr: Suite, r: Trace, n: nat, t: Ticket, now: int)
    requires n < |r.evs| < |r.worlds| && WasKnown(pr, r, n, t) && r.worlds[n].steps == n && r.evs[n] == Decide(t.id, now)
    requires RefusalOf(pr, t.post, t.body, t.caller, now).None?
    ensures DecideStep(pr, r.worlds[n], t, now) == Pending(t.(now := now, admittedAt := n), Admitted)
    ensures WasAdmitted(pr, r, n + 1, t.(now := now, admittedAt := n))
  {
  }

  lemma TakeSlotTrue(pr: Suite, r: Trace, n: nat, t: Ticket, now: int)
    requires n < |r.evs| < |r.worlds| && Finds(pr, r, n, t, Admitted) && r.evs[n] == TakeSlot(t.id, now)
    ensures t.body.Some?
    ensures var p := TakeSlotStep(r.worlds[n], t, now); p.ticket.id == t.id && StageTrue(pr, r, n + 1, p)
  {
  }

  lemma LoadKeyTrue(pr: Suite, r: Trace, n: nat, t: Ticket)
    requires n < |r.evs| < |r.worlds| && Finds(pr, r, n, t, Slotted) && r.evs[n] == LoadKey(t.id)
    ensures t.body.Some?
    ensures var p := LoadKeyStep(pr, r.worlds[n], t); p.ticket.id == t.id && StageTrue(pr, r, n + 1, p)
  {
  }

  lemma SignTrue(pr: Suite, r: Trace, n: nat, t: Ticket)
    requires n < |r.evs| < |r.worlds| && Finds(pr, r, n, t, Loaded) && r.evs[n] == Sign(t.id)
    ensures t.body.Some?
    ensures var p := SignStep(pr, r.worlds[n], t); p.ticket.id == t.id && StageTrue(pr, r, n + 1, p)
  {
  }

  lemma LogTrue(pr: Suite, r: Trace, n: nat, p: Pending)
    requires n < |r.evs| < |r.worlds| && StageTrue(pr, r, n, p)
    ensures p.stage.Signed? ==> StageTrue(pr, r, n + 1, Pending(p.ticket, Done(Success(p.stage.env))))
    ensures p.stage.Refused? ==> StageTrue(pr, r, n + 1, Pending(p.ticket, Done(p.stage.response)))
  {
  }

  lemma StageLater(pr: Suite, r: Trace, n: nat, p: Pending)
    requires n < |r.evs| < |r.worlds| && StageTrue(pr, r, n, p)
    ensures StageTrue(pr, r, n + 1, p)
  {
  }

  lemma TruthLater(pr: Suite, r: Trace, n: nat, p: Pending)
    requires n < |r.evs| < |r.worlds| && Truth(pr, r, n)(p)
    ensures Truth(pr, r, n + 1)(p)
  {
    StageLater(pr, r, n, p);
  }

  lemma GrantedLater(pr: Suite, r: Trace, n: nat, t: Ticket)
    requires n < |r.evs| < |r.worlds| && Granted(pr, r, n)(t)
    ensures Granted(pr, r, n + 1)(t)
  {
  }

  /** The request a moving event files anew tells the truth. */
  lemma FiledTrue(pr: Suite, r: Trace, n: nat)
    requires n < |r.evs| < |r.worlds| && Traced(pr, r, n)
    requires Moves(r.evs[n]) && Live(r.worlds[n], r.evs[n].id) && Filed(pr, r.worlds[n], r.evs[n]).Some?
    ensures var p := Filed(pr, r.worlds[n], r.evs[n]).value;
            p.ticket.id == r.evs[n].id && StageTrue(pr, r, n + 1, p)
            && (r.evs[n].Sign? && p.stage.Signed? ==> WasSigned(pr, r, n + 1, p.ticket))
  {
    var w, ev := r.worlds[n], r.evs[n];
    var p := w.requests[ev.id];
    assert Truth(pr, r, n)(p);
    match (ev, p.stage) {
      case (Authenticate(_), Arrived) => AuthenticateTrue(pr, r, n, p.ticket);
      case (Decide(_, now), Known) => DecideTrue(pr, r, n, p.ticket, now);
      case (TakeSlot(_, now), Admitted) => TakeSlotTrue(pr, r, n, p.ticket, now);
      case (LoadKey(_), Slotted) => LoadKeyTrue(pr, r, n, p.ticket);
      case (Sign(_), Loaded) => SignTrue(pr, r, n, p.ticket);
      case (Log(_, now, io), Signed(env)) => LogTrue(pr, r, n, p);
      case (Log(_, now, io), Refused(draft, response)) => LogTrue(pr, r, n, p);
    }
  }

  /** The grant an event adds. */
  ghost function NewGrants(pr: Suite, w: World, ev: Event): seq<Ticket> {
    var p := NewlyFiled(pr, w, ev);
    if p.Some? && ev.Sign? && p.value.stage.Signed? then [p.value.ticket] else []
  }

  /** `w'` differs from `w` in neither requests nor step count, and has these grants besides. */
  ghost predicate Adds(w: World, w': World, g: seq<Ticket>) {
    w'.requests == w.requests && w'.steps == w.steps && w'.grants == w.grants + g
  }

  lemma CountAdds(w: World, t: Ticket, now: int)
    ensures Adds(w, CountCall(w, t, now), [])
  {
    assert w.grants + [] == w.grants;
  }

  lemma RecordAdds(pr: Suite, w: World, p: Pending)
    requires p.ticket.body.Some?
    ensures Adds(w, RecordSignature(pr, w, p), if p.stage.Signed? then [p.ticket] else [])
  {
    assert w.grants + [] == w.grants;
  }

  lemma LogAdds(pr: Suite, w: World, id: nat, draft: Draft, now: int, io: IO)
    ensures Adds(w, LogStep(pr, w, id, draft, now, io), [])
  {
    assert w.grants + [] == w.grants;
  }

  lemma BesideEffect(pr: Suite, w: World, ev: Event)
    requires Moves(ev) && Live(w, ev.id) && Filed(pr, w, ev).Some?
    ensures Adds(w, Beside(pr, w, ev), NewGrants(pr, w, ev))
  {
    var t := w.requests[ev.id].ticket;
    if ev.TakeSlot? {
      CountAdds(w, t, ev.now);
    } else if ev.Sign? {
      RecordAdds(pr, w, SignStep(pr, w, t));
    } else if ev.Log? {
      LogAdds(pr, w, t.id, DraftToLog(w, ev), ev.now, ev.io);
    } else {
      assert w.grants + [] == w.grants;
    }
  }

  lemma OutsideEffect(pr: Suite, w: World, ev: Event)
    requires Outside(ev)
    ensures var w' := OutsideStep(pr, w, ev);
            w'.requests == w.requests && w'.steps == w.steps && w'.grants == w.grants
  {
  }

  /** What an event does to the requests and the grants. */
  lemma Effect(pr: Suite, w: World, ev: Event)
    ensures var p := NewlyFiled(pr, w, ev);
            var w' := Step(pr, w, ev);
            && w'.steps == w.steps + 1
            && w'.requests == (if p.Some? then w.requests[p.value.ticket.id := p.value] else w.requests)
            && w'.grants == w.grants + NewGrants(pr, w, ev)
  {
    if Outside(ev) {
      OutsideEffect(pr, w, ev);
    } else if Moves(ev) && NewlyFiled(pr, w, ev).Some? {
      BesideEffect(pr, w, ev);
    }
  }

  lemma Extended(truth: Pending -> bool, granted: Ticket -> bool, w: World, w': World, p: Option<Pending>, g: seq<Ticket>)
    requires forall id :: id in w.requests ==> w.requests[id].ticket.id == id && truth(w.requests[id])
    requires forall i :: 0 <= i < |w.grants| ==> granted(w.grants[i])
    requires p.Some? ==> truth(p.value)
    requires g == [] || (|g| == 1 && granted(g[0]))
    requires w'.requests == (if p.Some? then w.requests[p.value.ticket.id := p.value] else w.requests)
    requires w'.grants == w.grants + g
    ensures All(truth, granted, w')
  {
  }

  /** A newly filed request tells the truth, and so does a new grant. */
  lemma NewlyFiledTrue(pr: Suite, r: Trace, n: nat)
    requires n < |r.evs| < |r.worlds| && Traced(pr, r, n) && NewlyFiled(pr, r.worlds[n], r.evs[n]).Some?
    ensures var p := NewlyFiled(pr, r.worlds[n], r.evs[n]).value;
            var g := NewGrants(pr, r.worlds[n], r.evs[n]);
            && Truth(pr, r, n + 1)(p)
            && (g == [] || (|g| == 1 && Granted(pr, r, n + 1)(g[0])))
  {
    if Moves(r.evs[n]) {
      FiledTrue(pr, r, n);
    }
  }

  lemma StepKeeps(pr: Suite, r: Trace, n: nat)
    requires n < |r.evs| && IsRun(pr, r) && Traced(pr, r, n)
    ensures Traced(pr, r, n + 1)
  {
    var w, ev := r.worlds[n], r.evs[n];
    assert Follows(pr, r, n);
    Effect(pr, w, ev);
    forall id | id in w.requests ensures Truth(pr, r, n + 1)(w.requests[id]) {
      TruthLater(pr, r, n, w.requests[id]);
    }
    forall i | 0 <= i < |w.grants| ensures Granted(pr, r, n + 1)(w.grants[i]) {
      GrantedLater(pr, r, n, w.grants[i]);
    }
    var p := NewlyFiled(pr, w, ev);
    if p.Some? {
      NewlyFiledTrue(pr, r, n);
    }
    Extended(Truth(pr, r, n + 1), Granted(pr, r, n + 1), w, r.worlds[n + 1], p, NewGrants(pr, w, ev));
  }

  /** At every moment of every run, all requests and grants tell the truth. */
  lemma {:induction false} AlwaysTraced(pr: Suite, r: Trace, n: nat)
    requires IsRun(pr, r) && n <= |r.evs|
    ensures Traced(pr, r, n)
  {
    if n > 0 {
      AlwaysTraced(pr, r, n - 1);
      StepKeeps(pr, r, n - 1);
    }
  }
}
