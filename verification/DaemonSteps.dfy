/** Runs continued event by event, and what single events change. */
module DaemonSteps {
  import opened Common
  import opened Primitives
  import opened Audit
  import opened Daemon

  /** A run continued by one event. */
  ghost function Continue(pr: Suite, r: Trace, ev: Event): Trace
    requires |r.worlds| > 0
  {
    Trace(r.evs + [ev], r.worlds + [Step(pr, Last(r), ev)])
  }

  lemma ContinueRuns(pr: Suite, r: Trace, ev: Event)
    requires IsRun(pr, r)
    ensures IsRun(pr, Continue(pr, r, ev)) && Last(Continue(pr, r, ev)) == Step(pr, Last(r), ev)
  {
    var r' := Continue(pr, r, ev);
    forall i: nat | i < |r'.evs| ensures Follows(pr, r', i) {
      if i < |r.evs| {
        assert Follows(pr, r, i);
      }
    }
  }

  /** What logging a request changes. */
  lemma LoggedWorld(pr: Suite, w: World, t: Ticket, stage: Stage, draft: Draft, now: int, io: IO, response: Response)
    requires t.id in w.requests && w.requests[t.id] == Pending(t, stage) && t.uptime == w.uptime
    requires stage == Refused(draft, response) ||
             (t.body.Some? && draft == SignDraft(t) && response.Success? && stage == Signed(response.env))
    ensures var w' := Step(pr, w, Event.Log(t.id, now, io));
            && w'.callers == w.callers && w'.slots == w.slots && w'.windows == w.windows
            && w'.auditFile == AppendFile(pr, w.auditFile, draft.(time := pr.showTime(now)), io).0
            && w'.requests == w.requests[t.id := Pending(t, Done(response))]
  {
  }

  /** What taking a slot changes. */
  lemma SlotWorld(pr: Suite, w: World, t: Ticket, now: int)
    requires t.id in w.requests && w.requests[t.id] == Pending(t, Admitted) && t.body.Some? && t.uptime == w.uptime
    ensures var w' := Step(pr, w, Event.TakeSlot(t.id, now));
            && w'.callers == w.callers && w'.slots == w.slots && w'.auditFile == w.auditFile
            && w'.windows == (if t.caller.ratePerHour <= 0 then w.windows
                              else w.windows[t.caller.name := WindowAfter(w, t, now)])
            && w'.requests == w.requests[t.id := TakeSlotStep(w, t, now)]
  {
  }

  /** What deciding changes. */
  lemma DecideWorld(pr: Suite, w: World, t: Ticket, now: int)
    requires t.id in w.requests && w.requests[t.id] == Pending(t, Known) && t.uptime == w.uptime
    ensures var w' := Step(pr, w, Event.Decide(t.id, now));
            && w'.callers == w.callers && w'.slots == w.slots && w'.auditFile == w.auditFile
            && w'.windows == w.windows && w'.uptime == w.uptime
            && w'.requests == w.requests[t.id := DecideStep(pr, w, t, now)]
  {
  }

  /** What looking at the key changes. */
  lemma KeyWorld(pr: Suite, w: World, t: Ticket)
    requires t.id in w.requests && w.requests[t.id] == Pending(t, Slotted) && t.body.Some? && t.uptime == w.uptime
    ensures var w' := Step(pr, w, Event.LoadKey(t.id));
            && w'.callers == w.callers && w'.slots == w.slots && w'.auditFile == w.auditFile
            && w'.windows == w.windows && w'.uptime == w.uptime
            && w'.requests == w.requests[t.id := LoadKeyStep(pr, w, t)]
  {
  }

  /** What signing changes. */
  lemma SignWorld(pr: Suite, w: World, t: Ticket)
    requires t.id in w.requests && w.requests[t.id] == Pending(t, Loaded) && t.body.Some? && t.uptime == w.uptime
    ensures var w' := Step(pr, w, Event.Sign(t.id));
            && w'.callers == w.callers && w'.slots == w.slots && w'.auditFile == w.auditFile
            && w'.windows == w.windows && w'.uptime == w.uptime
            && w'.requests == w.requests[t.id := SignStep(pr, w, t)]
  {
    var ev := Event.Sign(t.id);
    var p := SignStep(pr, w, t);
    ChangeCases(pr, w, ev);
    SignParts(pr, w, t);
    RecordOnly(pr, w, p);
  }

  lemma SignParts(pr: Suite, w: World, t: Ticket)
    requires t.id in w.requests && w.requests[t.id] == Pending(t, Loaded) && t.body.Some?
    ensures var ev, p := Event.Sign(t.id), SignStep(pr, w, t);
            Filed(pr, w, ev) == Some(p) && Beside(pr, w, ev) == RecordSignature(pr, w, p) && p.ticket.id == t.id
  {
  }

  lemma RecordOnly(pr: Suite, w: World, p: Pending)
    requires p.ticket.body.Some?
    ensures var w' := RecordSignature(pr, w, p);
            && w'.callers == w.callers && w'.slots == w.slots && w'.auditFile == w.auditFile
            && w'.windows == w.windows && w'.uptime == w.uptime && w'.requests == w.requests
  {
  }
}
