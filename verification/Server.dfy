/** The sequential request handler of internal/server/server.go, as an object over the booth on disk.

    The server carries, as a ghost, the run of the state machine it has taken part in; every method
    extends that run by exactly the events it performs, so all that holds of runs holds of the object.
 */
module Server {
  import opened Common
  import opened Primitives
  import opened Policy
  import Envelopes
  import Keystore
  import Booth
  import RateLimit
  import opened Audit
  import opened Daemon
  import opened DaemonSteps

  /** Its events settle a run. */
  lemma {:induction false} RunsAgree(pr: Suite, r: Trace, q: Trace, n: nat)
    requires IsRun(pr, r) && IsRun(pr, q) && n <= |r.evs| && n <= |q.evs| && r.evs[..n] == q.evs[..n]
    ensures r.worlds[..n + 1] == q.worlds[..n + 1]
    ensures |r.evs| == |q.evs| == n ==> r == q
  {
    if n > 0 {
      assert r.evs[..n][..n - 1] == r.evs[..n - 1] && q.evs[..n][..n - 1] == q.evs[..n - 1];
      RunsAgree(pr, r, q, n - 1);
      assert r.worlds[..n][n - 1] == r.worlds[n - 1] && q.worlds[..n][n - 1] == q.worlds[n - 1];
      assert r.evs[..n][n - 1] == r.evs[n - 1] && q.evs[..n][n - 1] == q.evs[n - 1];
      assert Follows(pr, r, n - 1) && Follows(pr, q, n - 1);
    }
  }

  /** The runs that go on from this one by exactly these events. */
  ghost function By(before: Trace, evs: seq<Event>): Trace -> bool {
    (after: Trace) => after.evs == before.evs + evs
  }

  lemma GoesOn(a: Trace, b: Trace, c: Trace, first: seq<Event>, then_: seq<Event>, all: seq<Event>)
    requires By(a, first)(b) && By(b, then_)(c) && all == first + then_
    ensures By(a, all)(c)
  {
  }

  /** Only request `id` was filed anew. */
  ghost predicate OnlyChanged(before: map<nat, Pending>, after: map<nat, Pending>, id: nat) {
    && after.Keys == before.Keys + {id}
    && forall other :: other in before && other != id ==> after[other] == before[other]
  }

  /** The same request, from the same caller. */
  ghost predicate Same(t: Ticket, before: Ticket) {
    t.id == before.id && t.header == before.header && t.post == before.post && t.body == before.body && t.caller == before.caller
  }

  // ----- what a request comes to -------------------------------------------

  /** The answer once the key is in hand. */
  function FinishAnswer(pr: Suite, priv: string, req: SignRequest, caller: Caller, now: int): Response {
    match Envelopes.Sign(pr, priv, PayloadFor(pr, req, caller, now))
    case Err(_) => InternalError
    case Ok(env) => Success(env)
  }

  /** The answer once a slot was taken. */
  function IssueAnswer(pr: Suite, slots: map<string, Keystore.Slot>, req: SignRequest, caller: Caller, now: int): Response {
    match Keystore.LoadSlot(pr, Keystore.SlotOf(slots, req.key), req.key)
    case Err(e) => KeyUnavailable(e)
    case Ok(loaded) => FinishAnswer(pr, loaded.0, req, caller, now)
  }

  /** The answer to a request the policy allows. */
  function LimitAnswer(pr: Suite, windows: map<string, RateLimit.Window>, slots: map<string, Keystore.Slot>,
                       req: SignRequest, caller: Caller, now: int, slotTime: int): Response
  {
    if SlotFree(windows, caller, slotTime) then IssueAnswer(pr, slots, req, caller, now) else TooManyRequests
  }

  /** The answer to an authenticated request. */
  function AdmitAnswer(pr: Suite, windows: map<string, RateLimit.Window>, slots: map<string, Keystore.Slot>,
                       post: bool, body: Option<SignRequest>, caller: Caller, now: int, slotTime: int): Response
  {
    var refusal := RefusalOf(pr, post, body, caller, now);
    if refusal.Some? then refusal.value else LimitAnswer(pr, windows, slots, body.value, caller, now, slotTime)
  }

  /** The answer to a request from whom it may be. */
  function AnswerTo(pr: Suite, windows: map<string, RateLimit.Window>, slots: map<string, Keystore.Slot>,
                    post: bool, body: Option<SignRequest>, who: Option<Caller>, now: int, slotTime: int): Response
  {
    if who.None? then Unauthorized else AdmitAnswer(pr, windows, slots, post, body, who.value, now, slotTime)
  }

  /** The log once an answer was given: one entry for it if it calls for one. */
  function LogAfter(pr: Suite, file: string, t: Ticket, response: Response, logTime: int, io: IO): string {
    if Audited(response)
    then AppendFile(pr, file, AnswerDraft(t, response).(time := pr.showTime(logTime)), io).0
    else file
  }

  function LogEvents(response: Response, id: nat, logTime: int, io: IO): seq<Event> {
    if Audited(response) then [Event.Log(id, logTime, io)] else []
  }

  /** The steps from the signature on; and so on back to the arrival of the request. */
  function FinishEvents(response: Response, id: nat, logTime: int, io: IO): seq<Event> {
    [Event.Sign(id)] + LogEvents(response, id, logTime, io)
  }

  function IssueEvents(response: Response, id: nat, logTime: int, io: IO): seq<Event> {
    [Event.LoadKey(id)] +
    if response.KeyUnavailable? then LogEvents(response, id, logTime, io) else FinishEvents(response, id, logTime, io)
  }

  function LimitEvents(response: Response, id: nat, slotTime: int, logTime: int, io: IO): seq<Event> {
    [Event.TakeSlot(id, slotTime)] +
    if response.TooManyRequests? then LogEvents(response, id, logTime, io) else IssueEvents(response, id, logTime, io)
  }

  function ProceedEvents(response: Response, id: nat, slotTime: int, logTime: int, io: IO): seq<Event> {
    if response.MethodNotAllowed? || response.BadRequest? || response.Forbidden? then LogEvents(response, id, logTime, io)
    else LimitEvents(response, id, slotTime, logTime, io)
  }

  function AdmitEvents(response: Response, id: nat, now: int, slotTime: int, logTime: int, io: IO): seq<Event> {
    [Event.Decide(id, now)] + ProceedEvents(response, id, slotTime, logTime, io)
  }

  /** The steps that follow authentication. */
  function AnswerEvents(response: Response, id: nat, now: int, slotTime: int, logTime: int, io: IO): seq<Event> {
    if response.Unauthorized? then LogEvents(response, id, logTime, io)
    else AdmitEvents(response, id, now, slotTime, logTime, io)
  }

  /** The steps a request takes to its answer. */
  function ServeEvents(response: Response, id: nat, header: string, post: bool, body: Option<SignRequest>,
                       now: int, slotTime: int, logTime: int, io: IO): seq<Event>
  {
    [Arrive(id, header, post, body), Event.Authenticate(id)] + AnswerEvents(response, id, now, slotTime, logTime, io)
  }

  lemma AdmitAnswerIs(pr: Suite, windows: map<string, RateLimit.Window>, slots: map<string, Keystore.Slot>,
                      post: bool, body: Option<SignRequest>, caller: Caller, now: int, slotTime: int)
    ensures var refusal := RefusalOf(pr, post, body, caller, now);
            && (refusal.Some? ==>
                  AdmitAnswer(pr, windows, slots, post, body, caller, now, slotTime) == refusal.value
                  && (refusal.value.MethodNotAllowed? || refusal.value.BadRequest? || refusal.value.Forbidden?))
            && (refusal.None? ==>
                  body.Some?
                  && AdmitAnswer(pr, windows, slots, post, body, caller, now, slotTime) ==
                     LimitAnswer(pr, windows, slots, body.value, caller, now, slotTime))
  {
  }

  class Server {
    const pr: Suite
    const registry: Booth.Registry
    const keys: Keystore.Store
    const audit: Log
    var windows: map<string, RateLimit.Window>
    ghost var run: Trace

    /** The disk and the windows are those of the last world of a run. */
    ghost predicate Valid()
      reads this, registry, keys, audit
    {
      && IsRun(pr, run)
      && registry.file == World().callers
      && (forall name :: Keystore.SlotOf(keys.slots, name) == Keystore.SlotOf(World().slots, name))
      && audit.file == World().auditFile
      && windows == World().windows
    }

    ghost function World(): World
      reads this
    {
      if |run.worlds| > 0 then Last(run) else START
    }

    /** The request, come in since the daemon was started, and the stage it has reached. */
    ghost predicate Holds(t: Ticket, stage: Stage)
      reads this
    {
      t.id in World().requests && World().requests[t.id] == Pending(t, stage) && t.uptime == World().uptime
    }

    constructor (pr: Suite)
      ensures Valid() && this.pr == pr && run == Trace([], [START])
      ensures fresh(registry) && fresh(keys) && fresh(audit)
    {
      this.pr := pr;
      registry := new Booth.Registry();
      keys := new Keystore.Store();
      audit := new Log("");
      windows := map[];
      run := Trace([], [START]);
    }

    /** Record an event in the run. */
    ghost method Note(ev: Event)
      requires IsRun(pr, run)
      modifies this`run
      ensures run == Continue(pr, old(run), ev) && IsRun(pr, run)
      ensures World() == Step(pr, old(World()), ev)
    {
      ContinueRuns(pr, run, ev);
      run := Continue(pr, run, ev);
    }

    /** `allowRate`: one pass through the caller's window. */
    method AllowRate(caller: string, limit: int, now: int) returns (ok: bool)
      modifies this`windows
      ensures limit <= 0 ==> ok && windows == old(windows)
      ensures limit > 0 ==>
                var win := if caller in old(windows) then Some(old(windows)[caller]) else None;
                var (after, admitted) := RateLimit.Admit(win, limit, RateLimit.HourOf(UnixSeconds(now)));
                ok == admitted && windows == old(windows)[caller := after]
    {
      if limit <= 0 {
        return true;
      }
      var hour := RateLimit.HourOf(UnixSeconds(now));
      var win := RateLimit.Window(hour, 0);
      if caller in windows && windows[caller].hour == hour {
        win := windows[caller];
      }
      if win.count >= limit {
        windows := windows[caller := win];
        return false;
      }
      win := win.(count := win.count + 1);
      windows := windows[caller := win];
      return true;
    }

    /** A request comes in. */
    ghost method Receive(id: nat, header: string, post: bool, body: Option<SignRequest>) returns (t: Ticket)
      requires Valid() && id !in World().requests
      modifies this`run
      ensures Valid() && OnlyChanged(old(World()).requests, World().requests, id)
      ensures By(old(run), [Arrive(id, header, post, body)])(run)
      ensures t == NewTicket(id, header, post, body, old(World()).uptime, old(World()).steps) && Holds(t, Arrived)
    {
      t := NewTicket(id, header, post, body, World().uptime, World().steps);
      Note(Arrive(id, header, post, body));
    }

    /** `authenticate`. */
    method Authenticate(ghost t: Ticket, id: nat, header: string) returns (c: Option<Caller>, ghost t': Ticket)
      requires Valid() && Holds(t, Arrived) && t.id == id && t.header == header
      modifies this`run
      ensures Valid() && OnlyChanged(old(World()).requests, World().requests, id)
      ensures By(old(run), [Event.Authenticate(id)])(run)
      ensures c == Booth.Authenticated(pr, registry.file, header)
      ensures t'.id == id && t'.header == header && t'.post == t.post && t'.body == t.body
      ensures c == None ==> Holds(t', Refused(REJECT_DRAFT, Unauthorized))
      ensures c.Some? ==> Holds(t', Known) && t'.caller == c.value
    {
      c := Booth.Authenticate(pr, registry.file, header);
      t' := AuthenticateStep(pr, World(), t).ticket;
      Note(Event.Authenticate(id));
    }

    /** `validateSignRequest` and `Evaluate`: the answer to a request that goes no further. */
    method Decide(ghost t: Ticket, id: nat, post: bool, body: Option<SignRequest>, caller: Caller, now: int)
      returns (refusal: Option<Response>, ghost t': Ticket)
      requires Valid() && Holds(t, Known) && t.id == id && t.post == post && t.body == body && t.caller == caller
      modifies this`run
      ensures Valid() && OnlyChanged(old(World()).requests, World().requests, id)
      ensures By(old(run), [Event.Decide(id, now)])(run)
      ensures refusal == RefusalOf(pr, post, body, caller, now)
      ensures t'.id == id && t'.header == t.header && t'.post == post && t'.body == body && t'.caller == caller
      ensures refusal == None ==> body.Some? && Holds(t', Admitted) && t'.now == now
      ensures refusal.Some? ==>
                if refusal.value.Forbidden?
                then body.Some? && Holds(t', Refused(DenyDraft(t', ReasonText(refusal.value.reason)), refusal.value))
                else Holds(t', Done(refusal.value))
    {
      DecideWorld(pr, World(), t, now);
      t' := DecideStep(pr, World(), t, now).ticket;
      Note(Event.Decide(id, now));
      if !post {
        return Some(MethodNotAllowed), t';
      }
      if body.None? {
        return Some(BadRequest), t';
      }
      var req := body.value;
      if !ValidRequest(req) {
        return Some(BadRequest), t';
      }
      var decision := Evaluate(pr.readTime, caller, Request(req.key, req.artifact, req.size), now);
      if decision.Deny? {
        return Some(Forbidden(decision.reason)), t';
      }
      return None, t';
    }

    /** `allowRate`, for this request. */
    method TakeSlot(ghost t: Ticket, id: nat, caller: Caller, now: int) returns (ok: bool, ghost t': Ticket)
      requires Valid() && Holds(t, Admitted) && t.id == id && t.body.Some? && t.caller == caller
      modifies this`run, this`windows
      ensures Valid() && OnlyChanged(old(World()).requests, World().requests, id)
      ensures By(old(run), [Event.TakeSlot(id, now)])(run)
      ensures ok == SlotFree(old(windows), caller, now)
      ensures t'.id == id && t'.header == t.header && t'.post == t.post && t'.body == t.body
      ensures t'.caller == caller && t'.now == t.now
      ensures Holds(t', if ok then Slotted else Refused(DenyDraft(t', "rate limit reached"), TooManyRequests))
    {
      SlotWorld(pr, World(), t, now);
      t' := TakeSlotStep(World(), t, now).ticket;
      ok := AllowRate(caller.name, caller.ratePerHour, now);
      Note(Event.TakeSlot(id, now));
    }

    method LoadKey(ghost t: Ticket, id: nat, name: string)
      returns (r: Result<(string, Keystore.Record), Keystore.KeyError>, ghost t': Ticket)
      requires Valid() && Holds(t, Slotted) && t.id == id && t.body.Some? && t.body.value.key == name
      modifies this`run
      ensures Valid() && OnlyChanged(old(World()).requests, World().requests, id)
      ensures By(old(run), [Event.LoadKey(id)])(run)
      ensures r == Keystore.LoadSlot(pr, Keystore.SlotOf(keys.slots, name), name)
      ensures t'.id == id && t'.header == t.header && t'.post == t.post && t'.body == t.body
      ensures t'.caller == t.caller && t'.now == t.now
      ensures r.Ok? ==> Holds(t', Loaded) && t'.priv == r.value.0
      ensures r.Err? ==> Holds(t', Refused(DenyDraft(t', "key unavailable"), KeyUnavailable(r.error)))
    {
      KeyWorld(pr, World(), t);
      t' := LoadKeyStep(pr, World(), t).ticket;
      r := keys.Load(pr, name);
      Note(Event.LoadKey(id));
    }

    method Sign(ghost t: Ticket, id: nat, priv: string, p: Payload)
      returns (r: Result<Envelope, Envelopes.SignError>, ghost t': Ticket)
      requires Valid() && Holds(t, Loaded) && t.id == id && t.body.Some? && t.priv == priv && PayloadOf(pr, t) == p
      modifies this`run
      ensures Valid() && OnlyChanged(old(World()).requests, World().requests, id)
      ensures By(old(run), [Event.Sign(id)])(run)
      ensures r == Envelopes.Sign(pr, priv, p)
      ensures t'.id == id && t'.header == t.header && t'.post == t.post && t'.body == t.body && t'.caller == t.caller
      ensures Holds(t', if r.Ok? then Signed(r.value) else Done(InternalError))
    {
      SignWorld(pr, World(), t);
      t' := SignStep(pr, World(), t).ticket;
      r := Envelopes.Sign(pr, priv, p);
      Note(Event.Sign(id));
    }

    /** `log`: stamp, append, ignore failure. */
    method LogEntry(ghost t: Ticket, ghost stage: Stage, id: nat, draft: Draft, now: int, io: IO, ghost response: Response)
      requires Valid() && Holds(t, stage) && t.id == id
      requires stage == Refused(draft, response) ||
               (t.body.Some? && draft == SignDraft(t) && response.Success? && stage == Signed(response.env))
      requires Audited(response) && draft == AnswerDraft(t, response)
      modifies this`run, audit
      ensures Valid() && OnlyChanged(old(World()).requests, World().requests, id)
      ensures By(old(run), LogEvents(response, id, now, io))(run)
      ensures audit.file == AppendFile(pr, old(audit.file), draft.(time := pr.showTime(now)), io).0
      ensures audit.file == LogAfter(pr, old(audit.file), t, response, now, io)
      ensures Holds(t, Done(response))
    {
      var stamped := draft.(time := pr.showTime(now));
      LoggedWorld(pr, World(), t, stage, draft, now, io, response);
      var r := audit.Append(pr, stamped, io);
      Note(Event.Log(id, now, io));
    }

    /** The part of `handleSign` that signs. */
    method Finish(ghost loaded: Ticket, id: nat, priv: string, req: SignRequest, caller: Caller, now: int, logTime: int, io: IO)
      returns (response: Response, ghost t: Ticket)
      requires Valid() && Holds(loaded, Loaded) && loaded.priv == priv
      requires loaded.id == id && loaded.body == Some(req) && loaded.caller == caller && loaded.now == now
      modifies this`run, audit
      ensures Valid() && OnlyChanged(old(World()).requests, World().requests, id)
      ensures response == FinishAnswer(pr, priv, req, caller, now)
      ensures By(old(run), FinishEvents(response, id, logTime, io))(run)
      ensures audit.file == LogAfter(pr, old(audit.file), t, response, logTime, io)
      ensures Same(t, loaded) && Holds(t, Done(response))
    {
      var payload := Payload("", req.artifact, req.digest, req.size, req.key, "", caller.name, pr.showTime(now));
      var signed;
      signed, t := Sign(loaded, id, priv, payload);
      label signed:
      if signed.Err? {
        assert [Event.Sign(id)] + [] == [Event.Sign(id)];
        return InternalError, t;
      }
      response := Success(signed.value);
      var draft := Draft("", caller.name, ACTION_SIGN, req.key, req.artifact, req.digest, "");
      LogEntry(t, Signed(signed.value), id, draft, logTime, io, response);
      GoesOn(old(run), old@signed(run), run, [Event.Sign(id)], LogEvents(response, id, logTime, io),
             FinishEvents(response, id, logTime, io));
    }

    /** The part of `handleSign` from the key on. */
    method Issue(ghost slotted: Ticket, id: nat, req: SignRequest, caller: Caller, now: int, logTime: int, io: IO)
      returns (response: Response, ghost t: Ticket)
      requires Valid() && Holds(slotted, Slotted)
      requires slotted.id == id && slotted.body == Some(req) && slotted.caller == caller && slotted.now == now
      modifies this`run, audit
      ensures Valid() && OnlyChanged(old(World()).requests, World().requests, id)
      ensures response == IssueAnswer(pr, keys.slots, req, caller, now)
      ensures By(old(run), IssueEvents(response, id, logTime, io))(run)
      ensures audit.file == LogAfter(pr, old(audit.file), t, response, logTime, io)
      ensures Same(t, slotted) && Holds(t, Done(response))
    {
      var loaded;
      loaded, t := LoadKey(slotted, id, req.key);
      label loaded:
      if loaded.Err? {
        response := KeyUnavailable(loaded.error);
        var draft := Draft("", caller.name, ACTION_DENY, req.key, req.artifact, req.digest, "key unavailable");
        LogEntry(t, Refused(draft, response), id, draft, logTime, io, response);
        GoesOn(old(run), old@loaded(run), run, [Event.LoadKey(id)], LogEvents(response, id, logTime, io),
               IssueEvents(response, id, logTime, io));
      } else {
        response, t := Finish(t, id, loaded.value.0, req, caller, now, logTime, io);
        GoesOn(old(run), old@loaded(run), run, [Event.LoadKey(id)], FinishEvents(response, id, logTime, io),
               IssueEvents(response, id, logTime, io));
      }
    }

    /** The part of `handleSign` from the rate window on. */
    method Limit(ghost admitted: Ticket, id: nat, req: SignRequest, caller: Caller,
                 now: int, slotTime: int, logTime: int, io: IO)
      returns (response: Response, ghost t: Ticket)
      requires Valid() && Holds(admitted, Admitted)
      requires admitted.id == id && admitted.body == Some(req) && admitted.caller == caller && admitted.now == now
      modifies this`run, this`windows, audit
      ensures Valid() && OnlyChanged(old(World()).requests, World().requests, id)
      ensures response == LimitAnswer(pr, old(windows), keys.slots, req, caller, now, slotTime)
      ensures By(old(run), LimitEvents(response, id, slotTime, logTime, io))(run)
      ensures audit.file == LogAfter(pr, old(audit.file), t, response, logTime, io)
      ensures Same(t, admitted) && Holds(t, Done(response))
    {
      var ok;
      ok, t := TakeSlot(admitted, id, caller, slotTime);
      label slotted:
      if ok {
        response, t := Issue(t, id, req, caller, now, logTime, io);
        GoesOn(old(run), old@slotted(run), run, [Event.TakeSlot(id, slotTime)], IssueEvents(response, id, logTime, io),
               LimitEvents(response, id, slotTime, logTime, io));
      } else {
        response := TooManyRequests;
        var draft := Draft("", caller.name, ACTION_DENY, req.key, req.artifact, req.digest, "rate limit reached");
        LogEntry(t, Refused(draft, response), id, draft, logTime, io, response);
        GoesOn(old(run), old@slotted(run), run, [Event.TakeSlot(id, slotTime)], LogEvents(response, id, logTime, io),
               LimitEvents(response, id, slotTime, logTime, io));
      }
    }

    /** A denial is logged, a malformed request is not. */
    method LogRefusal(ghost t: Ticket, id: nat, body: Option<SignRequest>, caller: Caller, response: Response, logTime: int, io: IO)
      requires Valid() && t.id == id && t.body == body && t.caller == caller
      requires response.MethodNotAllowed? || response.BadRequest? || (response.Forbidden? && body.Some?)
      requires Holds(t, if response.Forbidden? then Refused(DenyDraft(t, ReasonText(response.reason)), response) else Done(response))
      modifies this`run, audit
      ensures Valid() && OnlyChanged(old(World()).requests, World().requests, id)
      ensures By(old(run), LogEvents(response, id, logTime, io))(run)
      ensures audit.file == LogAfter(pr, old(audit.file), t, response, logTime, io)
      ensures Holds(t, Done(response))
    {
      if response.Forbidden? {
        var req := body.value;
        var draft := Draft("", caller.name, ACTION_DENY, req.key, req.artifact, req.digest, ReasonText(response.reason));
        LogEntry(t, Refused(draft, response), id, draft, logTime, io, response);
      } else {
        assert run.evs + [] == run.evs;
      }
    }

    /** What `handleSign` does once the request was judged. */
    method Proceed(ghost judged: Ticket, refusal: Option<Response>, id: nat, body: Option<SignRequest>, caller: Caller,
                   now: int, slotTime: int, logTime: int, io: IO)
      returns (response: Response, ghost t: Ticket)
      requires Valid() && judged.id == id && judged.body == body && judged.caller == caller
      requires refusal.None? ==> body.Some? && Holds(judged, Admitted) && judged.now == now
      requires refusal.Some? ==>
                 var r := refusal.value;
                 && (r.MethodNotAllowed? || r.BadRequest? || (r.Forbidden? && body.Some?))
                 && Holds(judged, if r.Forbidden? then Refused(DenyDraft(judged, ReasonText(r.reason)), r) else Done(r))
      modifies this`run, this`windows, audit
      ensures Valid() && OnlyChanged(old(World()).requests, World().requests, id)
      ensures refusal.Some? ==> response == refusal.value
      ensures refusal.None? ==> response == LimitAnswer(pr, old(windows), keys.slots, body.value, caller, now, slotTime)
      ensures By(old(run), ProceedEvents(response, id, slotTime, logTime, io))(run)
      ensures audit.file == LogAfter(pr, old(audit.file), t, response, logTime, io)
      ensures Same(t, judged) && Holds(t, Done(response))
    {
      if refusal.Some? {
        response, t := refusal.value, judged;
        LogRefusal(t, id, body, caller, response, logTime, io);
      } else {
        response, t := Limit(judged, id, body.value, caller, now, slotTime, logTime, io);
      }
    }

    /** `handleSign`. */
    method Admit(ghost known: Ticket, id: nat, post: bool, body: Option<SignRequest>, caller: Caller,
                 now: int, slotTime: int, logTime: int, io: IO)
      returns (response: Response, ghost t: Ticket)
      requires Valid() && Holds(known, Known)
      requires known.id == id && known.post == post && known.body == body && known.caller == caller
      modifies this`run, this`windows, audit
      ensures Valid() && OnlyChanged(old(World()).requests, World().requests, id)
      ensures response == AdmitAnswer(pr, old(windows), keys.slots, post, body, caller, now, slotTime)
      ensures By(old(run), AdmitEvents(response, id, now, slotTime, logTime, io))(run)
      ensures audit.file == LogAfter(pr, old(audit.file), t, response, logTime, io)
      ensures Same(t, known) && Holds(t, Done(response))
    {
      AdmitAnswerIs(pr, windows, keys.slots, post, body, caller, now, slotTime);
      var refusal;
      refusal, t := Decide(known, id, post, body, caller, now);
      label decided:
      response, t := Proceed(t, refusal, id, body, caller, now, slotTime, logTime, io);
      GoesOn(old(run), old@decided(run), run, [Event.Decide(id, now)],
             ProceedEvents(response, id, slotTime, logTime, io), AdmitEvents(response, id, now, slotTime, logTime, io));
    }

    /** A request comes in and is looked up. */
    method Accept(id: nat, header: string, ghost post: bool, ghost body: Option<SignRequest>)
      returns (who: Option<Caller>, ghost t: Ticket)
      requires Valid() && id !in World().requests
      modifies this`run
      ensures Valid() && OnlyChanged(old(World()).requests, World().requests, id)
      ensures who == Booth.Authenticated(pr, registry.file, header)
      ensures By(old(run), [Arrive(id, header, post, body), Event.Authenticate(id)])(run)
      ensures t.id == id && t.header == header && t.post == post && t.body == body
      ensures who == None ==> Holds(t, Refused(REJECT_DRAFT, Unauthorized))
      ensures who.Some? ==> Holds(t, Known) && t.caller == who.value
    {
      t := Receive(id, header, post, body);
      label received:
      who, t := Authenticate(t, id, header);
      GoesOn(old(run), old@received(run), run, [Arrive(id, header, post, body)], [Event.Authenticate(id)],
             [Arrive(id, header, post, body), Event.Authenticate(id)]);
    }

    /** What `authed` does with whom it found. */
    method Answer(ghost found: Ticket, who: Option<Caller>, id: nat, post: bool, body: Option<SignRequest>,
                  now: int, slotTime: int, logTime: int, io: IO)
      returns (response: Response, ghost t: Ticket)
      requires Valid() && Holds(found, if who.Some? then Known else Refused(REJECT_DRAFT, Unauthorized))
      requires found.id == id && found.post == post && found.body == body && (who.Some? ==> found.caller == who.value)
      modifies this`run, this`windows, audit
      ensures Valid() && OnlyChanged(old(World()).requests, World().requests, id)
      ensures response == AnswerTo(pr, old(windows), keys.slots, post, body, who, now, slotTime)
      ensures By(old(run), AnswerEvents(response, id, now, slotTime, logTime, io))(run)
      ensures audit.file == LogAfter(pr, old(audit.file), t, response, logTime, io)
      ensures Same(t, found) && Holds(t, Done(response))
    {
      if who.None? {
        response, t := Unauthorized, found;
        LogEntry(t, Refused(REJECT_DRAFT, Unauthorized), id, REJECT_DRAFT, logTime, io, Unauthorized);
      } else {
        response, t := Admit(found, id, post, body, who.value, now, slotTime, logTime, io);
      }
    }

    /** `authed(handleSign)`: serve one sign request from arrival to answer. The answer is the one the token, the
        records, the windows and the keys call for; the run goes on by exactly the steps of this
        request, with the instants and the write outcome given; and the log gets the entry the answer
        calls for and no other. */
    method Serve(id: nat, header: string, post: bool, body: Option<SignRequest>, now: int, slotTime: int, logTime: int, io: IO)
      returns (response: Response, ghost t: Ticket)
      requires Valid() && id !in World().requests
      modifies this`run, this`windows, audit
      ensures Valid() && OnlyChanged(old(World()).requests, World().requests, id)
      ensures response == AnswerTo(pr, old(windows), keys.slots, post, body,
                                   Booth.Authenticated(pr, registry.file, header), now, slotTime)
      ensures By(old(run), ServeEvents(response, id, header, post, body, now, slotTime, logTime, io))(run)
      ensures audit.file == LogAfter(pr, old(audit.file), t, response, logTime, io)
      ensures t.id == id && t.header == header && t.post == post && t.body == body && Holds(t, Done(response))
      ensures response != Unauthorized ==> Some(t.caller) == Booth.Authenticated(pr, registry.file, header)
    {
      var who;
      who, t := Accept(id, header, post, body);
      label found:
      response, t := Answer(t, who, id, post, body, now, slotTime, logTime, io);
      GoesOn(old(run), old@found(run), run, [Arrive(id, header, post, body), Event.Authenticate(id)],
             AnswerEvents(response, id, now, slotTime, logTime, io),
             ServeEvents(response, id, header, post, body, now, slotTime, logTime, io));
    }

    /** The daemon is stopped and started again. */
    method Restart()
      requires Valid()
      modifies this`run, this`windows
      ensures Valid() && windows == map[]
      ensures run == Continue(pr, old(run), Event.Restart)
    {
      windows := map[];
      Note(Event.Restart);
    }

    // ----- the operator's commands, as the server sees them ------------------

    /** `caller add`. */
    method AddCaller(c: Caller, token: string, io: Booth.SaveIO) returns (r: Result<string, Booth.BoothError>)
      requires Valid()
      modifies this`run, registry
      ensures Valid()
      ensures (registry.file, r) == Booth.AddCaller(pr, old(registry.file), c, token, io)
      ensures run == Continue(pr, old(run), EditCallers(registry.file))
    {
      r := registry.Add(pr, c, token, io);
      Note(EditCallers(registry.file));
    }

    /** `key create`, with a freshly generated key, interrupted anywhere. */
    method CreateKey(name: string, priv: string, createdAt: string, upto: nat)
      returns (r: Result<Keystore.Record, Keystore.KeyError>)
      requires Valid() && |priv| == PRIVATE_KEY_SIZE && pr.publicHalf(priv) !in World().foreignKeys
      modifies this`run, keys
      ensures Valid()
      ensures var (slot, result) := Keystore.CreateSlot(pr, Keystore.SlotOf(old(keys.slots), name), name, priv, createdAt, upto);
              r == result && Keystore.SlotOf(keys.slots, name) == slot
      ensures run == Continue(pr, old(run), Event.CreateKey(name, priv, createdAt, upto))
    {
      r := keys.Create(pr, name, priv, createdAt, upto);
      Note(Event.CreateKey(name, priv, createdAt, upto));
    }

    /** `caller rm`. */
    method RemoveCaller(name: string, io: Booth.SaveIO) returns (r: Result<(), Booth.BoothError>)
      requires Valid()
      modifies this`run, registry
      ensures Valid()
      ensures (registry.file, r) == Booth.RemoveCaller(old(registry.file), name, io)
      ensures run == Continue(pr, old(run), EditCallers(registry.file))
    {
      r := registry.Remove(name, io);
      Note(EditCallers(registry.file));
    }
  }
}
