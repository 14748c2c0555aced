/** The daemon as a state machine: internal/server/server.go over the booth on disk.

    Sign requests move through their stages one event at a time, in any interleaving with each
    other, with the operator's edits of callers and keys, with other writers of the audit log
    and with signatures made elsewhere under keys that are not the booth's. The daemon may stop
    and start again at any point: its windows are gone then, and open requests go no further.
 */
module Daemon {
  import opened Common
  import opened Primitives
  import opened Policy
  import opened Envelopes
  import Keystore
  import Booth
  import RateLimit
  import opened Audit
  import opened AuditChain
  import opened AuditFaults

  // ----- requests ----------------------------------------------------------

  datatype SignRequest = SignRequest(key: string, artifact: string, digest: string, size: int)

  const MAX_ARTIFACT_NAME := 512

  /** `validateSignRequest`. */
  predicate ValidRequest(req: SignRequest) {
    && ValidName(req.key)
    && 0 < |req.artifact| <= MAX_ARTIFACT_NAME
    && (forall i :: 0 <= i < |req.artifact| ==> !(req.artifact[i] < ' ' || req.artifact[i] == '\U{7F}'))
    && ValidDigest(req.digest)
    && req.size >= 0
  }

  datatype Response =
    | MethodNotAllowed
    | BadRequest
    | Unauthorized
    | Forbidden(reason: Reason)
    | TooManyRequests
    | KeyUnavailable(error: Keystore.KeyError)
    | InternalError
    | Success(env: Envelope)

  /** A request and what the daemon has found out about it. Instants are nanoseconds since the epoch;
      the `...At` fields say which event took the step. */
  datatype Ticket = Ticket(
    id: nat,
    header: string,
    post: bool,
    body: Option<SignRequest>,  // None: not a decodable body
    caller: Caller,
    now: int,
    slotTime: int,
    slot: Option<nat>,          // which of the caller's rate-limited calls this was
    priv: string,
    uptime: nat,                // how often the daemon had been restarted
    arrivedAt: nat, knownAt: nat, admittedAt: nat, slottedAt: nat, loadedAt: nat, signedAt: nat
  )

  datatype Stage =
    | Arrived
    | Known                                     // authenticated
    | Admitted                                  // well formed and allowed by policy
    | Slotted                                   // past the rate window
    | Loaded                                    // key in hand
    | Signed(env: Envelope)                     // signed, not yet logged
    | Refused(draft: Draft, response: Response) // refused, not yet logged
    | Done(response: Response)

  datatype Pending = Pending(ticket: Ticket, stage: Stage)

  const NOBODY := Caller("", "", "", "", [], [], 0, 0)

  function NewTicket(id: nat, header: string, post: bool, body: Option<SignRequest>, uptime: nat, at: nat): Ticket {
    Ticket(id, header, post, body, NOBODY, 0, 0, None, "", uptime, at, 0, 0, 0, 0, 0)
  }

  function PolicyRequest(req: SignRequest): Request { Request(req.key, req.artifact, req.size) }

  /** The payload handed to `Sign`, before schema and fingerprint are filled in. */
  function PayloadFor(pr: Suite, req: SignRequest, caller: Caller, now: int): Payload {
    Payload("", req.artifact, req.digest, req.size, req.key, "", caller.name, pr.showTime(now))
  }

  function PayloadOf(pr: Suite, t: Ticket): Payload
    requires t.body.Some?
  {
    PayloadFor(pr, t.body.value, t.caller, t.now)
  }

  // ----- audit drafts ------------------------------------------------------

  const ACTION_SIGN := "sign"
  const ACTION_DENY := "deny"
  const ACTION_REJECT := "auth-reject"

  /** The actions only the daemon writes. */
  predicate Ours(action: string) { action == ACTION_SIGN || action == ACTION_DENY || action == ACTION_REJECT }

  function ReasonText(r: Reason): string {
    match r
    case CallerExpired => "caller expired"
    case KeyNotListed => "key not in the caller's list"
    case ArtifactUnmatched => "artifact matches no allowed pattern"
    case SizeExceeded => "size exceeds the caller's limit"
  }

  const REJECT_DRAFT := Draft("", "-", ACTION_REJECT, "", "", "", "unknown or malformed bearer token")

  function DenyDraft(t: Ticket, reason: string): Draft
    requires t.body.Some?
  {
    var req := t.body.value;
    Draft("", t.caller.name, ACTION_DENY, req.key, req.artifact, req.digest, reason)
  }

  function SignDraft(t: Ticket): Draft
    requires t.body.Some?
  {
    var req := t.body.value;
    Draft("", t.caller.name, ACTION_SIGN, req.key, req.artifact, req.digest, "")
  }

  /** Answers that must leave an audit entry: everything but malformed requests (and internal errors). */
  predicate Audited(response: Response) {
    !response.MethodNotAllowed? && !response.BadRequest? && !response.InternalError?
  }

  /** The entry an answer calls for, time aside. */
  function AnswerDraft(t: Ticket, response: Response): Draft {
    if t.body.None? then REJECT_DRAFT
    else match response
      case Forbidden(reason) => DenyDraft(t, ReasonText(reason))
      case TooManyRequests => DenyDraft(t, "rate limit reached")
      case KeyUnavailable(_) => DenyDraft(t, "key unavailable")
      case Success(_) => SignDraft(t)
      case _ => REJECT_DRAFT
  }

  // ----- the world ---------------------------------------------------------

  /** One attempt by the daemon to log a request: which of all appends it was, and the entry, or None when
      the append failed and was ignored. */
  datatype Attempt = Attempt(id: nat, draft: Draft, entry: Option<Entry>, at: nat)

  /** The calls of one caller between two restarts. */
  datatype Lane = Lane(uptime: nat, name: string)

  datatype World = World(
    // on disk
    callers: Booth.CallersFile,
    slots: map<string, Keystore.Slot>,
    auditFile: string,
    // in the daemon
    windows: map<string, RateLimit.Window>,
    requests: map<nat, Pending>,
    // what was signed, with whose key, anywhere
    signed: set<Message>,
    boothKeys: set<string>,
    foreignKeys: set<string>,
    // history
    steps: nat,
    uptime: nat,
    calls: map<Lane, seq<RateLimit.Call>>,
    grants: seq<Ticket>,
    attempts: seq<Attempt>,
    appends: seq<Op>,    // every append to the audit log, whoever made it and however it went
    logged: seq<Entry>,  // the entries of those that reported success
    clean: bool  // every append so far wrote a whole short line or nothing at all
  )

  const START := World(Booth.Doc(1, map[]), map[], "", map[], map[], {}, {}, {}, 0, 0, map[], [], [], [], [], true)

  datatype Event =
    | Arrive(id: nat, header: string, post: bool, body: Option<SignRequest>)
    | Authenticate(id: nat)
    | Decide(id: nat, now: int)
    | TakeSlot(id: nat, now: int)
    | LoadKey(id: nat)
    | Sign(id: nat)
    | Log(id: nat, now: int, io: IO)
    | OtherAppend(who: nat, draft: Draft, io: IO)
    | EditCallers(file: Booth.CallersFile)
    | CreateKey(name: string, priv: string, createdAt: string, upto: nat)
    | DropFile(name: string, op: Keystore.Op)
    | ForeignSign(pub: string, text: string)
    | Restart

  /** Events that take a request further. */
  predicate Moves(ev: Event) {
    ev.Authenticate? || ev.Decide? || ev.TakeSlot? || ev.LoadKey? || ev.Sign? || ev.Log?
  }

  /** Events that concern no request in particular: other people's, and a restart. */
  predicate Outside(ev: Event) {
    ev.Restart? || ev.OtherAppend? || ev.EditCallers? || ev.CreateKey? || ev.DropFile? || ev.ForeignSign?
  }

  function UnixSeconds(now: int): int { now / 1_000_000_000 }

  function WindowIn(windows: map<string, RateLimit.Window>, name: string): Option<RateLimit.Window> {
    if name in windows then Some(windows[name]) else None
  }

  function WindowOf(w: World, name: string): Option<RateLimit.Window> { WindowIn(w.windows, name) }

  function LaneCalls(w: World, lane: Lane): seq<RateLimit.Call> {
    if lane in w.calls then w.calls[lane] else []
  }

  /** The rate-limited calls of a caller since the daemon was last started. */
  function CallsOf(w: World, name: string): seq<RateLimit.Call> { LaneCalls(w, Lane(w.uptime, name)) }

  /** File a request under its own number. */
  function Put(w: World, p: Pending): World { w.(requests := w.requests[p.ticket.id := p]) }

  /** `authenticate` and `authed`. */
  ghost function AuthenticateStep(pr: Suite, w: World, t: Ticket): Pending {
    match Booth.Authenticated(pr, w.callers, t.header)
    case None => Pending(t, Refused(REJECT_DRAFT, Unauthorized))
    case Some(c) => Pending(t.(caller := c, knownAt := w.steps), Known)
  }

  /** The refusal of a request that is malformed or against the policy. */
  function RefusalOf(pr: Suite, post: bool, body: Option<SignRequest>, caller: Caller, now: int): Option<Response> {
    if !post then Some(MethodNotAllowed)
    else if body.None? || !ValidRequest(body.value) then Some(BadRequest)
    else match Evaluate(pr.readTime, caller, PolicyRequest(body.value), now)
      case Deny(reason) => Some(Forbidden(reason))
      case Allow => None
  }

  /** `handleSign` up to the policy decision. */
  function DecideStep(pr: Suite, w: World, t: Ticket, now: int): Pending {
    var refusal := RefusalOf(pr, t.post, t.body, t.caller, now);
    if refusal.None? then Pending(t.(now := now, admittedAt := w.steps), Admitted)
    else if refusal.value.Forbidden? then
      Pending(t, Refused(DenyDraft(t, ReasonText(refusal.value.reason)), refusal.value))
    else Pending(t, Done(refusal.value))
  }

  /** The window `allowRate` leaves, for a caller with a limit. */
  function WindowAfter(w: World, t: Ticket, now: int): RateLimit.Window {
    RateLimit.Admit(WindowOf(w, t.caller.name), t.caller.ratePerHour, RateLimit.HourOf(UnixSeconds(now))).0
  }

  /** The caller's window lets a call at `now` through; an unlimited caller always passes. */
  predicate SlotFree(windows: map<string, RateLimit.Window>, caller: Caller, now: int) {
    || caller.ratePerHour <= 0
    || RateLimit.Admit(WindowIn(windows, caller.name), caller.ratePerHour, RateLimit.HourOf(UnixSeconds(now))).1
  }

  /** `allowRate`, seen from the request. */
  function TakeSlotStep(w: World, t: Ticket, now: int): Pending
    requires t.body.Some?
  {
    var slot := if t.caller.ratePerHour <= 0 then t.slot else Some(|CallsOf(w, t.caller.name)|);
    var t' := t.(slotTime := now, slottedAt := w.steps, slot := slot);
    if SlotFree(w.windows, t.caller, now) then Pending(t', Slotted)
    else Pending(t', Refused(DenyDraft(t, "rate limit reached"), TooManyRequests))
  }

  /** `allowRate`, seen from the windows: an unlimited caller touches none. */
  function CountCall(w: World, t: Ticket, now: int): World {
    var limit, name := t.caller.ratePerHour, t.caller.name;
    if limit <= 0 then w
    else
      var call := RateLimit.Call(limit, RateLimit.HourOf(UnixSeconds(now)), t.id);
      w.(windows := w.windows[name := WindowAfter(w, t, now)], calls := w.calls[Lane(w.uptime, name) := CallsOf(w, name) + [call]])
  }

  function LoadKeyStep(pr: Suite, w: World, t: Ticket): Pending
    requires t.body.Some?
  {
    var name := t.body.value.key;
    match Keystore.LoadSlot(pr, Keystore.SlotOf(w.slots, name), name)
    case Err(e) => Pending(t, Refused(DenyDraft(t, "key unavailable"), KeyUnavailable(e)))
    case Ok(loaded) => Pending(t.(priv := loaded.0, loadedAt := w.steps), Loaded)
  }

  /** The text whose signature a ticket obtains. */
  function GrantedMessage(pr: Suite, t: Ticket): Message
    requires t.body.Some?
  {
    var pub := pr.publicHalf(t.priv);
    Message(pub, SignedText(pr, Filled(pr, pub, PayloadOf(pr, t))))
  }

  function SignStep(pr: Suite, w: World, t: Ticket): Pending
    requires t.body.Some?
  {
    match Envelopes.Sign(pr, t.priv, PayloadOf(pr, t))
    case Err(_) => Pending(t, Done(InternalError))
    case Ok(env) => Pending(t.(signedAt := w.steps), Signed(env))
  }

  /** A signature that was made is remembered. */
  function RecordSignature(pr: Suite, w: World, p: Pending): World
    requires p.ticket.body.Some?
  {
    if p.stage.Signed? then
      w.(signed := w.signed + {GrantedMessage(pr, p.ticket)}, grants := w.grants + [p.ticket])
    else w
  }

  /** An append leaves the file well kept: a whole short line was added, or nothing. */
  predicate WellKept(pr: Suite, file: string, draft: Draft, io: IO) {
    var (after, r) := AppendFile(pr, file, draft, io);
    if r.Ok? then Short(pr, r.value) else after == file
  }

  /** The entry an append to the audit log writes, if it succeeds. */
  function Appended(pr: Suite, w: World, draft: Draft, io: IO): Option<Entry> {
    var r := AppendFile(pr, w.auditFile, draft, io).1;
    if r.Ok? then Some(r.value) else None
  }

  /** Append to the audit log, whoever does it. */
  function AppendStep(pr: Suite, w: World, who: nat, draft: Draft, io: IO): World {
    var entry := Appended(pr, w, draft, io);
    w.(appends := w.appends + [Op(who, draft, io)],
       auditFile := AppendFile(pr, w.auditFile, draft, io).0,
       clean := w.clean && WellKept(pr, w.auditFile, draft, io),
       logged := w.logged + if entry.Some? then [entry.value] else [])
  }

  /** `log`: stamp the time, append, ignore failure. */
  function LogStep(pr: Suite, w: World, id: nat, draft: Draft, now: int, io: IO): World {
    var stamped := draft.(time := pr.showTime(now));
    AppendStep(pr, w, id, stamped, io).(
      attempts := w.attempts + [Attempt(id, stamped, Appended(pr, w, stamped, io), |w.appends|)])
  }

  function CreateKeyStep(pr: Suite, w: World, ev: Event): World
    requires ev.CreateKey?
  {
    var pub := pr.publicHalf(ev.priv);
    if |ev.priv| != PRIVATE_KEY_SIZE || pub in w.foreignKeys then w
    else
      var slot := Keystore.CreateSlot(pr, Keystore.SlotOf(w.slots, ev.name), ev.name, ev.priv, ev.createdAt, ev.upto).0;
      w.(slots := w.slots[ev.name := slot], boothKeys := w.boothKeys + {pub})
  }

  function Without(slot: Keystore.Slot, op: Keystore.Op): Keystore.Slot {
    match op
    case DropKey => slot.(key := Keystore.Absent)
    case DropPub => slot.(pub := Keystore.Absent)
    case DropMeta => slot.(meta := Keystore.Absent)
    case Create(_, _, _) => slot
  }

  /** What a moving event makes of its request; None when the event is not possible. */
  ghost function Filed(pr: Suite, w: World, ev: Event): Option<Pending>
    requires Moves(ev) && ev.id in w.requests
  {
    var t := w.requests[ev.id].ticket;
    match (ev, w.requests[ev.id].stage)
    case (Authenticate(_), Arrived) => Some(AuthenticateStep(pr, w, t))
    case (Decide(_, now), Known) => Some(DecideStep(pr, w, t, now))
    case (TakeSlot(_, now), Admitted) => if t.body.Some? then Some(TakeSlotStep(w, t, now)) else None
    case (LoadKey(_), Slotted) => if t.body.Some? then Some(LoadKeyStep(pr, w, t)) else None
    case (Sign(_), Loaded) => if t.body.Some? then Some(SignStep(pr, w, t)) else None
    case (Log(_, _, _), Signed(env)) => if t.body.Some? then Some(Pending(t, Done(Success(env)))) else None
    case (Log(_, _, _), Refused(_, response)) => Some(Pending(t, Done(response)))
    case _ => None
  }

  /** The draft a request has waiting for the log. */
  function DraftToLog(w: World, ev: Event): Draft
    requires Moves(ev) && ev.id in w.requests
    requires w.requests[ev.id].stage.Refused? || (w.requests[ev.id].stage.Signed? && w.requests[ev.id].ticket.body.Some?)
  {
    if w.requests[ev.id].stage.Refused? then w.requests[ev.id].stage.draft else SignDraft(w.requests[ev.id].ticket)
  }

  /** What else such an event does: to the windows, the signatures, the audit log. */
  ghost function Beside(pr: Suite, w: World, ev: Event): World
    requires Moves(ev) && ev.id in w.requests && Filed(pr, w, ev).Some?
  {
    var t := w.requests[ev.id].ticket;
    if ev.TakeSlot? then CountCall(w, t, ev.now)
    else if ev.Sign? then RecordSignature(pr, w, SignStep(pr, w, t))
    else if ev.Log? then LogStep(pr, w, t.id, DraftToLog(w, ev), ev.now, ev.io)
    else w
  }

  /** A step that concerns no request in particular. */
  function OutsideStep(pr: Suite, w: World, ev: Event): World
    requires Outside(ev)
  {
    match ev
    case OtherAppend(who, draft, io) =>
      if Ours(draft.action) then w else AppendStep(pr, w, who, draft, io)
    case Restart => w.(windows := map[], uptime := w.uptime + 1)
    case EditCallers(file) => w.(callers := file)
    case CreateKey(_, _, _, _) => CreateKeyStep(pr, w, ev)
    case DropFile(name, op) => w.(slots := w.slots[name := Without(Keystore.SlotOf(w.slots, name), op)])
    case ForeignSign(pub, text) =>
      if pub in w.boothKeys then w
      else w.(signed := w.signed + {Message(pub, text)}, foreignKeys := w.foreignKeys + {pub})
  }

  /** A new request under a number not yet in use. */
  function FirstFiled(w: World, ev: Event): Pending
    requires ev.Arrive?
  {
    Pending(NewTicket(ev.id, ev.header, ev.post, ev.body, w.uptime, w.steps), Arrived)
  }

  /** The request came in since the daemon was last started. */
  predicate Live(w: World, id: nat) { id in w.requests && w.requests[id].ticket.uptime == w.uptime }

  /** The request an event files, if it files one. */
  ghost function NewlyFiled(pr: Suite, w: World, ev: Event): Option<Pending> {
    if ev.Arrive? then
      if ev.id in w.requests then None else Some(FirstFiled(w, ev))
    else if Moves(ev) && Live(w, ev.id) then Filed(pr, w, ev)
    else None
  }

  /** What an event changes; an event that is not possible changes nothing. */
  ghost function Change(pr: Suite, w: World, ev: Event): World {
    var p := NewlyFiled(pr, w, ev);
    if Outside(ev) then OutsideStep(pr, w, ev)
    else if p.None? then w
    else Put(if Moves(ev) then Beside(pr, w, ev) else w, p.value)
  }

  /** One event. */
  ghost function Step(pr: Suite, w: World, ev: Event): World {
    Change(pr, w, ev).(steps := w.steps + 1)
  }

  /** The world an event changes to, one kind of event at a time. */
  lemma ChangeCases(pr: Suite, w: World, ev: Event)
    ensures Outside(ev) ==> Change(pr, w, ev) == OutsideStep(pr, w, ev)
    ensures !Outside(ev) && NewlyFiled(pr, w, ev).None? ==> Change(pr, w, ev) == w
    ensures !Outside(ev) && ev.Arrive? && NewlyFiled(pr, w, ev).Some? ==>
      ev.id !in w.requests && Change(pr, w, ev) == Put(w, FirstFiled(w, ev))
    ensures !Outside(ev) && !ev.Arrive? && NewlyFiled(pr, w, ev).Some? ==>
      && Moves(ev) && Live(w, ev.id) && Filed(pr, w, ev).Some?
      && Change(pr, w, ev) == Put(Beside(pr, w, ev), Filed(pr, w, ev).value)
  {
  }

  // ----- runs --------------------------------------------------------------

  /** A run: its events and the worlds between them. */
  datatype Trace = Trace(evs: seq<Event>, worlds: seq<World>)

  ghost predicate Follows(pr: Suite, r: Trace, i: nat)
    requires i < |r.evs| < |r.worlds|
  {
    r.worlds[i + 1] == Step(pr, r.worlds[i], r.evs[i])
  }

  /** A run of the daemon from a freshly initialised home. */
  ghost predicate IsRun(pr: Suite, r: Trace) {
    && |r.worlds| == |r.evs| + 1
    && r.worlds[0] == START
    && forall i: nat :: i < |r.evs| ==> Follows(pr, r, i)
  }

  function Last(r: Trace): World
    requires |r.worlds| > 0
  {
    r.worlds[|r.worlds| - 1]
  }
}
