/** Two runs that show what the daemon does not promise. */
module DaemonRuns {
  import opened Common
  import opened Primitives
  import opened Policy
  import opened Envelopes
  import Glob
  import Keystore
  import Booth
  import opened Audit
  import opened AuditChain
  import opened Daemon
  import opened DaemonSteps
  import DaemonTrace
  import DaemonHours

  // ----- an entry on file whose append reported failure --------------------

  /** The entry for a rejected token, as the first of a log. */
  function FirstReject(pr: Suite, now: int): Entry { Seal(pr, Tail(0, GENESIS), REJECT_DRAFT.(time := pr.showTime(now))) }

  lemma ArriveWorld(pr: Suite, w: World, id: nat, header: string, post: bool, body: Option<SignRequest>)
    requires id !in w.requests
    ensures var w' := Step(pr, w, Arrive(id, header, post, body));
            && w'.callers == w.callers && w'.slots == w.slots && w'.windows == w.windows && w'.uptime == w.uptime
            && w'.auditFile == w.auditFile && w'.logged == w.logged && w'.attempts == w.attempts && w'.grants == w.grants
            && w'.requests == w.requests[id := Pending(NewTicket(id, header, post, body, w.uptime, w.steps), Arrived)]
  {
  }

  lemma AuthenticateWorld(pr: Suite, w: World, t: Ticket)
    requires t.id in w.requests && w.requests[t.id] == Pending(t, Arrived) && t.uptime == w.uptime
    ensures var w' := Step(pr, w, Event.Authenticate(t.id));
            && w'.callers == w.callers && w'.slots == w.slots && w'.windows == w.windows && w'.uptime == w.uptime
            && w'.auditFile == w.auditFile && w'.logged == w.logged && w'.attempts == w.attempts && w'.grants == w.grants
            && w'.requests == w.requests[t.id := AuthenticateStep(pr, w, t)]
  {
  }

  /** A run gone on by one event. */
  lemma Next(pr: Suite, r: Trace, ev: Event) returns (r': Trace)
    requires IsRun(pr, r)
    ensures IsRun(pr, r') && Last(r') == Step(pr, Last(r), ev)
  {
    ContinueRuns(pr, r, ev);
    r' := Continue(pr, r, ev);
  }

  /** A request without a token is turned away, and waits to be logged. */
  ghost predicate TurnedAway(w: World, t: Ticket) {
    && t.id in w.requests && w.requests[t.id] == Pending(t, Refused(REJECT_DRAFT, Unauthorized)) && t.uptime == w.uptime
    && w.auditFile == "" && w.logged == [] && w.attempts == []
  }

  lemma Arrived0(pr: Suite) returns (r: Trace, t: Ticket)
    ensures IsRun(pr, r) && t == NewTicket(0, "", false, None, 0, 0)
    ensures var w := Last(r);
            && w.requests == map[0 := Pending(t, Arrived)] && w.uptime == 0 && w.callers == START.callers
            && w.auditFile == "" && w.logged == [] && w.attempts == []
  {
    t := NewTicket(0, "", false, None, 0, 0);
    ArriveWorld(pr, START, 0, "", false, None);
    assert IsRun(pr, Trace([], [START]));
    r := Next(pr, Trace([], [START]), Arrive(0, "", false, None));
  }

  lemma TurnAway(pr: Suite) returns (r: Trace, t: Ticket)
    ensures IsRun(pr, r) && TurnedAway(Last(r), t)
  {
    var r1;
    r1, t := Arrived0(pr);
    AuthenticateWorld(pr, Last(r1), t);
    r := Next(pr, r1, Event.Authenticate(0));
  }

  /** A run in which the one append reports failure, and its entry is on file all the same: the write lost only the
      newline. So the entries of the appends that reported success are not those of the file. */
  lemma FailedYetOnFile(pr: Suite, now: int) returns (r: Trace)
    requires EntryLaws(pr) && Short(pr, FirstReject(pr, now))
    ensures IsRun(pr, r)
    ensures var w := Last(r);
            && w.logged == [] && |w.attempts| == 1 && w.attempts[0].entry == None
            && ReadFile(pr, w.auditFile) == Some([FirstReject(pr, now)])
  {
    var io := Stops(|pr.entryJSON(FirstReject(pr, now))|);
    var before, t := TurnAway(pr);
    FailedLog(pr, Last(before), t, now, io);
    OnFileAlone(pr, now, io);
    r := Next(pr, before, Event.Log(t.id, now, io));
  }

  lemma OnFileAlone(pr: Suite, now: int, io: IO)
    requires EntryLaws(pr) && Short(pr, FirstReject(pr, now)) && io == Stops(|pr.entryJSON(FirstReject(pr, now))|)
    ensures ReadFile(pr, AppendFile(pr, "", REJECT_DRAFT.(time := pr.showTime(now)), io).0) == Some([FirstReject(pr, now)])
  {
    var e := FirstReject(pr, now);
    SerializeReads(pr, []);
    assert TailOf([]) == Some(Tail(0, GENESIS));
    AppendReads(pr, "", REJECT_DRAFT.(time := pr.showTime(now)), io);
    assert Encodes(pr, e) && [] + [e] == [e];
  }

  lemma FailedLog(pr: Suite, w: World, t: Ticket, now: int, io: IO)
    requires TurnedAway(w, t) && !io.Works?
    ensures var w' := Step(pr, w, Event.Log(t.id, now, io));
            && w'.logged == [] && |w'.attempts| == 1 && w'.attempts[0].entry == None
            && w'.auditFile == AppendFile(pr, "", REJECT_DRAFT.(time := pr.showTime(now)), io).0
  {
  }

  // ----- more signatures in an hour than the limit, for a restart ----------

  function Zeros(n: nat): (s: string)
    ensures |s| == n && forall i :: 0 <= i < n ==> s[i] == '0'
  {
    if n == 0 then "" else ['0'] + Zeros(n - 1)
  }

  const CI := "ci"
  const PRIV := Zeros(64)
  const HEADER := "Bearer " + "t"

  function OnceAnHour(pr: Suite): Caller { Caller(CI, Booth.HashToken(pr, "t"), "", "", ["*"], ["a"], 0, 1) }

  const ASKED := SignRequest("k", "a", DIGEST_PREFIX + Zeros(64), 0)

  /** The caller is registered, its key is there, and its window is fresh. */
  ghost predicate Ready(pr: Suite, w: World) {
    && w.callers == Booth.Doc(1, map[CI := OnceAnHour(pr)])
    && Keystore.SlotOf(w.slots, "k").key == Keystore.Holds(PRIV)
    && Keystore.SlotOf(w.slots, "k").meta == Keystore.Holds(Keystore.NewRecord(pr, "k", PRIV, ""))
    && w.windows == map[]
  }

  /** A signature of this caller, in the first hour of all. */
  ghost predicate FirstHour(g: Ticket) {
    g.caller.name == CI && g.caller.ratePerHour == 1 && g.slotTime == 0
  }

  lemma KnownAsCi(pr: Suite, w: World)
    requires Ready(pr, w)
    ensures Booth.Authenticated(pr, w.callers, HEADER) == Some(OnceAnHour(pr))
  {
    var token := "t";
    assert Booth.BearerToken("Bearer " + token) == Some(token);
    assert Booth.OnlyHolder(w.callers.callers, Booth.HashToken(pr, "t"), CI);
  }

  lemma MatchA()
    ensures Glob.Match("a", "a")
  {
    SplitJoin(["a"], '/');
    assert ["a"][1..] == [];
    assert "a"[1..] == "";
    assert Glob.SegmentMatches("", "");
    assert Glob.SegmentMatches("a", "a");
    assert Glob.SegmentsMatch([], []);
    assert Glob.SegmentsMatch(["a"], ["a"]);
  }

  lemma AskedValid()
    ensures ValidDigest(ASKED.digest) && ValidName("k") && ValidRequest(ASKED)
  {
    assert forall i :: 7 <= i < 71 ==> ASKED.digest[i] == Zeros(64)[i - 7];
  }

  lemma AllowedA(pr: Suite)
    ensures RefusalOf(pr, true, Some(ASKED), OnceAnHour(pr), 0) == None
    ensures ValidDigest(ASKED.digest) && ValidName("k") && |PRIV| == PRIVATE_KEY_SIZE
  {
    MatchA();
    AskedValid();
    assert OnceAnHour(pr).artifacts[0] == "a" && OnceAnHour(pr).keys[0] == "*";
    assert AllowsKey(OnceAnHour(pr), "k") && AllowsArtifact(OnceAnHour(pr), "a");
  }

  /** The request on its way, with everything around it as it was. */
  ghost predicate At(pr: Suite, r: Trace, from: World, t: Ticket, stage: Stage) {
    && IsRun(pr, r)
    && var w := Last(r);
       && w.callers == from.callers && w.slots == from.slots && w.uptime == from.uptime == t.uptime
       && t.id in w.requests && w.requests[t.id] == Pending(t, stage)
       && w.requests.Keys == from.requests.Keys + {t.id}
       && w.grants == from.grants
       && t.post && t.body == Some(ASKED)
  }

  lemma ArriveCi(pr: Suite, r: Trace, id: nat) returns (r': Trace, t: Ticket)
    requires IsRun(pr, r) && Ready(pr, Last(r)) && id !in Last(r).requests
    ensures At(pr, r', Last(r), t, Arrived) && t.header == HEADER && t.id == id && Last(r').windows == map[]
  {
    ArriveWorld(pr, Last(r), id, HEADER, true, Some(ASKED));
    t := NewTicket(id, HEADER, true, Some(ASKED), Last(r).uptime, Last(r).steps);
    r' := Next(pr, r, Arrive(id, HEADER, true, Some(ASKED)));
  }

  lemma AuthenticateCi(pr: Suite, r: Trace, from: World, t: Ticket) returns (r': Trace, t': Ticket)
    requires Ready(pr, from) && At(pr, r, from, t, Arrived) && t.header == HEADER && Last(r).windows == map[]
    ensures At(pr, r', from, t', Known) && t'.id == t.id && t'.caller == OnceAnHour(pr) && Last(r').windows == map[]
  {
    KnownAsCi(pr, from);
    AuthenticateWorld(pr, Last(r), t);
    t' := AuthenticateStep(pr, Last(r), t).ticket;
    r' := Next(pr, r, Event.Authenticate(t.id));
  }

  lemma DecideCi(pr: Suite, r: Trace, from: World, t: Ticket) returns (r': Trace, t': Ticket)
    requires At(pr, r, from, t, Known) && t.caller == OnceAnHour(pr) && Last(r).windows == map[]
    ensures At(pr, r', from, t', Admitted) && t'.id == t.id && t'.caller == OnceAnHour(pr) && Last(r').windows == map[]
  {
    AllowedA(pr);
    DecideWorld(pr, Last(r), t, 0);
    DaemonTrace.Effect(pr, Last(r), Event.Decide(t.id, 0));
    t' := DecideStep(pr, Last(r), t, 0).ticket;
    r' := Next(pr, r, Event.Decide(t.id, 0));
  }

  lemma TakeSlotCi(pr: Suite, r: Trace, from: World, t: Ticket) returns (r': Trace, t': Ticket)
    requires At(pr, r, from, t, Admitted) && t.caller == OnceAnHour(pr) && Last(r).windows == map[]
    ensures At(pr, r', from, t', Slotted) && t'.id == t.id && FirstHour(t')
  {
    SlotWorld(pr, Last(r), t, 0);
    DaemonTrace.Effect(pr, Last(r), Event.TakeSlot(t.id, 0));
    t' := TakeSlotStep(Last(r), t, 0).ticket;
    r' := Next(pr, r, Event.TakeSlot(t.id, 0));
  }

  lemma LoadKeyCi(pr: Suite, r: Trace, from: World, t: Ticket) returns (r': Trace, t': Ticket)
    requires Ready(pr, from) && At(pr, r, from, t, Slotted) && FirstHour(t)
    ensures At(pr, r', from, t', Loaded) && t'.id == t.id && FirstHour(t') && t'.priv == PRIV
  {
    AllowedA(pr);
    KeyWorld(pr, Last(r), t);
    DaemonTrace.Effect(pr, Last(r), Event.LoadKey(t.id));
    t' := LoadKeyStep(pr, Last(r), t).ticket;
    r' := Next(pr, r, Event.LoadKey(t.id));
  }

  /** One more signature, and all else that matters as it was. */
  ghost predicate Granted(from: World, w: World, t: Ticket) {
    && w.callers == from.callers && w.slots == from.slots && w.uptime == from.uptime == t.uptime
    && w.grants == from.grants + [t]
  }

  lemma SignCi(pr: Suite, r: Trace, from: World, t: Ticket) returns (r': Trace, t': Ticket)
    requires At(pr, r, from, t, Loaded) && FirstHour(t) && t.priv == PRIV
    ensures IsRun(pr, r') && FirstHour(t') && t'.id == t.id && Granted(from, Last(r'), t')
    ensures Last(r').requests.Keys == from.requests.Keys + {t.id}
  {
    AllowedA(pr);
    SignWorld(pr, Last(r), t);
    DaemonTrace.Effect(pr, Last(r), Event.Sign(t.id));
    SignParts(pr, Last(r), t);
    t' := SignStep(pr, Last(r), t).ticket;
    r' := Next(pr, r, Event.Sign(t.id));
  }

  /** A registered caller with a fresh window obtains its signature. */
  lemma ServeCi(pr: Suite, r: Trace, id: nat) returns (r': Trace, t: Ticket)
    requires IsRun(pr, r) && Ready(pr, Last(r)) && id !in Last(r).requests
    ensures IsRun(pr, r') && FirstHour(t) && Granted(Last(r), Last(r'), t)
    ensures Last(r').requests.Keys == Last(r).requests.Keys + {id}
  {
    var from := Last(r);
    r', t := ArriveCi(pr, r, id);
    r', t := AuthenticateCi(pr, r', from, t);
    r', t := DecideCi(pr, r', from, t);
    r', t := TakeSlotCi(pr, r', from, t);
    r', t := LoadKeyCi(pr, r', from, t);
    r', t := SignCi(pr, r', from, t);
  }

  lemma SetUp(pr: Suite) returns (r: Trace)
    ensures IsRun(pr, r) && Ready(pr, Last(r)) && Last(r).requests == map[] && Last(r).grants == [] && Last(r).uptime == 0
  {
    assert IsRun(pr, Trace([], [START]));
    r := Next(pr, Trace([], [START]), EditCallers(Booth.Doc(1, map[CI := OnceAnHour(pr)])));
    AllowedA(pr);
    r := Next(pr, r, Event.CreateKey("k", PRIV, "", 6));
  }

  /** A run in which a caller with a limit of one an hour obtains two signatures in one hour, for a restart between
      them. */
  lemma RestartExceeds(pr: Suite) returns (r: Trace)
    ensures IsRun(pr, r)
    ensures var w := Last(r);
            && |w.grants| == 2 && FirstHour(w.grants[0]) && FirstHour(w.grants[1])
            && |DaemonHours.GrantsUpTo(w, CI, 0, 1)| == 2
  {
    r := SetUp(pr);
    var t0, t1;
    r, t0 := ServeCi(pr, r, 0);
    r := Next(pr, r, Event.Restart);
    r, t1 := ServeCi(pr, r, 1);
    TwoGrants(Last(r));
  }

  lemma TwoGrants(w: World)
    requires |w.grants| == 2 && FirstHour(w.grants[0]) && FirstHour(w.grants[1])
    requires w.grants[0].uptime <= 1 && w.grants[1].uptime <= 1
    ensures |DaemonHours.GrantsUpTo(w, CI, 0, 1)| == 2
  {
    assert DaemonHours.GrantsUpTo(w, CI, 0, 1) == {0, 1};
  }
}
