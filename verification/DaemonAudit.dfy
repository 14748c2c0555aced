/** The audit obligations of the daemon over whole runs. */
module DaemonAudit {
  import opened Common
  import opened Primitives
  import opened Audit
  import opened AuditChain
  import opened Daemon
  import opened DaemonAnswers

  // ----- what is owed ------------------------------------------------------

  /** The entry is the one the answer calls for. */
  ghost predicate Fits(t: Ticket, draft: Draft, response: Response) {
    Audited(response) && (response.Unauthorized? || t.body.Some?) && draft == AnswerDraft(t, response)
  }

  ghost predicate HasGrant(stage: Stage) { stage.Signed? || (stage.Done? && stage.response.Success?) }

  ghost predicate HasAttempt(stage: Stage) { stage.Done? && Audited(stage.response) }

  ghost predicate StageFits(p: Pending) {
    match p.stage
    case Admitted => p.ticket.body.Some?
    case Slotted => p.ticket.body.Some?
    case Loaded => p.ticket.body.Some?
    case Signed(_) => p.ticket.body.Some?
    case Refused(draft, response) => Fits(p.ticket, draft, response) && !response.Success?
    case Done(response) => response.Success? ==> p.ticket.body.Some?
    case _ => true
  }

  // ----- the books ---------------------------------------------------------

  ghost predicate GrantBooked(requests: map<nat, Pending>, g: Ticket) {
    g.id in requests && requests[g.id].ticket == g && HasGrant(requests[g.id].stage)
  }

  ghost predicate AttemptBooked(requests: map<nat, Pending>, a: Attempt) {
    && a.id in requests && HasAttempt(requests[a.id].stage)
    && Fits(requests[a.id].ticket, a.draft.(time := ""), requests[a.id].stage.response)
  }

  ghost predicate GrantsBooked(w: World) {
    && (forall i :: 0 <= i < |w.grants| ==> GrantBooked(w.requests, w.grants[i]))
    && (forall i, j :: 0 <= i < j < |w.grants| ==> w.grants[i].id != w.grants[j].id)
    && (forall id :: id in w.requests && HasGrant(w.requests[id].stage) ==> GrantedTo(w, id))
  }

  ghost predicate GrantedTo(w: World, id: nat) { exists i :: 0 <= i < |w.grants| && w.grants[i].id == id }

  ghost predicate AttemptsBooked(w: World) {
    && (forall i :: 0 <= i < |w.attempts| ==> AttemptBooked(w.requests, w.attempts[i]))
    && (forall i, j :: 0 <= i < j < |w.attempts| ==> w.attempts[i].id != w.attempts[j].id)
    && (forall id :: id in w.requests && HasAttempt(w.requests[id].stage) ==> AttemptedFor(w, id))
  }

  ghost predicate AttemptedFor(w: World, id: nat) { exists i :: 0 <= i < |w.attempts| && w.attempts[i].id == id }

  ghost predicate Orderly(w: World) {
    && (forall id :: id in w.requests ==> w.requests[id].ticket.id == id && StageFits(w.requests[id]))
    && GrantsBooked(w)
    && AttemptsBooked(w)
  }

  /** What one event adds to the books. */
  ghost predicate Books(w: World, w': World, p: Pending, g: seq<Ticket>, a: seq<Attempt>) {
    && w'.requests == w.requests[p.ticket.id := p]
    && w'.grants == w.grants + g
    && w'.attempts == w.attempts + a
  }

  /** The step is consistent: a grant or attempt is added exactly when the new stage first owes one. */
  ghost predicate Owes(w: World, p: Pending, g: seq<Ticket>, a: seq<Attempt>) {
    var id := p.ticket.id;
    && StageFits(p)
    && (id in w.requests && HasGrant(w.requests[id].stage) ==> HasGrant(p.stage) && p.ticket == w.requests[id].ticket)
    && (id in w.requests ==> !HasAttempt(w.requests[id].stage))
    && (if HasGrant(p.stage) && !(id in w.requests && HasGrant(w.requests[id].stage)) then g == [p.ticket] else g == [])
    && (if HasAttempt(p.stage)
        then |a| == 1 && a[0].id == id && Fits(p.ticket, a[0].draft.(time := ""), p.stage.response)
        else a == [])
  }

  lemma GrantsKept(w: World, w': World, p: Pending, g: seq<Ticket>, a: seq<Attempt>)
    requires Orderly(w) && Books(w, w', p, g, a) && Owes(w, p, g, a)
    ensures GrantsBooked(w')
  {
    forall i | 0 <= i < |w'.grants| ensures GrantBooked(w'.requests, w'.grants[i]) {
      if i < |w.grants| {
        assert GrantBooked(w.requests, w.grants[i]);
      }
    }
    forall i, j | 0 <= i < j < |w'.grants| ensures w'.grants[i].id != w'.grants[j].id {
      assert GrantBooked(w.requests, w.grants[i]);
    }
    forall id | id in w'.requests && HasGrant(w'.requests[id].stage) ensures GrantedTo(w', id) {
      if id in w.requests && HasGrant(w.requests[id].stage) {
        var i :| 0 <= i < |w.grants| && w.grants[i].id == id;
        assert w'.grants[i].id == id;
      } else {
        assert w'.grants[|w.grants|].id == id;
      }
    }
  }

  lemma AttemptsBookedKept(w: World, w': World, p: Pending, g: seq<Ticket>, a: seq<Attempt>, i: nat)
    requires AttemptsBooked(w) && Books(w, w', p, g, a) && Owes(w, p, g, a) && i < |w'.attempts|
    ensures AttemptBooked(w'.requests, w'.attempts[i])
  {
    if i < |w.attempts| {
      assert AttemptBooked(w.requests, w.attempts[i]);
    }
  }

  lemma AttemptsStayDistinct(w: World, w': World, p: Pending, g: seq<Ticket>, a: seq<Attempt>, i: nat, j: nat)
    requires AttemptsBooked(w) && Books(w, w', p, g, a) && Owes(w, p, g, a) && i < j < |w'.attempts|
    ensures w'.attempts[i].id != w'.attempts[j].id
  {
    assert AttemptBooked(w.requests, w.attempts[i]);
  }

  lemma AttemptedStill(w: World, w': World, p: Pending, g: seq<Ticket>, a: seq<Attempt>, id: nat)
    requires AttemptsBooked(w) && Books(w, w', p, g, a) && Owes(w, p, g, a)
    requires id in w'.requests && HasAttempt(w'.requests[id].stage)
    ensures AttemptedFor(w', id)
  {
    if id in w.requests && HasAttempt(w.requests[id].stage) {
      assert AttemptedFor(w, id);
      var i :| 0 <= i < |w.attempts| && w.attempts[i].id == id;
      assert w'.attempts[i].id == id;
    } else {
      assert w'.attempts[|w.attempts|].id == id;
    }
  }

  lemma AttemptsKept(w: World, w': World, p: Pending, g: seq<Ticket>, a: seq<Attempt>)
    requires AttemptsBooked(w) && Books(w, w', p, g, a) && Owes(w, p, g, a)
    ensures AttemptsBooked(w')
  {
    forall i | 0 <= i < |w'.attempts| ensures AttemptBooked(w'.requests, w'.attempts[i]) {
      AttemptsBookedKept(w, w', p, g, a, i);
    }
    forall i, j | 0 <= i < j < |w'.attempts| ensures w'.attempts[i].id != w'.attempts[j].id {
      AttemptsStayDistinct(w, w', p, g, a, i, j);
    }
    forall id | id in w'.requests && HasAttempt(w'.requests[id].stage) ensures AttemptedFor(w', id) {
      AttemptedStill(w, w', p, g, a, id);
    }
  }

  lemma BooksKept(w: World, w': World, p: Pending, g: seq<Ticket>, a: seq<Attempt>)
    requires Orderly(w) && Books(w, w', p, g, a) && Owes(w, p, g, a)
    ensures Orderly(w')
  {
    GrantsKept(w, w', p, g, a);
    AttemptsKept(w, w', p, g, a);
  }

  lemma SameBooks(w: World, w': World)
    requires Orderly(w) && w'.requests == w.requests && w'.grants == w.grants && w'.attempts == w.attempts
    ensures Orderly(w')
  {
    forall id | id in w'.requests && HasGrant(w'.requests[id].stage) ensures GrantedTo(w', id) {
      assert GrantedTo(w, id);
    }
    forall id | id in w'.requests && HasAttempt(w'.requests[id].stage) ensures AttemptedFor(w', id) {
      assert AttemptedFor(w, id);
    }
  }

  // ----- the events --------------------------------------------------------

  lemma QuietOwes(pr: Suite, w: World, ev: Event)
    requires Moves(ev) && !ev.Sign? && !ev.Log? && ev.id in w.requests && Filed(pr, w, ev).Some?
    requires w.requests[ev.id].ticket.id == ev.id && StageFits(w.requests[ev.id])
    ensures var p := Filed(pr, w, ev).value; p.ticket.id == ev.id && Owes(w, p, [], [])
  {
    var t := w.requests[ev.id].ticket;
    match (ev, w.requests[ev.id].stage) {
      case (Authenticate(_), Arrived) =>
      case (Decide(_, now), Known) => DecideFits(pr, w, t, now);
      case (TakeSlot(_, now), Admitted) => TakeSlotFits(w, t, now);
      case (LoadKey(_), Slotted) => LoadKeyFits(pr, w, t);
    }
  }

  /** A stage short of any grant or logged answer, with the right draft if refused. */
  ghost predicate Plain(p: Pending) { StageFits(p) && !HasGrant(p.stage) && !HasAttempt(p.stage) }

  lemma DecideFits(pr: Suite, w: World, t: Ticket, now: int)
    ensures Plain(DecideStep(pr, w, t, now)) && DecideStep(pr, w, t, now).ticket.id == t.id
  {
  }

  lemma TakeSlotFits(w: World, t: Ticket, now: int)
    requires t.body.Some?
    ensures Plain(TakeSlotStep(w, t, now)) && TakeSlotStep(w, t, now).ticket.id == t.id
  {
  }

  lemma LoadKeyFits(pr: Suite, w: World, t: Ticket)
    requires t.body.Some?
    ensures Plain(LoadKeyStep(pr, w, t)) && LoadKeyStep(pr, w, t).ticket.id == t.id
  {
  }

  lemma QuietBeside(pr: Suite, w: World, ev: Event)
    requires Moves(ev) && !ev.Sign? && !ev.Log? && ev.id in w.requests && Filed(pr, w, ev).Some?
    ensures var w' := Beside(pr, w, ev);
            && w'.requests == w.requests && w'.grants == w.grants && w'.attempts == w.attempts
            && w'.logged == w.logged && w'.auditFile == w.auditFile && w'.clean == w.clean
  {
  }

  lemma SignOrderly(pr: Suite, w: World, t: Ticket)
    requires Orderly(w) && t.id in w.requests && w.requests[t.id] == Pending(t, Loaded) && t.body.Some?
    ensures var p := SignStep(pr, w, t); Orderly(Put(RecordSignature(pr, w, p), p))
  {
    var p := SignStep(pr, w, t);
    var g := if p.stage.Signed? then [p.ticket] else [];
    var w' := Put(RecordSignature(pr, w, p), p);
    assert w.grants + [] == w.grants && w.attempts + [] == w.attempts;
    assert Books(w, w', p, g, []);
    BooksKept(w, w', p, g, []);
  }

  lemma LogOrderly(pr: Suite, w: World, t: Ticket, stage: Stage, draft: Draft, response: Response, now: int, io: IO)
    requires Orderly(w) && t.id in w.requests && w.requests[t.id] == Pending(t, stage)
    requires (stage == Refused(draft, response) && draft.time == "")
             || (stage.Signed? && response == Success(stage.env) && draft == SignDraft(t) && t.body.Some?)
    ensures Orderly(Put(LogStep(pr, w, t.id, draft, now, io), Pending(t, Done(response))))
  {
    var p := Pending(t, Done(response));
    var stamped := draft.(time := pr.showTime(now));
    var a := Attempt(t.id, stamped, Appended(pr, w, stamped, io), |w.appends|);
    var w' := Put(LogStep(pr, w, t.id, draft, now, io), p);
    assert StageFits(w.requests[t.id]);
    assert stamped.(time := "") == draft;
    assert w.grants + [] == w.grants;
    assert Books(w, w', p, [], [a]);
    BooksKept(w, w', p, [], [a]);
  }

  lemma LogParts(pr: Suite, w: World, ev: Event)
    requires ev.Log? && ev.id in w.requests && Filed(pr, w, ev).Some?
    ensures var p := w.requests[ev.id];
            var answer := if p.stage.Signed? then Success(p.stage.env) else p.stage.response;
            && (p.stage.Signed? || p.stage.Refused?)
            && Filed(pr, w, ev) == Some(Pending(p.ticket, Done(answer)))
            && Beside(pr, w, ev) == LogStep(pr, w, p.ticket.id, DraftToLog(w, ev), ev.now, ev.io)
  {
  }

  lemma LoggedOrderly(pr: Suite, w: World, ev: Event)
    requires ev.Log? && ev.id in w.requests && Filed(pr, w, ev).Some? && Orderly(w)
    ensures Orderly(Put(Beside(pr, w, ev), Filed(pr, w, ev).value))
  {
    var p := w.requests[ev.id];
    var answer := if p.stage.Signed? then Success(p.stage.env) else p.stage.response;
    LogParts(pr, w, ev);
    assert StageFits(p);
    LogOrderly(pr, w, p.ticket, p.stage, DraftToLog(w, ev), answer, ev.now, ev.io);
  }

  lemma QuietOrderly(pr: Suite, w: World, ev: Event)
    requires Moves(ev) && !ev.Sign? && !ev.Log? && ev.id in w.requests && Filed(pr, w, ev).Some? && Orderly(w)
    ensures Orderly(Put(Beside(pr, w, ev), Filed(pr, w, ev).value))
  {
    QuietOwes(pr, w, ev);
    QuietBeside(pr, w, ev);
    assert w.grants + [] == w.grants && w.attempts + [] == w.attempts;
    BooksKept(w, Put(Beside(pr, w, ev), Filed(pr, w, ev).value), Filed(pr, w, ev).value, [], []);
  }

  lemma MoveOrderly(pr: Suite, w: World, ev: Event)
    requires Moves(ev) && ev.id in w.requests && Filed(pr, w, ev).Some? && Orderly(w)
    ensures Orderly(Put(Beside(pr, w, ev), Filed(pr, w, ev).value))
  {
    if ev.Sign? {
      assert StageFits(w.requests[ev.id]);
      SignOrderly(pr, w, w.requests[ev.id].ticket);
    } else if ev.Log? {
      LoggedOrderly(pr, w, ev);
    } else {
      QuietOrderly(pr, w, ev);
    }
  }

  lemma OutsideBooks(pr: Suite, w: World, ev: Event)
    requires Outside(ev)
    ensures var w' := OutsideStep(pr, w, ev);
            w'.requests == w.requests && w'.grants == w.grants && w'.attempts == w.attempts
  {
  }

  lemma ArriveOrderly(w: World, ev: Event)
    requires ev.Arrive? && ev.id !in w.requests && Orderly(w)
    ensures Orderly(Put(w, FirstFiled(w, ev)))
  {
    assert w.grants + [] == w.grants && w.attempts + [] == w.attempts;
    BooksKept(w, Put(w, FirstFiled(w, ev)), FirstFiled(w, ev), [], []);
  }

  lemma OutsideOrderly(pr: Suite, w: World, ev: Event)
    requires Outside(ev) && Orderly(w)
    ensures Orderly(OutsideStep(pr, w, ev))
  {
    OutsideBooks(pr, w, ev);
    SameBooks(w, OutsideStep(pr, w, ev));
  }

  lemma ChangeOrderly(pr: Suite, w: World, ev: Event)
    requires Orderly(w)
    ensures Orderly(Change(pr, w, ev))
  {
    ChangeCases(pr, w, ev);
    if Outside(ev) {
      OutsideOrderly(pr, w, ev);
    } else if NewlyFiled(pr, w, ev).Some? {
      if ev.Arrive? {
        ArriveOrderly(w, ev);
      } else {
        MoveOrderly(pr, w, ev);
      }
    }
  }

  lemma StepOrderly(pr: Suite, w: World, ev: Event)
    requires Orderly(w)
    ensures Orderly(Step(pr, w, ev))
  {
    ChangeOrderly(pr, w, ev);
    SameBooks(Change(pr, w, ev), Step(pr, w, ev));
  }

  lemma {:induction false} AlwaysOrderly(pr: Suite, r: Trace, n: nat)
    requires IsRun(pr, r) && n <= |r.evs|
    ensures Orderly(r.worlds[n])
  {
    if n > 0 {
      AlwaysOrderly(pr, r, n - 1);
      assert Follows(pr, r, n - 1);
      StepOrderly(pr, r.worlds[n - 1], r.evs[n - 1]);
    }
  }

  // ----- exactly one entry per answer --------------------------------------

  /** In every run each answered request that was authenticated and well formed, or failed to authenticate,
      was logged exactly once before its answer went out, with the entry that answer calls for; malformed
      and unanswered requests were never logged. */
  lemma OneEntryPerAnswer(pr: Suite, r: Trace, n: nat, id: nat)
    requires IsRun(pr, r) && n <= |r.evs| && id in r.worlds[n].requests
    ensures var w := r.worlds[n];
            (exists k :: 0 <= k < |w.attempts| && w.attempts[k].id == id) <==> HasAttempt(w.requests[id].stage)
    ensures var w := r.worlds[n];
            forall j, k :: 0 <= j < |w.attempts| && 0 <= k < |w.attempts| && w.attempts[j].id == id && w.attempts[k].id == id
              ==> j == k
    ensures var w := r.worlds[n];
            forall k :: 0 <= k < |w.attempts| && w.attempts[k].id == id ==>
              && Fits(w.requests[id].ticket, w.attempts[k].draft.(time := ""), w.requests[id].stage.response)
              && Says(w.attempts[k].draft, w.requests[id].ticket, w.requests[id].stage.response)
  {
    AlwaysOrderly(pr, r, n);
    var w := r.worlds[n];
    assert forall k :: 0 <= k < |w.attempts| ==> AttemptBooked(w.requests, w.attempts[k]);
    if HasAttempt(w.requests[id].stage) {
      assert AttemptedFor(w, id);
      var t, response := w.requests[id].ticket, w.requests[id].stage.response;
      if Audited(response) && (response.Unauthorized? || t.body.Some?) {
        AnswerSays(t, response);
      }
    }
  }

  // ----- the file ----------------------------------------------------------

  /** While every append wrote a whole short line or nothing, the file holds exactly the logged entries. */
  ghost predicate FileKept(pr: Suite, w: World) {
    w.clean ==> w.auditFile == Serialize(pr, w.logged) && Chain(pr, w.logged) && AllShort(pr, w.logged)
  }

  lemma AppendFileKept(pr: Suite, w: World, who: nat, draft: Draft, io: IO)
    requires EntryLaws(pr) && FileKept(pr, w)
    ensures FileKept(pr, AppendStep(pr, w, who, draft, io))
  {
    if w.clean && WellKept(pr, w.auditFile, draft, io) {
      if AppendFile(pr, w.auditFile, draft, io).1.Ok? {
        AppendKept(pr, w.logged, draft, io);
      } else {
        assert w.logged + [] == w.logged;
      }
    }
  }

  lemma AppendKept(pr: Suite, es: seq<Entry>, draft: Draft, io: IO)
    requires EntryLaws(pr) && Chain(pr, es) && AllShort(pr, es)
    requires var r := AppendFile(pr, Serialize(pr, es), draft, io).1; r.Ok? && Short(pr, r.value)
    ensures var (file, r) := AppendFile(pr, Serialize(pr, es), draft, io);
            file == Serialize(pr, es + [r.value]) && Chain(pr, es + [r.value]) && AllShort(pr, es + [r.value])
  {
    AppendSerialized(pr, es, draft);
  }

  lemma SameFile(pr: Suite, w: World, w': World)
    requires FileKept(pr, w)
    requires w'.auditFile == w.auditFile && w'.logged == w.logged && w'.clean == w.clean
    ensures FileKept(pr, w')
  {
  }

  lemma BesideFileKept(pr: Suite, w: World, ev: Event)
    requires EntryLaws(pr) && Moves(ev) && ev.id in w.requests && Filed(pr, w, ev).Some? && FileKept(pr, w)
    ensures FileKept(pr, Beside(pr, w, ev))
  {
    var t := w.requests[ev.id].ticket;
    if ev.Log? {
      AppendFileKept(pr, w, w.requests[ev.id].ticket.id, DraftToLog(w, ev).(time := pr.showTime(ev.now)), ev.io);
    } else {
      SameFile(pr, w, Beside(pr, w, ev));
    }
  }

  lemma OutsideFileKept(pr: Suite, w: World, ev: Event)
    requires EntryLaws(pr) && Outside(ev) && FileKept(pr, w)
    ensures FileKept(pr, OutsideStep(pr, w, ev))
  {
    if ev.OtherAppend? {
      AppendFileKept(pr, w, ev.who, ev.draft, ev.io);
    } else {
      SameFile(pr, w, OutsideStep(pr, w, ev));
    }
  }

  lemma ChangeFileKept(pr: Suite, w: World, ev: Event)
    requires EntryLaws(pr) && FileKept(pr, w)
    ensures FileKept(pr, Change(pr, w, ev))
  {
    ChangeCases(pr, w, ev);
    if Outside(ev) {
      OutsideFileKept(pr, w, ev);
    } else if NewlyFiled(pr, w, ev).Some? {
      if ev.Arrive? {
        SameFile(pr, w, Put(w, FirstFiled(w, ev)));
      } else {
        BesideFileKept(pr, w, ev);
        SameFile(pr, Beside(pr, w, ev), Put(Beside(pr, w, ev), Filed(pr, w, ev).value));
      }
    }
  }

  lemma StepFileKept(pr: Suite, w: World, ev: Event)
    requires EntryLaws(pr) && FileKept(pr, w)
    ensures FileKept(pr, Step(pr, w, ev))
  {
    ChangeFileKept(pr, w, ev);
    SameFile(pr, Change(pr, w, ev), Step(pr, w, ev));
  }

  lemma {:induction false} AlwaysFileKept(pr: Suite, r: Trace, n: nat)
    requires EntryLaws(pr) && IsRun(pr, r) && n <= |r.evs|
    ensures FileKept(pr, r.worlds[n])
  {
    if n > 0 {
      AlwaysFileKept(pr, r, n - 1);
      assert Follows(pr, r, n - 1);
      StepFileKept(pr, r.worlds[n - 1], r.evs[n - 1]);
    }
  }
}
