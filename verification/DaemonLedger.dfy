/** The audit log against the answers given and the signatures made. */
module DaemonLedger {
  import opened Common
  import opened Primitives
  import opened Audit
  import opened AuditChain
  import opened AuditFaults
  import opened Bags
  import opened Daemon
  import opened DaemonAudit
  import opened DaemonAnswers

  // ----- the file and the appends of a run ---------------------------------

  /** The attempt is one of the appends, and had its outcome. */
  ghost predicate IsAppend(pr: Suite, ops: seq<Op>, a: Attempt) {
    && a.at < |ops| && ops[a.at].who == a.id && ops[a.at].draft == a.draft
    && (a.entry.Some? <==> Outcome(pr, ops, a.at).Ok?)
  }

  ghost predicate AttemptAt(w: World, i: nat) { exists k :: 0 <= k < |w.attempts| && w.attempts[k].at == i }

  /** The file is what the appends left one after another, and the daemon's own are its attempts. */
  ghost predicate Recorded(pr: Suite, w: World) {
    && w.auditFile == Sequential(pr, w.appends)
    && w.logged == Successes(pr, w.appends)
    && (forall k :: 0 <= k < |w.attempts| ==> IsAppend(pr, w.appends, w.attempts[k]))
    && (forall i: nat :: i < |w.appends| && Ours(w.appends[i].draft.action) ==> AttemptAt(w, i))
  }

  /** One append more, of somebody else's or with its attempt. */
  lemma OpRecorded(pr: Suite, w: World, w': World, op: Op, a: seq<Attempt>)
    requires Recorded(pr, w)
    requires w'.appends == w.appends + [op] && w'.attempts == w.attempts + a
    requires w'.auditFile == AppendFile(pr, w.auditFile, op.draft, op.io).0
    requires var entry := Appended(pr, w, op.draft, op.io);
             && w'.logged == w.logged + (if entry.Some? then [entry.value] else [])
             && (a == [Attempt(op.who, op.draft, entry, |w.appends|)] || (a == [] && !Ours(op.draft.action)))
    ensures Recorded(pr, w')
  {
    var n := |w.appends|;
    SequentialSnoc(pr, w.appends, op);
    assert w'.appends[..n] == w.appends;
    forall k | 0 <= k < |w'.attempts| ensures IsAppend(pr, w'.appends, w'.attempts[k]) {
      if k < |w.attempts| {
        assert IsAppend(pr, w.appends, w.attempts[k]);
        OutcomeStays(pr, w.appends, op, w.attempts[k].at);
      }
    }
    forall i: nat | i < |w'.appends| && Ours(w'.appends[i].draft.action) ensures AttemptAt(w', i) {
      if i < n {
        assert AttemptAt(w, i);
        var k :| 0 <= k < |w.attempts| && w.attempts[k].at == i;
        assert w'.attempts[k].at == i;
      } else {
        assert w'.attempts[|w.attempts|].at == i;
      }
    }
  }

  lemma SameRecorded(pr: Suite, w: World, w': World)
    requires Recorded(pr, w) && w'.appends == w.appends && w'.attempts == w.attempts
    requires w'.auditFile == w.auditFile && w'.logged == w.logged
    ensures Recorded(pr, w')
  {
    forall i: nat | i < |w'.appends| && Ours(w'.appends[i].draft.action) ensures AttemptAt(w', i) {
      assert AttemptAt(w, i);
    }
  }

  lemma LogRecorded(pr: Suite, w: World, id: nat, draft: Draft, now: int, io: IO)
    requires Recorded(pr, w)
    ensures Recorded(pr, LogStep(pr, w, id, draft, now, io))
  {
    var stamped := draft.(time := pr.showTime(now));
    OpRecorded(pr, w, LogStep(pr, w, id, draft, now, io), Op(id, stamped, io),
               [Attempt(id, stamped, Appended(pr, w, stamped, io), |w.appends|)]);
  }

  lemma OtherRecorded(pr: Suite, w: World, who: nat, draft: Draft, io: IO)
    requires Recorded(pr, w) && !Ours(draft.action)
    ensures Recorded(pr, AppendStep(pr, w, who, draft, io))
  {
    assert w.attempts + [] == w.attempts;
    OpRecorded(pr, w, AppendStep(pr, w, who, draft, io), Op(who, draft, io), []);
  }

  lemma BesideRecorded(pr: Suite, w: World, ev: Event)
    requires Moves(ev) && ev.id in w.requests && Filed(pr, w, ev).Some? && Recorded(pr, w)
    ensures Recorded(pr, Beside(pr, w, ev))
  {
    var t := w.requests[ev.id].ticket;
    if ev.Log? {
      LogRecorded(pr, w, t.id, DraftToLog(w, ev), ev.now, ev.io);
    } else {
      SameRecorded(pr, w, Beside(pr, w, ev));
    }
  }

  lemma OutsideRecorded(pr: Suite, w: World, ev: Event)
    requires Outside(ev) && Recorded(pr, w)
    ensures Recorded(pr, OutsideStep(pr, w, ev))
  {
    if ev.OtherAppend? && !Ours(ev.draft.action) {
      OtherRecorded(pr, w, ev.who, ev.draft, ev.io);
    } else {
      SameRecorded(pr, w, OutsideStep(pr, w, ev));
    }
  }

  lemma ChangeRecorded(pr: Suite, w: World, ev: Event)
    requires Recorded(pr, w)
    ensures Recorded(pr, Change(pr, w, ev))
  {
    ChangeCases(pr, w, ev);
    if Outside(ev) {
      OutsideRecorded(pr, w, ev);
    } else if NewlyFiled(pr, w, ev).Some? {
      if ev.Arrive? {
        SameRecorded(pr, w, Put(w, FirstFiled(w, ev)));
      } else {
        BesideRecorded(pr, w, ev);
        SameRecorded(pr, Beside(pr, w, ev), Put(Beside(pr, w, ev), Filed(pr, w, ev).value));
      }
    }
  }

  lemma StepRecorded(pr: Suite, w: World, ev: Event)
    requires Recorded(pr, w)
    ensures Recorded(pr, Step(pr, w, ev))
  {
    ChangeRecorded(pr, w, ev);
    SameRecorded(pr, Change(pr, w, ev), Step(pr, w, ev));
  }

  lemma StartRecorded(pr: Suite)
    ensures Recorded(pr, START)
  {
  }

  lemma NextRecorded(pr: Suite, r: Trace, n: nat)
    requires IsRun(pr, r) && n < |r.evs| && Recorded(pr, r.worlds[n])
    ensures Recorded(pr, r.worlds[n + 1])
  {
    assert Follows(pr, r, n);
    StepRecorded(pr, r.worlds[n], r.evs[n]);
  }

  /** In every run the audit file is what all its appends, one after another and however each went, leave of it. */
  lemma {:induction false} AlwaysRecorded(pr: Suite, r: Trace, n: nat)
    requires IsRun(pr, r) && n <= |r.evs|
    ensures Recorded(pr, r.worlds[n])
  {
    if n == 0 {
      StartRecorded(pr);
    } else {
      AlwaysRecorded(pr, r, n - 1);
      NextRecorded(pr, r, n - 1);
    }
  }

  // ----- when, and how the write went --------------------------------------

  /** The attempt was made by one of the first n events: the entry bears the instant that event read from the clock, and the
      write went as it says. */
  ghost predicate MadeBy(pr: Suite, r: Trace, n: nat, a: Attempt, ops: seq<Op>)
    requires n <= |r.evs|
  {
    exists m: nat :: m < n && LoggedBy(pr, r.evs[m], a, ops)
  }

  ghost predicate LoggedBy(pr: Suite, ev: Event, a: Attempt, ops: seq<Op>) {
    ev.Log? && ev.id == a.id && a.draft.time == pr.showTime(ev.now) && a.at < |ops| && ops[a.at].io == ev.io
  }

  /** What an event adds to the attempts and the appends. */
  lemma AttemptAdded(pr: Suite, w: World, ev: Event)
    requires forall id :: id in w.requests ==> w.requests[id].ticket.id == id
    ensures var w' := Step(pr, w, ev);
            && w.appends <= w'.appends
            && (w'.attempts == w.attempts
                || (|w'.attempts| == |w.attempts| + 1 && w'.attempts[..|w.attempts|] == w.attempts
                    && LoggedBy(pr, ev, w'.attempts[|w.attempts|], w'.appends)))
  {
    ChangeCases(pr, w, ev);
    if !Outside(ev) && NewlyFiled(pr, w, ev).Some? && ev.Log? {
      LogAdded(pr, w, ev);
    }
  }

  lemma LogAdded(pr: Suite, w: World, ev: Event)
    requires ev.Log? && ev.id in w.requests && Filed(pr, w, ev).Some? && w.requests[ev.id].ticket.id == ev.id
    ensures var w' := Beside(pr, w, ev);
            && w.appends <= w'.appends
            && |w'.attempts| == |w.attempts| + 1 && w'.attempts[..|w.attempts|] == w.attempts
            && LoggedBy(pr, ev, w'.attempts[|w.attempts|], w'.appends)
  {
  }

  /** In every run each log entry bears the instant read when it was logged. */
  lemma {:induction false} AlwaysStamped(pr: Suite, r: Trace, n: nat)
    requires IsRun(pr, r) && n <= |r.evs|
    ensures var w := r.worlds[n]; forall k :: 0 <= k < |w.attempts| ==> MadeBy(pr, r, n, w.attempts[k], w.appends)
  {
    if n > 0 {
      AlwaysStamped(pr, r, n - 1);
      AlwaysOrderly(pr, r, n - 1);
      assert Follows(pr, r, n - 1);
      var w, w' := r.worlds[n - 1], r.worlds[n];
      AttemptAdded(pr, w, r.evs[n - 1]);
      forall k | 0 <= k < |w'.attempts| ensures MadeBy(pr, r, n, w'.attempts[k], w'.appends) {
        if k < |w.attempts| {
          assert w'.attempts[k] == w.attempts[k];
          MadeStill(pr, r, n, w.attempts[k], w.appends, w'.appends);
        } else {
          assert LoggedBy(pr, r.evs[n - 1], w'.attempts[k], w'.appends);
        }
      }
    }
  }

  lemma MadeStill(pr: Suite, r: Trace, n: nat, a: Attempt, ops: seq<Op>, more: seq<Op>)
    requires 0 < n <= |r.evs| && MadeBy(pr, r, n - 1, a, ops) && ops <= more
    ensures MadeBy(pr, r, n, a, more)
  {
    var m: nat :| m < n - 1 && LoggedBy(pr, r.evs[m], a, ops);
    assert LoggedBy(pr, r.evs[m], a, more);
  }

  // ----- the daemon's own appends ------------------------------------------

  predicate IsSign(action: string) { action == ACTION_SIGN }

  /** Which entries to look at: some or all of the daemon's own. */
  type Filter = keep: string -> bool | forall action :: keep(action) ==> Ours(action) witness IsSign

  /** Append `i` passes. */
  predicate Passes(keep: Filter, ops: seq<Op>, i: nat) { i < |ops| && keep(ops[i].draft.action) }

  /** The entry an answered request calls for. */
  ghost function EntryFor(requests: map<nat, Pending>): nat -> Draft {
    id => if id in requests && requests[id].stage.Done? then AnswerDraft(requests[id].ticket, requests[id].stage.response)
          else REJECT_DRAFT
  }

  /** The request was answered with something to log. */
  ghost predicate Answered(w: World, id: nat) { id in w.requests && HasAttempt(w.requests[id].stage) }

  ghost predicate Balanced(pr: Suite, w: World) { Recorded(pr, w) && Orderly(w) }

  lemma AlwaysBalanced(pr: Suite, r: Trace, n: nat)
    requires IsRun(pr, r) && n <= |r.evs|
    ensures Balanced(pr, r.worlds[n])
  {
    AlwaysRecorded(pr, r, n);
    AlwaysOrderly(pr, r, n);
  }

  lemma FitsAnswer(t: Ticket, draft: Draft, response: Response)
    requires Fits(t, draft, response)
    ensures Ours(draft.action)
    ensures IsSign(draft.action) <==> response.Success?
  {
    assert ACTION_DENY[0] != ACTION_SIGN[0] && ACTION_REJECT[0] != ACTION_SIGN[0];
  }

  /** The attempt behind an append of the daemon's own. */
  lemma AttemptOf(pr: Suite, w: World, i: nat) returns (k: nat)
    requires Recorded(pr, w) && Passes(Ours, w.appends, i)
    ensures k < |w.attempts| && w.attempts[k].at == i && IsAppend(pr, w.appends, w.attempts[k])
  {
    assert AttemptAt(w, i);
    k :| k < |w.attempts| && w.attempts[k].at == i;
  }

  /** An append of the daemon's own was made for an answered request, and carries the entry for that answer. */
  lemma OwnBooked(pr: Suite, w: World, i: nat)
    requires Balanced(pr, w) && Passes(Ours, w.appends, i)
    ensures var op := w.appends[i];
            && Answered(w, op.who)
            && op.draft.(time := "") == EntryFor(w.requests)(op.who)
            && Says(op.draft, w.requests[op.who].ticket, w.requests[op.who].stage.response)
            && (IsSign(op.draft.action) <==> w.requests[op.who].stage.response.Success?)
  {
    var k := AttemptOf(pr, w, i);
    assert AttemptBooked(w.requests, w.attempts[k]);
    var p := w.requests[w.attempts[k].id];
    FitsAnswer(p.ticket, w.attempts[k].draft.(time := ""), p.stage.response);
    AnswerSays(p.ticket, p.stage.response);
  }

  lemma OwnDistinct(pr: Suite, w: World, i: nat, j: nat)
    requires Balanced(pr, w) && Passes(Ours, w.appends, i) && Passes(Ours, w.appends, j) && i != j
    ensures w.appends[i].who != w.appends[j].who
  {
    var k := AttemptOf(pr, w, i);
    var m := AttemptOf(pr, w, j);
    assert w.attempts[k].id != w.attempts[m].id;
  }

  lemma OwnOf(pr: Suite, w: World, id: nat) returns (i: nat)
    requires Balanced(pr, w) && Answered(w, id)
    ensures Passes(Ours, w.appends, i) && w.appends[i].who == id
  {
    assert AttemptedFor(w, id);
    var k :| 0 <= k < |w.attempts| && w.attempts[k].id == id;
    assert IsAppend(pr, w.appends, w.attempts[k]) && AttemptBooked(w.requests, w.attempts[k]);
    FitsAnswer(w.requests[id].ticket, w.attempts[k].draft.(time := ""), w.requests[id].stage.response);
    i := w.attempts[k].at;
  }

  // ----- entries by the numbers of their appends ---------------------------

  /** The entries of a log that pass, times aside. */
  function Only(keep: Filter, es: seq<Entry>): seq<Draft> {
    if es == [] then []
    else
      var last := es[|es| - 1].draft;
      Only(keep, es[..|es| - 1]) + if keep(last.action) then [last.(time := "")] else []
  }

  /** Appends, by number, in order. */
  ghost predicate Numbers(ops: seq<Op>, at: seq<nat>) {
    && (forall k :: 0 <= k < |at| ==> at[k] < |ops|)
    && (forall j, k :: 0 <= j < k < |at| ==> at[j] < at[k])
  }

  /** The entries are those of these appends. */
  ghost predicate EntriesOf(ops: seq<Op>, at: seq<nat>, es: seq<Entry>) {
    Numbers(ops, at) && |at| == |es| && forall k :: 0 <= k < |es| ==> es[k].draft == ops[at[k]].draft
  }

  /** Whom those that pass were made for. */
  function IdsAt(keep: Filter, ops: seq<Op>, at: seq<nat>): seq<nat> {
    if at == [] then []
    else
      var i := at[|at| - 1];
      IdsAt(keep, ops, at[..|at| - 1]) + if Passes(keep, ops, i) then [ops[i].who] else []
  }

  lemma {:induction false} MemberAt(keep: Filter, ops: seq<Op>, at: seq<nat>, id: nat)
    ensures id in IdsAt(keep, ops, at) <==> exists i: nat :: i in at && Passes(keep, ops, i) && ops[i].who == id
  {
    if at != [] {
      var init, last := at[..|at| - 1], at[|at| - 1];
      MemberAt(keep, ops, init, id);
      assert at == init + [last];
    }
  }

  lemma {:induction false} DistinctAt(pr: Suite, w: World, keep: Filter, at: seq<nat>)
    requires Balanced(pr, w) && Numbers(w.appends, at)
    ensures Distinct(IdsAt(keep, w.appends, at))
  {
    if at != [] {
      var init, last := at[..|at| - 1], at[|at| - 1];
      DistinctAt(pr, w, keep, init);
      if Passes(keep, w.appends, last) {
        MemberAt(keep, w.appends, init, w.appends[last].who);
        forall i: nat | i in init && Passes(keep, w.appends, i) ensures w.appends[i].who != w.appends[last].who {
          OwnDistinct(pr, w, i, last);
        }
      }
    }
  }

  /** Append `i` carries the draft `f` gives for whom it was made. */
  ghost predicate Carries(f: nat -> Draft, op: Op) { op.draft.(time := "") == f(op.who) }

  lemma {:induction false} OnlyByIds(keep: Filter, ops: seq<Op>, f: nat -> Draft, at: seq<nat>, es: seq<Entry>)
    requires forall i: nat :: Passes(keep, ops, i) ==> Carries(f, ops[i])
    requires EntriesOf(ops, at, es)
    ensures Only(keep, es) == Map(f, IdsAt(keep, ops, at))
  {
    if at != [] {
      var n := |at| - 1;
      OnlyByIds(keep, ops, f, at[..n], es[..n]);
      var ids, i := IdsAt(keep, ops, at[..n]), at[n];
      assert es[n].draft == ops[i].draft;
      if Passes(keep, ops, i) {
        assert Carries(f, ops[i]);
        assert (ids + [ops[i].who])[..|ids|] == ids;
      } else {
        assert ids + [] == ids && Only(keep, es[..n]) + [] == Only(keep, es[..n]);
      }
    }
  }

  /** The entries that pass are those the answers to these requests call for. */
  lemma OnlyAnswers(pr: Suite, w: World, keep: Filter, at: seq<nat>, es: seq<Entry>)
    requires Balanced(pr, w) && EntriesOf(w.appends, at, es)
    ensures Only(keep, es) == Map(EntryFor(w.requests), IdsAt(keep, w.appends, at))
  {
    forall i: nat | Passes(keep, w.appends, i) ensures Carries(EntryFor(w.requests), w.appends[i]) {
      OwnBooked(pr, w, i);
    }
    OnlyByIds(keep, w.appends, EntryFor(w.requests), at, es);
  }

  // ----- answers -----------------------------------------------------------

  /** For the request an append was made that is one of these. */
  ghost predicate Kept(w: World, these: nat -> bool, id: nat) {
    exists i: nat :: these(i) && Passes(Ours, w.appends, i) && w.appends[i].who == id
  }

  /** The entry for this request says who asked for what, and what came of it. */
  ghost predicate SaysFor(w: World, id: nat) {
    && id in w.requests && w.requests[id].stage.Done?
    && Says(EntryFor(w.requests)(id), w.requests[id].ticket, w.requests[id].stage.response)
  }

  /** The daemon's entries are one to one those of the answered requests for which one of these appends was made, each as
      the answer calls for; and those of all answered requests exactly if all the daemon's appends are of these. */
  ghost predicate AnswersIn(w: World, these: nat -> bool, es: seq<Entry>, ids: seq<nat>) {
    && Distinct(ids)
    && Only(Ours, es) == Map(EntryFor(w.requests), ids)
    && (forall id: nat :: id in ids <==> Kept(w, these, id))
    && (forall id: nat :: id in ids ==> Answered(w, id) && SaysFor(w, id))
    && ((forall id: nat :: Answered(w, id) ==> id in ids) <==> (forall i: nat :: Passes(Ours, w.appends, i) ==> these(i)))
  }

  lemma AnswersAt(pr: Suite, w: World, at: seq<nat>, these: nat -> bool, es: seq<Entry>)
    requires Balanced(pr, w) && EntriesOf(w.appends, at, es) && forall i: nat :: i in at <==> these(i)
    ensures AnswersIn(w, these, es, IdsAt(Ours, w.appends, at))
  {
    var ids := IdsAt(Ours, w.appends, at);
    DistinctAt(pr, w, Ours, at);
    OnlyAnswers(pr, w, Ours, at, es);
    forall id: nat ensures id in ids <==> Kept(w, these, id) {
      MemberAt(Ours, w.appends, at, id);
    }
    forall id: nat | id in ids ensures Answered(w, id) && SaysFor(w, id) {
      var i: nat :| these(i) && Passes(Ours, w.appends, i) && w.appends[i].who == id;
      OwnBooked(pr, w, i);
    }
    AllKept(pr, w, these);
  }

  lemma AllKept(pr: Suite, w: World, these: nat -> bool)
    requires Balanced(pr, w)
    ensures (forall id: nat :: Answered(w, id) ==> Kept(w, these, id)) <==> (forall i: nat :: Passes(Ours, w.appends, i) ==> these(i))
  {
    if forall id: nat :: Answered(w, id) ==> Kept(w, these, id) {
      forall i: nat | Passes(Ours, w.appends, i) ensures these(i) {
        OwnBooked(pr, w, i);
        assert Kept(w, these, w.appends[i].who);
        var j: nat :| these(j) && Passes(Ours, w.appends, j) && w.appends[j].who == w.appends[i].who;
        if j != i {
          OwnDistinct(pr, w, i, j);
        }
      }
    }
    if forall i: nat :: Passes(Ours, w.appends, i) ==> these(i) {
      forall id: nat | Answered(w, id) ensures Kept(w, these, id) {
        var i := OwnOf(pr, w, id);
      }
    }
  }

  // ----- "sign" entries and signatures -------------------------------------

  function GrantIds(grants: seq<Ticket>): seq<nat> { Map((g: Ticket) => g.id, grants) }

  lemma {:induction false} GrantIdAt(grants: seq<Ticket>, i: nat)
    requires i < |grants|
    ensures |GrantIds(grants)| == |grants| && GrantIds(grants)[i] == grants[i].id
  {
    var init := grants[..|grants| - 1];
    MapLength((g: Ticket) => g.id, init);
    if i < |init| {
      GrantIdAt(init, i);
    }
  }

  /** What a granted request's "sign" entry says. */
  ghost function SignsFor(requests: map<nat, Pending>): nat -> Draft {
    id => if id in requests && requests[id].ticket.body.Some? then SignDraft(requests[id].ticket) else REJECT_DRAFT
  }

  /** The "sign" entries that the issued signatures call for. */
  ghost function GrantDrafts(grants: seq<Ticket>): seq<Draft>
    requires forall i :: 0 <= i < |grants| ==> grants[i].body.Some?
  {
    if grants == [] then [] else GrantDrafts(grants[..|grants| - 1]) + [SignDraft(grants[|grants| - 1])]
  }

  lemma {:induction false} GrantsByIds(requests: map<nat, Pending>, grants: seq<Ticket>)
    requires forall i :: 0 <= i < |grants| ==> GrantBooked(requests, grants[i]) && grants[i].body.Some?
    ensures Map(SignsFor(requests), GrantIds(grants)) == GrantDrafts(grants)
  {
    if grants != [] {
      var init, last := grants[..|grants| - 1], grants[|grants| - 1];
      GrantsByIds(requests, init);
      var ids := GrantIds(init);
      assert GrantIds(grants) == ids + [last.id];
      assert (ids + [last.id])[..|ids|] == ids;
      assert GrantBooked(requests, last);
    }
  }

  lemma GrantIdsOf(w: World)
    requires GrantsBooked(w)
    ensures Distinct(GrantIds(w.grants))
    ensures forall id: nat :: id in GrantIds(w.grants) <==> id in w.requests && HasGrant(w.requests[id].stage)
  {
    MapLength((g: Ticket) => g.id, w.grants);
    var ids := GrantIds(w.grants);
    forall i | 0 <= i < |ids| ensures ids[i] == w.grants[i].id && GrantBooked(w.requests, w.grants[i]) {
      GrantIdAt(w.grants, i);
    }
    forall id: nat | id in w.requests && HasGrant(w.requests[id].stage) ensures id in ids {
      assert GrantedTo(w, id);
      var i :| 0 <= i < |w.grants| && w.grants[i].id == id;
      assert ids[i] == id;
    }
  }

  lemma GrantsWhole(w: World)
    requires Orderly(w)
    ensures forall i :: 0 <= i < |w.grants| ==> GrantBooked(w.requests, w.grants[i]) && w.grants[i].body.Some?
  {
    forall i | 0 <= i < |w.grants| ensures GrantBooked(w.requests, w.grants[i]) && w.grants[i].body.Some? {
      assert StageFits(w.requests[w.grants[i].id]);
    }
  }

  /** No signature waits, or will for ever after a restart, to be logged, and every "sign" append is one of these. */
  ghost predicate SignsIn(w: World, these: nat -> bool) {
    && (forall id :: id in w.requests ==> !w.requests[id].stage.Signed?)
    && (forall i: nat :: Passes(IsSign, w.appends, i) ==> these(i))
  }

  ghost function Among(at: seq<nat>): nat -> bool { i => i in at }

  lemma SignersExact(pr: Suite, w: World, at: seq<nat>)
    requires Balanced(pr, w) && Numbers(w.appends, at)
    ensures multiset(IdsAt(IsSign, w.appends, at)) <= multiset(GrantIds(w.grants))
    ensures multiset(IdsAt(IsSign, w.appends, at)) == multiset(GrantIds(w.grants)) <==> SignsIn(w, Among(at))
  {
    var ids, granted := IdsAt(IsSign, w.appends, at), GrantIds(w.grants);
    DistinctAt(pr, w, IsSign, at);
    GrantIdsOf(w);
    forall id: nat | id in ids ensures id in granted {
      SignerGranted(pr, w, at, id);
    }
    PartOf(ids, granted);
    if multiset(ids) == multiset(granted) {
      forall id: nat | id in granted ensures id in ids {
        assert id in multiset(granted);
      }
      AllSignsIn(pr, w, at);
    }
    if SignsIn(w, Among(at)) {
      forall id: nat | id in granted ensures id in ids {
        GrantIn(pr, w, at, id);
      }
      SameMembers(ids, granted);
    }
  }

  lemma SignerGranted(pr: Suite, w: World, at: seq<nat>, id: nat)
    requires Balanced(pr, w) && id in IdsAt(IsSign, w.appends, at)
    ensures id in w.requests && w.requests[id].stage.Done? && w.requests[id].stage.response.Success?
  {
    MemberAt(IsSign, w.appends, at, id);
    var i: nat :| i in at && Passes(IsSign, w.appends, i) && w.appends[i].who == id;
    OwnBooked(pr, w, i);
  }

  lemma AllSignsIn(pr: Suite, w: World, at: seq<nat>)
    requires Balanced(pr, w)
    requires forall id: nat :: id in w.requests && HasGrant(w.requests[id].stage) ==> id in IdsAt(IsSign, w.appends, at)
    ensures SignsIn(w, Among(at))
  {
    forall id | id in w.requests ensures !w.requests[id].stage.Signed? {
      if id in IdsAt(IsSign, w.appends, at) {
        SignerGranted(pr, w, at, id);
      }
    }
    forall i: nat | Passes(IsSign, w.appends, i) ensures i in at {
      OwnBooked(pr, w, i);
      MemberAt(IsSign, w.appends, at, w.appends[i].who);
      var j: nat :| j in at && Passes(IsSign, w.appends, j) && w.appends[j].who == w.appends[i].who;
      if j != i {
        OwnDistinct(pr, w, i, j);
      }
    }
  }

  lemma GrantIn(pr: Suite, w: World, at: seq<nat>, id: nat)
    requires Balanced(pr, w) && SignsIn(w, Among(at)) && id in w.requests && HasGrant(w.requests[id].stage)
    ensures id in IdsAt(IsSign, w.appends, at)
  {
    assert Answered(w, id);
    var i := OwnOf(pr, w, id);
    OwnBooked(pr, w, i);
    assert Passes(IsSign, w.appends, i);
    MemberAt(IsSign, w.appends, at, id);
  }

  lemma SignerEntry(pr: Suite, w: World, at: seq<nat>, id: nat)
    requires Balanced(pr, w) && id in IdsAt(IsSign, w.appends, at)
    ensures EntryFor(w.requests)(id) == SignsFor(w.requests)(id)
  {
    SignerGranted(pr, w, at, id);
    assert StageFits(w.requests[id]);
  }

  // ----- facts: caller, key, artifact, digest ------------------------------

  type Fact = (string, string, string, string)

  function FactOf(d: Draft): Fact { (d.actor, d.key, d.artifact, d.digest) }

  ghost function Facts(): Draft -> Fact { (d: Draft) => FactOf(d) }

  /** What the "sign" entries of a log say was signed: for whom, with which key, and which artifact and digest. */
  function SignFacts(es: seq<Entry>): seq<Fact> {
    if es == [] then []
    else
      var d := es[|es| - 1].draft;
      SignFacts(es[..|es| - 1]) + if d.action == "sign" then [(d.actor, d.key, d.artifact, d.digest)] else []
  }

  /** What was signed. */
  ghost function GrantFacts(grants: seq<Ticket>): seq<Fact>
    requires forall i :: 0 <= i < |grants| ==> grants[i].body.Some?
  {
    if grants == [] then []
    else
      var g := grants[|grants| - 1];
      GrantFacts(grants[..|grants| - 1]) +
      [(g.caller.name, g.body.value.key, g.body.value.artifact, g.body.value.digest)]
  }

  lemma {:induction false} SignFactsOf(es: seq<Entry>)
    ensures SignFacts(es) == Map(Facts(), Only(IsSign, es))
  {
    if es != [] {
      var init, last := es[..|es| - 1], es[|es| - 1].draft;
      SignFactsOf(init);
      var before := Only(IsSign, init);
      if IsSign(last.action) {
        assert (before + [last.(time := "")])[..|before|] == before;
      } else {
        assert before + [] == before && SignFacts(init) + [] == SignFacts(init);
      }
    }
  }

  lemma {:induction false} GrantFactsOf(grants: seq<Ticket>)
    requires forall i :: 0 <= i < |grants| ==> grants[i].body.Some?
    ensures GrantFacts(grants) == Map(Facts(), GrantDrafts(grants))
  {
    if grants != [] {
      var init, before := grants[..|grants| - 1], GrantDrafts(grants[..|grants| - 1]);
      GrantFactsOf(init);
      assert (before + [SignDraft(grants[|grants| - 1])])[..|before|] == before;
    }
  }

  lemma PartByMap(a: seq<Draft>, b: seq<Draft>, x: seq<Fact>, y: seq<Fact>)
    requires multiset(a) <= multiset(b) && x == Map(Facts(), a) && y == Map(Facts(), b)
    ensures multiset(x) <= multiset(y)
    ensures multiset(x) == multiset(y) <==> multiset(a) == multiset(b)
  {
    MapPart(Facts(), a, b);
  }

  /** Entries that are part of the grants' are so in what they say, and all of them only together. */
  lemma FactsPart(es: seq<Entry>, grants: seq<Ticket>)
    requires forall i :: 0 <= i < |grants| ==> grants[i].body.Some?
    requires multiset(Only(IsSign, es)) <= multiset(GrantDrafts(grants))
    ensures multiset(SignFacts(es)) <= multiset(GrantFacts(grants))
    ensures multiset(SignFacts(es)) == multiset(GrantFacts(grants)) <==>
            multiset(Only(IsSign, es)) == multiset(GrantDrafts(grants))
  {
    var a, b, x, y := Only(IsSign, es), GrantDrafts(grants), SignFacts(es), GrantFacts(grants);
    assert x == Map(Facts(), a) by {
      SignFactsOf(es);
    }
    assert y == Map(Facts(), b) by {
      GrantFactsOf(grants);
    }
    PartByMap(a, b, x, y);
  }

  lemma SignDrafts(pr: Suite, w: World, at: seq<nat>, es: seq<Entry>)
    requires Balanced(pr, w) && EntriesOf(w.appends, at, es)
    ensures Only(IsSign, es) == Map(SignsFor(w.requests), IdsAt(IsSign, w.appends, at))
  {
    var ids := IdsAt(IsSign, w.appends, at);
    forall id: nat | id in ids ensures EntryFor(w.requests)(id) == SignsFor(w.requests)(id) {
      SignerEntry(pr, w, at, id);
    }
    OnlyAnswers(pr, w, IsSign, at, es);
    MapSame(EntryFor(w.requests), SignsFor(w.requests), ids);
  }

  /** The "sign" entries are part of the signatures issued, as a bag of caller, key, artifact and digest, and all of
      them exactly if every signature has reached the log by one of these appends. */
  ghost predicate SignsPart(w: World, these: nat -> bool, es: seq<Entry>)
    requires forall i :: 0 <= i < |w.grants| ==> w.grants[i].body.Some?
  {
    && multiset(Only(IsSign, es)) <= multiset(GrantDrafts(w.grants))
    && multiset(SignFacts(es)) <= multiset(GrantFacts(w.grants))
    && (multiset(Only(IsSign, es)) == multiset(GrantDrafts(w.grants)) <==> SignsIn(w, these))
    && (multiset(SignFacts(es)) == multiset(GrantFacts(w.grants)) <==> SignsIn(w, these))
  }

  lemma SignsAt(pr: Suite, w: World, at: seq<nat>, these: nat -> bool, es: seq<Entry>)
    requires Balanced(pr, w) && EntriesOf(w.appends, at, es) && forall i: nat :: i in at <==> these(i)
    ensures forall i :: 0 <= i < |w.grants| ==> w.grants[i].body.Some?
    ensures SignsPart(w, these, es)
  {
    GrantsWhole(w);
    GrantsByIds(w.requests, w.grants);
    SignDrafts(pr, w, at, es);
    SignersExact(pr, w, at);
    assert SignsIn(w, Among(at)) <==> SignsIn(w, these) by {
      assert forall i: nat :: Among(at)(i) <==> these(i);
    }
    MapPart(SignsFor(w.requests), IdsAt(IsSign, w.appends, at), GrantIds(w.grants));
    FactsPart(es, w.grants);
  }

  // ----- the entries in the file -------------------------------------------

  /** The appends of which anything went into the file. */
  ghost function OnFile(pr: Suite, ops: seq<Op>): nat -> bool {
    (i: nat) => i < |ops| && WentOut(pr, ops, i)
  }

  /** What was read from the file is the entries of the appends that got text out. */
  lemma FileEntries(pr: Suite, w: World)
    requires EntryLaws(pr) && Balanced(pr, w)
    ensures var es, at := ShapeOf(pr, w.appends).es, Authors(pr, w.appends);
            && EntriesOf(w.appends, at, es)
            && (ReadFile(pr, w.auditFile).Some? ==>
                  && ReadFile(pr, w.auditFile) == Some(es)
                  && (forall i: nat :: i in at <==> OnFile(pr, w.appends)(i)))
  {
    var es, at := ShapeOf(pr, w.appends).es, Authors(pr, w.appends);
    AuthorsInOrder(pr, w.appends);
    forall k | 0 <= k < |es| ensures at[k] < |w.appends| && es[k].draft == w.appends[at[k]].draft {
      assert Authored(pr, w.appends, es, k, at[k]);
    }
    ShapeTells(pr, w.appends);
    ShapeReads(pr, w.auditFile, ShapeOf(pr, w.appends));
    if ReadFile(pr, w.auditFile).Some? {
      AuthorsExact(pr, w.appends);
    }
  }

  /** In every run, whatever the writes did: if the audit file can be read, the daemon's entries in it, denials and
      rejections included, are one to one those of the answered requests whose append put anything into the
      file, each saying what that answer calls for; they are those of all answered requests exactly if every
      append of the daemon's own did. */
  lemma FileHoldsAnswers(pr: Suite, r: Trace, n: nat) returns (ids: seq<nat>)
    requires EntryLaws(pr) && IsRun(pr, r) && n <= |r.evs| && ReadFile(pr, r.worlds[n].auditFile).Some?
    ensures var w := r.worlds[n]; AnswersIn(w, OnFile(pr, w.appends), ReadFile(pr, w.auditFile).value, ids)
  {
    AlwaysBalanced(pr, r, n);
    ids := FileAnswers(pr, r.worlds[n]);
  }

  lemma FileAnswers(pr: Suite, w: World) returns (ids: seq<nat>)
    requires EntryLaws(pr) && Balanced(pr, w) && ReadFile(pr, w.auditFile).Some?
    ensures AnswersIn(w, OnFile(pr, w.appends), ReadFile(pr, w.auditFile).value, ids)
  {
    FileEntries(pr, w);
    ids := IdsAt(Ours, w.appends, Authors(pr, w.appends));
    AnswersAt(pr, w, Authors(pr, w.appends), OnFile(pr, w.appends), ReadFile(pr, w.auditFile).value);
  }

  /** In every run, whatever the writes did: if the audit file can be read, the "sign" entries in it are part of the
      signatures issued: nothing is on file as signed that was not. They are all of them exactly if every "sign"
      append put its entry into the file and no signature still waits, or will for ever after a restart, to
      be logged. */
  lemma FileSignsAreSignatures(pr: Suite, r: Trace, n: nat)
    requires EntryLaws(pr) && IsRun(pr, r) && n <= |r.evs| && ReadFile(pr, r.worlds[n].auditFile).Some?
    ensures forall i :: 0 <= i < |r.worlds[n].grants| ==> r.worlds[n].grants[i].body.Some?
    ensures var w := r.worlds[n]; SignsPart(w, OnFile(pr, w.appends), ReadFile(pr, w.auditFile).value)
  {
    AlwaysBalanced(pr, r, n);
    FileSigns(pr, r.worlds[n]);
  }

  lemma FileSigns(pr: Suite, w: World)
    requires EntryLaws(pr) && Balanced(pr, w) && ReadFile(pr, w.auditFile).Some?
    ensures forall i :: 0 <= i < |w.grants| ==> w.grants[i].body.Some?
    ensures SignsPart(w, OnFile(pr, w.appends), ReadFile(pr, w.auditFile).value)
  {
    FileEntries(pr, w);
    SignsAt(pr, w, Authors(pr, w.appends), OnFile(pr, w.appends), ReadFile(pr, w.auditFile).value);
  }

  /** In every run the file can be read exactly if every append of which anything went out landed on a line of its
      own, whole and short enough; `Verify` then counts those appends and finds nothing wrong, and otherwise
      finds the log unreadable. */
  lemma FileReadable(pr: Suite, r: Trace, n: nat)
    requires EntryLaws(pr) && IsRun(pr, r) && n <= |r.evs|
    ensures var w := r.worlds[n]; var ops := w.appends;
            && (ReadFile(pr, w.auditFile).Some? <==>
                  forall i: nat :: i < |ops| && WentOut(pr, ops, i) ==> Landed(pr, ops, i))
            && (if ReadFile(pr, w.auditFile).Some?
                then Judged(pr, w.auditFile, |set i: nat | i < |ops| && WentOut(pr, ops, i)|, Intact)
                else Judged(pr, w.auditFile, 0, Unreadable))
  {
    var w := r.worlds[n];
    AlwaysRecorded(pr, r, n);
    ReadableExact(pr, w.appends);
    ShapeTells(pr, w.appends);
    ShapeReads(pr, w.auditFile, ShapeOf(pr, w.appends));
    ShapeJudged(pr, w.auditFile, ShapeOf(pr, w.appends));
    if ReadFile(pr, w.auditFile).Some? {
      EntriesCounted(pr, w.appends);
    }
  }

  // ----- the entries of the appends that reported success ------------------

  ghost function Succeeded(pr: Suite, ops: seq<Op>): nat -> bool {
    (i: nat) => i < |ops| && Outcome(pr, ops, i).Ok?
  }

  lemma SuccessEntries(pr: Suite, w: World)
    requires Balanced(pr, w)
    ensures var at := SuccessAt(pr, w.appends);
            EntriesOf(w.appends, at, w.logged) && forall i: nat :: i in at <==> Succeeded(pr, w.appends)(i)
  {
    SuccessesInOrder(pr, w.appends);
  }

  /** No attempt that passes was lost. */
  ghost predicate NoneLost(keep: Filter, w: World) {
    forall k :: 0 <= k < |w.attempts| && keep(w.attempts[k].draft.action) ==> w.attempts[k].entry.Some?
  }

  lemma LostExact(pr: Suite, w: World, keep: Filter)
    requires Recorded(pr, w)
    ensures NoneLost(keep, w) <==> forall i: nat :: Passes(keep, w.appends, i) ==> Succeeded(pr, w.appends)(i)
  {
    if NoneLost(keep, w) {
      forall i: nat | Passes(keep, w.appends, i) ensures Succeeded(pr, w.appends)(i) {
        AttemptSucceeded(pr, w, keep, i);
      }
    }
    if forall i: nat :: Passes(keep, w.appends, i) ==> Succeeded(pr, w.appends)(i) {
      forall k | 0 <= k < |w.attempts| && keep(w.attempts[k].draft.action) ensures w.attempts[k].entry.Some? {
        assert IsAppend(pr, w.appends, w.attempts[k]);
        assert Passes(keep, w.appends, w.attempts[k].at);
      }
    }
  }

  lemma AttemptSucceeded(pr: Suite, w: World, keep: Filter, i: nat)
    requires Recorded(pr, w) && NoneLost(keep, w) && Passes(keep, w.appends, i)
    ensures Succeeded(pr, w.appends)(i)
  {
    var k := AttemptOf(pr, w, i);
  }

  /** In every run the daemon's own appends that reported success are one to one for answered requests, each with the
      entry that answer calls for; for all answered requests exactly if none reported failure. */
  lemma EveryAnswerLogged(pr: Suite, r: Trace, n: nat) returns (ids: seq<nat>)
    requires IsRun(pr, r) && n <= |r.evs|
    ensures var w := r.worlds[n];
            && AnswersIn(w, Succeeded(pr, w.appends), w.logged, ids)
            && ((forall id: nat :: Answered(w, id) ==> id in ids) <==> NoneLost(Ours, w))
  {
    AlwaysBalanced(pr, r, n);
    ids := SuccessAnswers(pr, r.worlds[n]);
    AllLogged(pr, r.worlds[n], ids);
  }

  lemma SuccessAnswers(pr: Suite, w: World) returns (ids: seq<nat>)
    requires Balanced(pr, w)
    ensures AnswersIn(w, Succeeded(pr, w.appends), w.logged, ids)
  {
    var at, these, es := SuccessAt(pr, w.appends), Succeeded(pr, w.appends), w.logged;
    assert EntriesOf(w.appends, at, es) && forall i: nat :: i in at <==> these(i) by {
      SuccessEntries(pr, w);
    }
    ids := IdsAt(Ours, w.appends, at);
    AnswersAt(pr, w, at, these, es);
  }

  lemma AllLogged(pr: Suite, w: World, ids: seq<nat>)
    requires Balanced(pr, w)
    requires (forall id: nat :: Answered(w, id) ==> id in ids) <==>
             (forall i: nat :: Passes(Ours, w.appends, i) ==> Succeeded(pr, w.appends)(i))
    ensures (forall id: nat :: Answered(w, id) ==> id in ids) <==> NoneLost(Ours, w)
  {
    LostExact(pr, w, Ours);
  }

  /** No signature is without its entry for want of a step or of a successful append. */
  ghost predicate SignsLogged(w: World) {
    (forall id :: id in w.requests ==> !w.requests[id].stage.Signed?) && NoneLost(IsSign, w)
  }

  /** In every run the "sign" appends that reported success are part of the signatures issued; all of them exactly if
      none reported failure and no signature still waits, or will for ever after a restart, to be logged. */
  lemma SignEntriesAreSignatures(pr: Suite, r: Trace, n: nat)
    requires IsRun(pr, r) && n <= |r.evs|
    ensures forall i :: 0 <= i < |r.worlds[n].grants| ==> r.worlds[n].grants[i].body.Some?
    ensures var w := r.worlds[n];
            && SignsPart(w, Succeeded(pr, w.appends), w.logged)
            && (SignsIn(w, Succeeded(pr, w.appends)) <==> SignsLogged(w))
  {
    AlwaysBalanced(pr, r, n);
    SuccessSigns(pr, r.worlds[n]);
    SignsLoggedExact(pr, r.worlds[n]);
  }

  lemma SignsLoggedExact(pr: Suite, w: World)
    requires Recorded(pr, w)
    ensures SignsIn(w, Succeeded(pr, w.appends)) <==> SignsLogged(w)
  {
    LostExact(pr, w, IsSign);
  }

  lemma SuccessSigns(pr: Suite, w: World)
    requires Balanced(pr, w)
    ensures forall i :: 0 <= i < |w.grants| ==> w.grants[i].body.Some?
    ensures SignsPart(w, Succeeded(pr, w.appends), w.logged)
  {
    SuccessEntries(pr, w);
    SignsAt(pr, w, SuccessAt(pr, w.appends), Succeeded(pr, w.appends), w.logged);
  }

  /** In every run the file holds exactly the entries of the appends that reported success if and only if every append
      of which anything went out reported success and landed. */
  lemma LogReadsBack(pr: Suite, r: Trace, n: nat)
    requires EntryLaws(pr) && IsRun(pr, r) && n <= |r.evs|
    ensures var w := r.worlds[n]; var ops := w.appends;
            ReadFile(pr, w.auditFile) == Some(w.logged) <==>
            forall i: nat :: i < |ops| && WentOut(pr, ops, i) ==> Outcome(pr, ops, i).Ok? && Landed(pr, ops, i)
    ensures var w := r.worlds[n];
            w.clean ==> ReadFile(pr, w.auditFile) == Some(w.logged) && Judged(pr, w.auditFile, |w.logged|, Intact)
  {
    var w := r.worlds[n];
    AlwaysRecorded(pr, r, n);
    ReadableExact(pr, w.appends);
    ShapeTells(pr, w.appends);
    ShapeReads(pr, w.auditFile, ShapeOf(pr, w.appends));
    if ReadFile(pr, w.auditFile).Some? {
      SuccessesExact(pr, w.appends);
    }
    AlwaysFileKept(pr, r, n);
    SerializeReads(pr, w.logged);
  }
}
