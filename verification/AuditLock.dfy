/** Many processes appending to one log, step by step under the file lock.

    Each process makes one `Append` call: wait for the lock, scan the tail, seal the entry,
    write the line in any number of pieces, unlock.  Any process may crash at any point,
    which drops its lock.  `base` is the file as the last finished or broken-off append left it,
    and `ops` lists those appends; both only record what happens.
 */
module AuditLock {
  import opened Common
  import opened Primitives
  import opened Audit
  import opened AuditChain
  import opened AuditFaults

  datatype Phase =
    | Waiting(draft: Draft)
    | Holding(draft: Draft)
    | Scanned(draft: Draft, tail: Tail)
    | Writing(entry: Entry, written: nat)
    | Finished(entry: Entry)
    | Failed
    | Crashed

  datatype State = State(
    file: string,
    holder: Option<nat>,
    phases: map<nat, Phase>,
    calls: map<nat, Draft>,  // what each process was asked to append
    base: string,
    ops: seq<Op>
  )

  datatype Event =
    | Call(p: nat, draft: Draft)
    | Lock(p: nat)
    | Scan(p: nat)
    | Begin(p: nat)
    | Write(p: nat, n: nat)
    | Unlock(p: nat)
    | Crash(p: nat)

  const START := State("", None, map[], map[], "", [])

  /** The process is inside the critical section. */
  predicate Inside(phase: Phase) { phase.Holding? || phase.Scanned? || phase.Writing? }

  function Enter(s: State, p: nat, phase: Phase): State { s.(phases := s.phases[p := phase]) }

  function Leave(s: State, p: nat, phase: Phase): State { s.(phases := s.phases[p := phase], holder := None) }

  /** The append of `p` is over, one way or another. */
  function Record(s: State, p: nat, draft: Draft, io: IO): State { s.(base := s.file, ops := s.ops + [Op(p, draft, io)]) }

  /** One piece of the line. */
  function WriteStep(pr: Suite, s: State, p: nat, e: Entry, written: nat, n: nat): State
    requires written <= |Line(pr, e)|
  {
    var line := Line(pr, e);
    var upto := if written + n <= |line| then written + n else |line|;
    var s' := Enter(s, p, Writing(e, upto)).(file := s.file + line[written..upto]);
    if written < upto == |line| then Record(s', p, e.draft, Works) else s'
  }

  function CrashStep(pr: Suite, s: State, p: nat): State
    requires p in s.phases
  {
    match s.phases[p]
    case Writing(e, written) =>
      if written < |Line(pr, e)| then Record(Leave(s, p, Crashed), p, e.draft, Stops(written)) else Leave(s, p, Crashed)
    case Holding(_) => Leave(s, p, Crashed)
    case Scanned(_, _) => Leave(s, p, Crashed)
    case Waiting(_) => Enter(s, p, Crashed)
    case _ => s
  }

  /** One event; an event that is not possible changes nothing. */
  function Step(pr: Suite, s: State, ev: Event): State {
    if ev.Call? then
      if ev.p in s.phases then s else Enter(s, ev.p, Waiting(ev.draft)).(calls := s.calls[ev.p := ev.draft])
    else if ev.p !in s.phases then s
    else match (ev, s.phases[ev.p])
      case (Lock(p), Waiting(d)) =>
        if s.holder.None? then Enter(s, p, Holding(d)).(holder := Some(p)) else s
      case (Scan(p), Holding(d)) =>
        (match TailOfFile(pr, s.file)
         case None => Record(Leave(s, p, Failed), p, d, Works)
         case Some(tail) => Enter(s, p, Scanned(d, tail)))
      case (Begin(p), Scanned(d, tail)) => Enter(s, p, Writing(Seal(pr, tail, d), 0))
      case (Write(p, n), Writing(e, written)) =>
        if written <= |Line(pr, e)| then WriteStep(pr, s, p, e, written, n) else s
      case (Unlock(p), Writing(e, written)) =>
        if written == |Line(pr, e)| then Leave(s, p, Finished(e)) else s
      case (Crash(p), _) => CrashStep(pr, s, p)
      case _ => s
  }

  /** The state after a run of events from an empty log. */
  function Run(pr: Suite, evs: seq<Event>): State {
    if evs == [] then START else Step(pr, Run(pr, evs[..|evs| - 1]), evs[|evs| - 1])
  }

  // ----- the invariant -----------------------------------------------------

  /** Exactly the lock holder is inside the critical section. */
  ghost predicate Exclusive(s: State) {
    forall p :: (p in s.phases && Inside(s.phases[p])) <==> s.holder == Some(p)
  }

  /** The entry is the one that continues the file as it was when the lock was taken. */
  ghost predicate Continues(pr: Suite, base: string, e: Entry) {
    TailOfFile(pr, base).Some? && e == Seal(pr, TailOfFile(pr, base).value, e.draft)
  }

  /** What the process inside knows of the file, and what it has added to it. */
  ghost predicate Knows(pr: Suite, s: State, phase: Phase) {
    match phase
    case Scanned(_, tail) => s.file == s.base && TailOfFile(pr, s.base) == Some(tail)
    case Writing(e, written) =>
      && written <= |Line(pr, e)|
      && (if written < |Line(pr, e)| then Continues(pr, s.base, e) && s.file == s.base + Line(pr, e)[..written]
          else s.file == s.base)
    case _ => s.file == s.base
  }

  ghost predicate InFlight(pr: Suite, s: State) {
    if s.holder.Some? && s.holder.value in s.phases then Knows(pr, s, s.phases[s.holder.value]) else s.file == s.base
  }

  /** The draft `p` carries is the one it was called with. */
  ghost predicate Carries(s: State, p: nat)
    requires p in s.phases
  {
    p in s.calls &&
    match s.phases[p]
    case Waiting(d) => d == s.calls[p]
    case Holding(d) => d == s.calls[p]
    case Scanned(d, _) => d == s.calls[p]
    case Writing(e, _) => e.draft == s.calls[p]
    case Finished(e) => e.draft == s.calls[p]
    case _ => true
  }

  /** `p` has written all of `e`. */
  ghost predicate Wrote(pr: Suite, s: State, p: nat, e: Entry) {
    p in s.phases &&
    (s.phases[p] == Finished(e) || s.phases[p] == Writing(e, |Line(pr, e)|))
  }

  /** `p`'s append is over. */
  ghost predicate Over(pr: Suite, s: State, p: nat) {
    p in s.phases &&
    match s.phases[p]
    case Finished(_) => true
    case Failed => true
    case Crashed => true
    case Writing(e, written) => written == |Line(pr, e)|
    case _ => false
  }

  /** The i-th append recorded is `p`'s own, and it returned `r`. */
  ghost predicate Returned(pr: Suite, s: State, p: nat, i: nat, r: Result<Entry, AppendError>) {
    p in s.calls && i < |s.ops| && s.ops[i] == Op(p, s.calls[p], Works) && Outcome(pr, s.ops, i) == r
  }

  /** `p` was given the answer of an append on record. */
  ghost predicate Answered(pr: Suite, s: State, p: nat, r: Result<Entry, AppendError>) {
    exists i: nat :: Returned(pr, s, p, i, r)
  }

  /** Every answer given is that of the append on record. */
  ghost predicate AllAnswered(pr: Suite, s: State) {
    && (forall p, e :: Wrote(pr, s, p, e) ==> Answered(pr, s, p, Ok(e)))
    && (forall p :: p in s.phases && s.phases[p].Failed? ==> Answered(pr, s, p, Err(BadLog)))
  }

  /** Every append on record is over, and each process has at most one. */
  ghost predicate AllOver(pr: Suite, s: State) {
    && (forall i :: 0 <= i < |s.ops| ==> Over(pr, s, s.ops[i].who))
    && (forall i, j :: 0 <= i < j < |s.ops| ==> s.ops[i].who != s.ops[j].who)
  }

  ghost predicate Inv(pr: Suite, s: State) {
    && Exclusive(s)
    && s.calls.Keys == s.phases.Keys
    && (forall p :: p in s.phases ==> Carries(s, p))
    && s.base == Sequential(pr, s.ops)
    && InFlight(pr, s)
    && AllAnswered(pr, s)
    && AllOver(pr, s)
  }

  // ----- every step keeps it -----------------------------------------------

  /** A change in the phase of one process, to one that its lock allows. */
  ghost predicate Moves(s: State, s': State, p: nat) {
    && p in s'.phases && s'.phases == s.phases[p := s'.phases[p]]
    && p in s'.calls && s'.calls == s.calls[p := s'.calls[p]] && Carries(s', p)
    && (Inside(s'.phases[p]) <==> s'.holder == Some(p))
    && (s'.holder == s.holder || (s'.holder == Some(p) && s.holder == None) || (s'.holder == None && s.holder == Some(p)))
  }

  lemma MoveKeepsLock(pr: Suite, s: State, s': State, p: nat)
    requires Exclusive(s) && (forall q :: q in s.phases ==> Carries(s, q)) && Moves(s, s', p)
    ensures Exclusive(s') && (forall q :: q in s'.phases ==> Carries(s', q))
  {
    forall q ensures (q in s'.phases && Inside(s'.phases[q])) <==> s'.holder == Some(q) {
      assert (q in s.phases && Inside(s.phases[q])) <==> s.holder == Some(q);
    }
    forall q | q in s'.phases ensures Carries(s', q) {
      assert q != p ==> Carries(s, q);
    }
  }

  /** A change of phase that ends no append. */
  lemma QuietKeeps(pr: Suite, s: State, s': State, p: nat)
    requires Inv(pr, s) && Moves(s, s', p)
    requires s'.base == s.base && s'.ops == s.ops && InFlight(pr, s')
    requires forall e :: Wrote(pr, s', p, e) ==> Wrote(pr, s, p, e)
    requires s'.phases[p].Failed? ==> p in s.phases && s.phases[p].Failed?
    requires Over(pr, s, p) ==> Over(pr, s', p)
    requires p in s.phases ==> s'.calls[p] == s.calls[p]
    ensures Inv(pr, s')
  {
    MoveKeepsLock(pr, s, s', p);
    forall q, e | Wrote(pr, s', q, e) ensures Answered(pr, s', q, Ok(e)) {
      assert Wrote(pr, s, q, e);
      AnsweredStill(pr, s, s', q, Ok(e));
    }
    forall q | q in s'.phases && s'.phases[q].Failed? ensures Answered(pr, s', q, Err(BadLog)) {
      AnsweredStill(pr, s, s', q, Err(BadLog));
    }
    forall i | 0 <= i < |s'.ops| ensures Over(pr, s', s'.ops[i].who) {
      assert Over(pr, s, s.ops[i].who);
    }
  }

  lemma AnsweredStill(pr: Suite, s: State, s': State, p: nat, r: Result<Entry, AppendError>)
    requires Answered(pr, s, p, r) && s.ops <= s'.ops && p in s'.calls && (p in s.calls ==> s'.calls[p] == s.calls[p])
    ensures Answered(pr, s', p, r)
  {
    var i: nat :| Returned(pr, s, p, i, r);
    assert s'.ops[..i] == s.ops[..i];
    assert Returned(pr, s', p, i, r);
  }

  /** A change of phase that ends the append of `p`, as an atomic append with that outcome would. */
  lemma EndKeeps(pr: Suite, s: State, s': State, p: nat, io: IO)
    requires Inv(pr, s) && Moves(s, s', p) && !Over(pr, s, p) && Over(pr, s', p)
    requires p in s.calls && s'.calls == s.calls && InFlight(pr, s')
    requires s'.ops == s.ops + [Op(p, s.calls[p], io)]
    requires s'.base == AppendFile(pr, s.base, s.calls[p], io).0
    requires forall e :: Wrote(pr, s', p, e) ==> io == Works && AppendFile(pr, s.base, s.calls[p], Works).1 == Ok(e)
    requires s'.phases[p].Failed? ==> io == Works && AppendFile(pr, s.base, s.calls[p], Works).1 == Err(BadLog)
    ensures Inv(pr, s')
  {
    var n := |s.ops|;
    MoveKeepsLock(pr, s, s', p);
    assert s'.ops[..n] == s.ops;
    forall q, e | Wrote(pr, s', q, e) ensures Answered(pr, s', q, Ok(e)) {
      if q == p {
        assert Returned(pr, s', p, n, Ok(e));
      } else {
        assert Wrote(pr, s, q, e);
        AnsweredStill(pr, s, s', q, Ok(e));
      }
    }
    forall q | q in s'.phases && s'.phases[q].Failed? ensures Answered(pr, s', q, Err(BadLog)) {
      if q == p {
        assert Returned(pr, s', p, n, Err(BadLog));
      } else {
        AnsweredStill(pr, s, s', q, Err(BadLog));
      }
    }
    EndOver(pr, s, s', p, io);
  }

  lemma EndOver(pr: Suite, s: State, s': State, p: nat, io: IO)
    requires AllOver(pr, s) && Moves(s, s', p) && !Over(pr, s, p) && Over(pr, s', p)
    requires p in s.calls && s'.ops == s.ops + [Op(p, s.calls[p], io)]
    ensures AllOver(pr, s')
  {
    forall i | 0 <= i < |s'.ops| ensures Over(pr, s', s'.ops[i].who) {
      assert i < |s.ops| ==> Over(pr, s, s.ops[i].who);
    }
    forall i, j | 0 <= i < j < |s'.ops| ensures s'.ops[i].who != s'.ops[j].who {
      assert Over(pr, s, s.ops[i].who);
    }
  }

  /** A piece of the line, short of its end. */
  lemma PieceKeeps(pr: Suite, s: State, s': State, p: nat, e: Entry, written: nat, upto: nat)
    requires Inv(pr, s) && p in s.phases && s.phases[p] == Writing(e, written) && written <= upto < |Line(pr, e)|
    requires s' == Enter(s, p, Writing(e, upto)).(file := s.file + Line(pr, e)[written..upto])
    ensures Inv(pr, s')
  {
    var line := Line(pr, e);
    assert Inside(s.phases[p]) && s.holder == Some(p) && Carries(s, p);
    assert line[..upto] == line[..written] + line[written..upto];
    assert s'.file == s.base + line[..upto];
    QuietKeeps(pr, s, s', p);
  }

  /** The last piece. */
  lemma LineKeeps(pr: Suite, s: State, s': State, p: nat, e: Entry, written: nat)
    requires Inv(pr, s) && p in s.phases && s.phases[p] == Writing(e, written) && written < |Line(pr, e)|
    requires s' == Record(Enter(s, p, Writing(e, |Line(pr, e)|)).(file := s.file + Line(pr, e)[written..]), p, e.draft, Works)
    ensures Inv(pr, s')
  {
    var line := Line(pr, e);
    assert Inside(s.phases[p]) && s.holder == Some(p) && Carries(s, p);
    assert line == line[..written] + line[written..];
    assert s'.file == s.base + line;
    EndKeeps(pr, s, s', p, Works);
  }

  lemma WriteKeeps(pr: Suite, s: State, p: nat, n: nat)
    requires Inv(pr, s) && p in s.phases && s.phases[p].Writing?
    requires s.phases[p].written <= |Line(pr, s.phases[p].entry)|
    ensures Inv(pr, WriteStep(pr, s, p, s.phases[p].entry, s.phases[p].written, n))
  {
    var Writing(e, written) := s.phases[p];
    var s' := WriteStep(pr, s, p, e, written, n);
    var line := Line(pr, e);
    var upto := if written + n <= |line| then written + n else |line|;
    if upto < |line| {
      PieceKeeps(pr, s, s', p, e, written, upto);
    } else if written < |line| {
      assert line[written..upto] == line[written..];
      LineKeeps(pr, s, s', p, e, written);
    } else {
      assert line[written..upto] == "" && s.file + "" == s.file;
      assert s' == s;
    }
  }

  lemma ScanKeeps(pr: Suite, s: State, p: nat)
    requires Inv(pr, s) && p in s.phases && s.phases[p].Holding?
    ensures Inv(pr, Step(pr, s, Scan(p)))
  {
    var s' := Step(pr, s, Scan(p));
    assert Inside(s.phases[p]) && s.holder == Some(p) && Carries(s, p);
    if TailOfFile(pr, s.file).None? {
      EndKeeps(pr, s, s', p, Works);
    } else {
      QuietKeeps(pr, s, s', p);
    }
  }

  lemma BeginKeeps(pr: Suite, s: State, p: nat)
    requires Inv(pr, s) && p in s.phases && s.phases[p].Scanned?
    ensures Inv(pr, Step(pr, s, Begin(p)))
  {
    assert Inside(s.phases[p]) && s.holder == Some(p) && Carries(s, p);
    assert s.file + "" == s.file;
    QuietKeeps(pr, s, Step(pr, s, Begin(p)), p);
  }

  lemma UnlockKeeps(pr: Suite, s: State, p: nat)
    requires Inv(pr, s) && p in s.phases && s.phases[p].Writing?
    requires s.phases[p].written == |Line(pr, s.phases[p].entry)|
    ensures Inv(pr, Step(pr, s, Unlock(p)))
  {
    assert Inside(s.phases[p]) && s.holder == Some(p) && Carries(s, p);
    QuietKeeps(pr, s, Step(pr, s, Unlock(p)), p);
  }

  lemma CrashKeeps(pr: Suite, s: State, p: nat)
    requires Inv(pr, s) && p in s.phases
    ensures Inv(pr, CrashStep(pr, s, p))
  {
    var s' := CrashStep(pr, s, p);
    assert (Inside(s.phases[p]) <==> s.holder == Some(p)) && Carries(s, p);
    if s.phases[p].Writing? && s.phases[p].written < |Line(pr, s.phases[p].entry)| {
      EndKeeps(pr, s, s', p, Stops(s.phases[p].written));
    } else if !s.phases[p].Finished? && !s.phases[p].Failed? && !s.phases[p].Crashed? {
      QuietKeeps(pr, s, s', p);
    }
  }

  /** Every step keeps the invariant. */
  lemma StepKeeps(pr: Suite, s: State, ev: Event)
    requires Inv(pr, s)
    ensures Inv(pr, Step(pr, s, ev))
  {
    var s' := Step(pr, s, ev);
    if ev.Call? {
      if ev.p !in s.phases {
        assert s.holder != Some(ev.p);
        QuietKeeps(pr, s, s', ev.p);
      }
    } else if ev.p in s.phases {
      match (ev, s.phases[ev.p]) {
        case (Lock(p), Waiting(d)) =>
          if s.holder.None? {
            assert Carries(s, p);
            QuietKeeps(pr, s, s', p);
          }
        case (Scan(p), Holding(d)) => ScanKeeps(pr, s, p);
        case (Begin(p), Scanned(d, tail)) => BeginKeeps(pr, s, p);
        case (Write(p, n), Writing(e, written)) =>
          if written <= |Line(pr, e)| {
            WriteKeeps(pr, s, p, n);
          }
        case (Unlock(p), Writing(e, written)) =>
          if written == |Line(pr, e)| {
            UnlockKeeps(pr, s, p);
          }
        case (Crash(p), _) => CrashKeeps(pr, s, p);
        case _ =>
      }
    }
  }

  /** Every reachable state satisfies the invariant. */
  lemma {:induction false} Reachable(pr: Suite, evs: seq<Event>)
    ensures Inv(pr, Run(pr, evs))
  {
    if evs != [] {
      Reachable(pr, evs[..|evs| - 1]);
      StepKeeps(pr, Run(pr, evs[..|evs| - 1]), evs[|evs| - 1]);
    }
  }

  // ----- refinement --------------------------------------------------------

  /** `p`'s append takes place in one go: on the file as all appends before it left it, with its own
      draft, and with the answer it is given. */
  ghost predicate Commits(pr: Suite, s: State, s': State, p: nat, op: Op) {
    && op.who == p && p in s.calls && op.draft == s.calls[p]
    && s'.ops == s.ops + [op]
    && (s'.base, Outcome(pr, s'.ops, |s.ops|)) == AppendFile(pr, s.base, op.draft, op.io)
    && p in s'.phases
    && (op.io.Works? ==>
          match Outcome(pr, s'.ops, |s.ops|)
          case Ok(e) => Wrote(pr, s', p, e)
          case Err(_) => s'.phases[p].Failed?)
    && (!op.io.Works? ==> s'.phases[p].Crashed?)
  }

  lemma RunSnoc(pr: Suite, evs: seq<Event>, ev: Event)
    ensures Run(pr, evs + [ev]) == Step(pr, Run(pr, evs), ev)
  {
    assert (evs + [ev])[..|evs|] == evs;
  }

  /** A step that puts an append on record performs it. */
  lemma StepCommits(pr: Suite, s: State, ev: Event)
    requires Inv(pr, s) && Step(pr, s, ev).ops != s.ops
    ensures var s' := Step(pr, s, ev);
            |s'.ops| == |s.ops| + 1 && Commits(pr, s, s', ev.p, s'.ops[|s.ops|])
  {
    var s' := Step(pr, s, ev);
    StepKeeps(pr, s, ev);
    assert Inside(s.phases[ev.p]) && s.holder == Some(ev.p) && Carries(s, ev.p);
    assert s'.ops[..|s.ops|] == s.ops;
  }

  /** The lock protocol refines atomic append, crashes included: a step leaves the committed file alone,
      or performs one whole append of the process that takes it, completed, failed on an unreadable
      log, or cut short where the process crashed. */
  lemma StepRefinesAppend(pr: Suite, evs: seq<Event>, ev: Event)
    ensures var s, s' := Run(pr, evs), Run(pr, evs + [ev]);
            || (s'.base == s.base && s'.ops == s.ops)
            || (exists op :: Commits(pr, s, s', ev.p, op))
  {
    Reachable(pr, evs);
    Reachable(pr, evs + [ev]);
    RunSnoc(pr, evs, ev);
    if Step(pr, Run(pr, evs), ev).ops != Run(pr, evs).ops {
      StepCommits(pr, Run(pr, evs), ev);
    }
  }

  /** The appends as a reader of the file sees them now: those that are over, and the one being
      written, which might as well have been cut short here. */
  function Seen(pr: Suite, s: State): seq<Op> {
    if s.holder.Some? && s.holder.value in s.phases && s.phases[s.holder.value].Writing?
       && s.phases[s.holder.value].written < |Line(pr, s.phases[s.holder.value].entry)|
    then s.ops + [Op(s.holder.value, s.phases[s.holder.value].entry.draft, Stops(s.phases[s.holder.value].written))]
    else s.ops
  }

  /** At every moment the file is what atomic appends, one after another, would have left. */
  lemma FileIsSequential(pr: Suite, evs: seq<Event>)
    ensures var s := Run(pr, evs); s.file == Sequential(pr, Seen(pr, s)) && s.base == Sequential(pr, s.ops)
  {
    Reachable(pr, evs);
    var s := Run(pr, evs);
    assert Seen(pr, s) != s.ops ==> Seen(pr, s)[..|s.ops|] == s.ops;
  }

  /** While a process holds a scanned tail, it is still the tail of the file. */
  lemma ScannedTailIsCurrent(pr: Suite, evs: seq<Event>, p: nat)
    requires var s := Run(pr, evs); p in s.phases && s.phases[p].Scanned?
    ensures var s := Run(pr, evs); TailOfFile(pr, s.file) == Some(s.phases[p].tail)
  {
    Reachable(pr, evs);
    assert Inside(Run(pr, evs).phases[p]);
  }

  // ----- progress ----------------------------------------------------------

  /** `p` is in this phase, and the file holds this. */
  ghost predicate StandsAt(s: State, p: nat, phase: Phase, file: string) {
    p in s.phases && s.phases[p] == phase && s.file == file
  }

  lemma LockGoes(pr: Suite, s: State, p: nat, draft: Draft, file: string)
    requires StandsAt(s, p, Waiting(draft), file) && s.holder.None?
    ensures StandsAt(Step(pr, s, Lock(p)), p, Holding(draft), file)
  {
  }

  lemma ScanGoes(pr: Suite, s: State, p: nat, draft: Draft, file: string)
    requires StandsAt(s, p, Holding(draft), file) && TailOfFile(pr, file).Some?
    ensures StandsAt(Step(pr, s, Scan(p)), p, Scanned(draft, TailOfFile(pr, file).value), file)
  {
  }

  lemma BeginGoes(pr: Suite, s: State, p: nat, draft: Draft, tail: Tail, file: string)
    requires StandsAt(s, p, Scanned(draft, tail), file)
    ensures StandsAt(Step(pr, s, Begin(p)), p, Writing(Seal(pr, tail, draft), 0), file)
  {
  }

  lemma WriteGoes(pr: Suite, s: State, p: nat, e: Entry, file: string)
    requires StandsAt(s, p, Writing(e, 0), file)
    ensures StandsAt(Step(pr, s, Write(p, |Line(pr, e)|)), p, Writing(e, |Line(pr, e)|), file + Line(pr, e))
  {
    assert Line(pr, e)[0..|Line(pr, e)|] == Line(pr, e);
  }

  lemma UnlockGoes(pr: Suite, s: State, p: nat, e: Entry, file: string)
    requires StandsAt(s, p, Writing(e, |Line(pr, e)|), file)
    ensures StandsAt(Step(pr, s, Unlock(p)), p, Finished(e), file) && Step(pr, s, Unlock(p)).holder.None?
  {
  }

  /** A run gone on by one whole call of `p`, from the lock on, its line written in one piece. */
  function WithCall(evs: seq<Event>, p: nat, length: nat): seq<Event> {
    evs + [Lock(p)] + [Scan(p)] + [Begin(p)] + [Write(p, length)] + [Unlock(p)]
  }

  /** The run so far, with `p` holding the lock and knowing the tail. */
  lemma CallEnters(pr: Suite, evs: seq<Event>, p: nat, draft: Draft, file: string)
    requires StandsAt(Run(pr, evs), p, Waiting(draft), file) && Run(pr, evs).holder.None? && TailOfFile(pr, file).Some?
    ensures StandsAt(Run(pr, evs + [Lock(p)] + [Scan(p)]), p, Scanned(draft, TailOfFile(pr, file).value), file)
  {
    LockGoes(pr, Run(pr, evs), p, draft, file);
    RunSnoc(pr, evs, Lock(p));
    ScanGoes(pr, Run(pr, evs + [Lock(p)]), p, draft, file);
    RunSnoc(pr, evs + [Lock(p)], Scan(p));
  }

  lemma CallLeaves(pr: Suite, evs: seq<Event>, p: nat, draft: Draft, tail: Tail, file: string)
    requires StandsAt(Run(pr, evs), p, Scanned(draft, tail), file)
    ensures var e := Seal(pr, tail, draft); var t := Run(pr, evs + [Begin(p)] + [Write(p, |Line(pr, e)|)] + [Unlock(p)]);
            StandsAt(t, p, Finished(e), file + Line(pr, e)) && t.holder.None?
  {
    var e := Seal(pr, tail, draft);
    var begun, written := evs + [Begin(p)], evs + [Begin(p)] + [Write(p, |Line(pr, e)|)];
    BeginGoes(pr, Run(pr, evs), p, draft, tail, file);
    RunSnoc(pr, evs, Begin(p));
    WriteGoes(pr, Run(pr, begun), p, e, file);
    RunSnoc(pr, begun, Write(p, |Line(pr, e)|));
    UnlockGoes(pr, Run(pr, written), p, e, file + Line(pr, e));
    RunSnoc(pr, written, Unlock(p));
  }

  /** Appending is always possible: from every reachable state with the lock free and a log whose tail can be scanned, a
      waiting process can go through with its call; it finishes with the entry that continues the log, and
      the file has grown by exactly that line. */
  lemma CallCompletes(pr: Suite, evs: seq<Event>, p: nat)
    requires var s := Run(pr, evs);
             p in s.phases && s.phases[p].Waiting? && s.holder.None? && TailOfFile(pr, s.file).Some?
    ensures var s := Run(pr, evs); var e := Seal(pr, TailOfFile(pr, s.file).value, s.phases[p].draft);
            var t := Run(pr, WithCall(evs, p, |Line(pr, e)|));
            && StandsAt(t, p, Finished(e), s.file + Line(pr, e)) && t.holder.None?
            && p in s.calls && e.draft == s.calls[p]
  {
    Reachable(pr, evs);
    var s := Run(pr, evs);
    assert Carries(s, p);
    CallEnters(pr, evs, p, s.phases[p].draft, s.file);
    CallLeaves(pr, evs + [Lock(p)] + [Scan(p)], p, s.phases[p].draft, TailOfFile(pr, s.file).value, s.file);
  }

  // ----- what the log holds ------------------------------------------------

  /** The entries on whole lines. */
  function Log(pr: Suite, s: State): seq<Entry> { Solid(ShapeOf(pr, s.ops)) }

  /** Nothing on disk or in the log was altered, only added to. */
  ghost predicate Grown(pr: Suite, s: State, t: State) { s.ops <= t.ops && s.file <= t.file }

  lemma StepGrows(pr: Suite, before: State, s: State, ev: Event)
    requires Grown(pr, before, s)
    ensures Grown(pr, before, Step(pr, s, ev))
  {
  }

  lemma {:induction false} OnlyGrows(pr: Suite, evs: seq<Event>, more: seq<Event>)
    ensures Grown(pr, Run(pr, evs), Run(pr, evs + more))
  {
    if more == [] {
      assert evs + more == evs;
    } else {
      var init, last := more[..|more| - 1], more[|more| - 1];
      OnlyGrows(pr, evs, init);
      assert evs + more == evs + init + [last];
      RunSnoc(pr, evs + init, last);
      StepGrows(pr, Run(pr, evs), Run(pr, evs + init), last);
    }
  }

  lemma BaseInFile(pr: Suite, s: State)
    requires Inv(pr, s)
    ensures s.base <= s.file
  {
  }

  /** In every interleaving, whatever crashes, the whole lines form one linear chain that no later event
      disturbs: the chain that sequential appends of its drafts produce. */
  lemma OneLinearChain(pr: Suite, evs: seq<Event>, more: seq<Event>)
    requires EntryLaws(pr)
    ensures var s, t := Run(pr, evs), Run(pr, evs + more);
            && Chain(pr, Log(pr, s))
            && Log(pr, s) == Extend(pr, [], Drafts(Log(pr, s)))
            && Serialize(pr, Log(pr, s)) <= s.file
            && Log(pr, s) <= Log(pr, t)
            && Grown(pr, s, t)
  {
    var s, t := Run(pr, evs), Run(pr, evs + more);
    Reachable(pr, evs);
    BaseInFile(pr, s);
    ShapeTells(pr, s.ops);
    SolidChains(pr, ShapeOf(pr, s.ops));
    OnlyGrows(pr, evs, more);
    assert t.ops[..|s.ops|] == s.ops;
    SolidStays(pr, t.ops, |s.ops|);
  }

  lemma SolidChains(pr: Suite, shape: Shape)
    requires Chain(pr, shape.es)
    ensures Chain(pr, Solid(shape)) && Solid(shape) == Extend(pr, [], Drafts(Solid(shape)))
  {
    if shape.es != [] {
      ChainPrefix(pr, shape.es);
    }
    ChainFromDrafts(pr, Solid(shape));
  }

  /** No two appends get the same sequence number, and the entry of each stays on the line its number
      names, unless it was run into a line without newline, which spoils the log. */
  lemma PositionsDistinct(pr: Suite, evs: seq<Event>, p: nat, q: nat)
    requires EntryLaws(pr)
    requires var s := Run(pr, evs);
             p in s.phases && q in s.phases && s.phases[p].Finished? && s.phases[q].Finished? && p != q
    ensures var s := Run(pr, evs); s.phases[p].entry.seqNo != s.phases[q].entry.seqNo
    ensures var s := Run(pr, evs); PlacedIn(ShapeOf(pr, s.ops), s.phases[p].entry)
  {
    Reachable(pr, evs);
    PlacesDistinct(pr, Run(pr, evs), p, q);
  }

  lemma PlacesDistinct(pr: Suite, s: State, p: nat, q: nat)
    requires EntryLaws(pr) && AllAnswered(pr, s) && p != q
    requires p in s.phases && q in s.phases && s.phases[p].Finished? && s.phases[q].Finished?
    ensures s.phases[p].entry.seqNo != s.phases[q].entry.seqNo
    ensures PlacedIn(ShapeOf(pr, s.ops), s.phases[p].entry)
  {
    assert Wrote(pr, s, p, s.phases[p].entry) && Wrote(pr, s, q, s.phases[q].entry);
    var i: nat :| Returned(pr, s, p, i, Ok(s.phases[p].entry));
    var j: nat :| Returned(pr, s, q, j, Ok(s.phases[q].entry));
    OkPlaced(pr, s.ops, i);
    OkDistinct(pr, s.ops, i, j);
  }

  /** `Verify` takes no lock. Run at any moment it says what the appends so far, the one in flight cut off
      here, have left: every entry counts, and no link is ever found broken; or the log is not readable.
      On a log of whole lines that means: the entries are counted, with one more when its newline alone
      is missing, unless some but not all of an entry's text is out. */
  lemma VerifyAtAnyMoment(pr: Suite, evs: seq<Event>)
    requires EntryLaws(pr)
    ensures var s := Run(pr, evs); var shape := ShapeOf(pr, Seen(pr, s));
            if Readable(pr, shape) then Judged(pr, s.file, |shape.es|, Intact) else Judged(pr, s.file, 0, Unreadable)
    ensures var s := Run(pr, evs); var now, before := ShapeOf(pr, Seen(pr, s)), ShapeOf(pr, s.ops);
            && (Seen(pr, s) == s.ops ==> now == before)
            && (Seen(pr, s) != s.ops ==>
                  var e := s.phases[s.holder.value].entry; var n := |s.file| - |s.base|;
                  && Readable(pr, before)
                  && now == if n == 0 then before
                            else if before.Bare? || n < |pr.entryJSON(e)| then Spoiled(Solid(before))
                            else Bare(before.es + [e]))
  {
    FileIsSequential(pr, evs);
    Reachable(pr, evs);
    var s := Run(pr, evs);
    ShapeTells(pr, Seen(pr, s));
    ShapeJudged(pr, s.file, ShapeOf(pr, Seen(pr, s)));
    if Seen(pr, s) != s.ops {
      InFlightShape(pr, s);
    }
  }

  /** So, run at any moment on a log that can be read, `Verify` counts the appends of which anything is out, crashed
      ones and the one in flight included; and when nothing is in flight and nothing was cut short, exactly
      the completed appends. */
  lemma VerifyCounts(pr: Suite, evs: seq<Event>)
    requires EntryLaws(pr) && ReadFile(pr, Run(pr, evs).file).Some?
    ensures var s := Run(pr, evs); var ops := Seen(pr, s);
            Judged(pr, s.file, |set i: nat | i < |ops| && WentOut(pr, ops, i)|, Intact)
    ensures var s := Run(pr, evs);
            s.file == s.base && (forall i :: 0 <= i < |s.ops| ==> s.ops[i].io.Works?) ==>
              Judged(pr, s.file, |s.ops|, Intact)
  {
    FileIsSequential(pr, evs);
    var s := Run(pr, evs);
    CountsOf(pr, s.file, Seen(pr, s));
    if s.file == s.base && forall i :: 0 <= i < |s.ops| ==> s.ops[i].io.Works? {
      CountsAll(pr, s.file, s.ops);
    }
  }

  lemma CountsOf(pr: Suite, file: string, ops: seq<Op>)
    requires EntryLaws(pr) && file == Sequential(pr, ops) && ReadFile(pr, file).Some?
    ensures Judged(pr, file, |set i: nat | i < |ops| && WentOut(pr, ops, i)|, Intact)
  {
    ShapeTells(pr, ops);
    ShapeReads(pr, file, ShapeOf(pr, ops));
    ShapeJudged(pr, file, ShapeOf(pr, ops));
    EntriesCounted(pr, ops);
  }

  lemma CountsAll(pr: Suite, file: string, ops: seq<Op>)
    requires EntryLaws(pr) && file == Sequential(pr, ops) && ReadFile(pr, file).Some?
    requires forall i :: 0 <= i < |ops| ==> ops[i].io.Works?
    ensures Judged(pr, file, |ops|, Intact)
  {
    ShapeTells(pr, ops);
    ShapeReads(pr, file, ShapeOf(pr, ops));
    ShapeJudged(pr, file, ShapeOf(pr, ops));
    AllCounted(pr, ops);
  }

  lemma InFlightShape(pr: Suite, s: State)
    requires EntryLaws(pr) && Inv(pr, s) && Seen(pr, s) != s.ops
    ensures var now, before := ShapeOf(pr, Seen(pr, s)), ShapeOf(pr, s.ops);
            var e := s.phases[s.holder.value].entry; var n := |s.file| - |s.base|;
            && Readable(pr, before)
            && now == if n == 0 then before
                      else if before.Bare? || n < |pr.entryJSON(e)| then Spoiled(Solid(before))
                      else Bare(before.es + [e])
  {
    assert Seen(pr, s)[..|s.ops|] == s.ops;
    ShapeTells(pr, s.ops);
    ShapeReads(pr, s.base, ShapeOf(pr, s.ops));
    assert Encodes(pr, s.phases[s.holder.value].entry);
  }

  /** The file at several moments. */
  function Files(pr: Suite, evs: seq<Event>, moments: seq<nat>): seq<string>
    requires forall i :: 0 <= i < |moments| ==> moments[i] <= |evs|
  {
    seq(|moments|, i requires 0 <= i < |moments| => Run(pr, evs[..moments[i]]).file)
  }

  /** Each reading goes on where the last one stopped, within the file as it is then. */
  predicate ReadingOn(files: seq<string>, upto: seq<nat>) {
    && |files| == |upto|
    && (forall i :: 0 <= i < |upto| ==> upto[i] <= |files[i]|)
    && (forall i :: 0 < i < |upto| ==> upto[i - 1] <= upto[i])
  }

  /** What a reader has collected that reads these files up to these lengths. */
  function Collected(files: seq<string>, upto: seq<nat>): string
    requires ReadingOn(files, upto)
  {
    if upto == [] then ""
    else
      var n := |upto| - 1;
      Collected(files[..n], upto[..n]) + files[n][if n == 0 then 0 else upto[n - 1]..upto[n]]
  }

  lemma {:induction false} PiecesAddUp(files: seq<string>, upto: seq<nat>)
    requires ReadingOn(files, upto) && upto != []
    requires forall i :: 0 < i < |files| ==> files[i - 1] <= files[i]
    ensures Collected(files, upto) == files[|upto| - 1][..upto[|upto| - 1]]
  {
    var n := |upto| - 1;
    if n == 0 {
      assert Collected(files[..0], upto[..0]) == "";
    } else {
      PiecesAddUp(files[..n], upto[..n]);
      assert files[n - 1] <= files[n];
      PieceOn(files[n - 1], files[n], upto[n - 1], upto[n]);
    }
  }

  /** Reading the file piece by piece while others append, at moments that follow each other, yields the file of one
      moment: what was collected by the time the end is reached is the whole file as it is then. */
  lemma ReadInPieces(pr: Suite, evs: seq<Event>, moments: seq<nat>, upto: seq<nat>)
    requires forall i :: 0 <= i < |moments| ==> moments[i] <= |evs|
    requires forall i :: 0 < i < |moments| ==> moments[i - 1] <= moments[i]
    requires upto != [] && ReadingOn(Files(pr, evs, moments), upto)
    ensures var files, n := Files(pr, evs, moments), |upto| - 1;
            Collected(files, upto) == files[n][..upto[n]]
  {
    var files := Files(pr, evs, moments);
    assert forall i :: 0 < i < |files| ==> files[i - 1] <= files[i] by {
      FilesGrow(pr, evs, moments);
    }
    PiecesAddUp(files, upto);
  }

  lemma FilesGrow(pr: Suite, evs: seq<Event>, moments: seq<nat>)
    requires forall i :: 0 <= i < |moments| ==> moments[i] <= |evs|
    requires forall i :: 0 < i < |moments| ==> moments[i - 1] <= moments[i]
    ensures var files := Files(pr, evs, moments); forall i :: 0 < i < |files| ==> files[i - 1] <= files[i]
  {
    forall i | 0 < i < |moments| ensures Files(pr, evs, moments)[i - 1] <= Files(pr, evs, moments)[i] {
      FileAfter(pr, evs, moments[i - 1], moments[i]);
    }
  }

  lemma FileAfter(pr: Suite, evs: seq<Event>, m: nat, n: nat)
    requires m <= n <= |evs|
    ensures Run(pr, evs[..m]).file <= Run(pr, evs[..n]).file
  {
    var before, now := evs[..m], evs[..n];
    assert now == before + now[|before|..];
    OnlyGrows(pr, before, now[|before|..]);
  }

  lemma PieceOn(before: string, now: string, from: nat, upto: nat)
    requires before <= now && from <= |before| && from <= upto <= |now|
    ensures before[..from] + now[from..upto] == now[..upto]
  {
  }

  // ----- after a crash inside a line ---------------------------------------

  /** Once the committed log cannot be read, nothing more is written: the file stays as it is, and no
      process that was not done by then ever finishes. */
  lemma UnreadableStays(pr: Suite, evs: seq<Event>, more: seq<Event>, p: nat)
    requires EntryLaws(pr) && !Readable(pr, ShapeOf(pr, Run(pr, evs).ops))
    ensures var s, t := Run(pr, evs), Run(pr, evs + more);
            && t.file == s.file
            && Judged(pr, t.file, 0, Unreadable)
            && (p in t.phases && t.phases[p].Finished? ==> Over(pr, s, p))
  {
    var s, t := Run(pr, evs), Run(pr, evs + more);
    Reachable(pr, evs);
    Reachable(pr, evs + more);
    OnlyGrows(pr, evs, more);
    var i := |s.ops|;
    assert t.ops[..i] == s.ops;
    UnreadableForever(pr, t.ops, i);
    SolidStays(pr, t.ops, i);
    QuietFile(pr, s);
    QuietFile(pr, t);
    ShapeTells(pr, t.ops);
    ShapeJudged(pr, t.base, ShapeOf(pr, t.ops));
    if p in t.phases && t.phases[p].Finished? {
      assert Wrote(pr, t, p, t.phases[p].entry);
      var j: nat :| Returned(pr, t, p, j, Ok(t.phases[p].entry));
      assert j < i;
      assert Over(pr, s, s.ops[j].who);
    }
  }

  lemma QuietFile(pr: Suite, s: State)
    requires EntryLaws(pr) && Inv(pr, s) && !Readable(pr, ShapeOf(pr, s.ops))
    ensures s.file == s.base
  {
    ShapeTells(pr, s.ops);
    ShapeReads(pr, s.base, ShapeOf(pr, s.ops));
  }

  /** When a process crashed with only the newline of its line unwritten, one more append may finish. It is
      run into that line: from then on the log cannot be read, and no other append finishes. */
  lemma BareOnce(pr: Suite, evs: seq<Event>, more: seq<Event>, p: nat, q: nat)
    requires EntryLaws(pr) && ShapeOf(pr, Run(pr, evs).ops).Bare?
    requires var s, t := Run(pr, evs), Run(pr, evs + more);
             && p in t.phases && t.phases[p].Finished? && !Over(pr, s, p)
             && q in t.phases && t.phases[q].Finished? && !Over(pr, s, q)
    ensures p == q && !Readable(pr, ShapeOf(pr, Run(pr, evs + more).ops))
  {
    var s, t := Run(pr, evs), Run(pr, evs + more);
    Reachable(pr, evs);
    Reachable(pr, evs + more);
    OnlyGrows(pr, evs, more);
    assert t.ops[..|s.ops|] == s.ops;
    var i := NewlyFinished(pr, s, t, p);
    var j := NewlyFinished(pr, s, t, q);
    BareOnceOps(pr, t.ops, |s.ops|, i, j);
  }

  /** Which append on record finished since `s`. */
  lemma NewlyFinished(pr: Suite, s: State, t: State, p: nat) returns (i: nat)
    requires AllOver(pr, s) && AllAnswered(pr, t) && s.ops <= t.ops
    requires p in t.phases && t.phases[p].Finished? && !Over(pr, s, p)
    ensures |s.ops| <= i < |t.ops| && t.ops[i].who == p && Outcome(pr, t.ops, i) == Ok(t.phases[p].entry)
  {
    assert Wrote(pr, t, p, t.phases[p].entry);
    i :| Returned(pr, t, p, i, Ok(t.phases[p].entry));
    OpOver(pr, s, t, i);
  }

  lemma OpOver(pr: Suite, s: State, t: State, i: nat)
    requires AllOver(pr, s) && s.ops <= t.ops && i < |t.ops|
    ensures i < |s.ops| ==> Over(pr, s, t.ops[i].who)
  {
    assert i < |s.ops| ==> Over(pr, s, s.ops[i].who);
  }

  lemma BareOnceOps(pr: Suite, ops: seq<Op>, m: nat, i: nat, j: nat)
    requires EntryLaws(pr) && m <= i < |ops| && m <= j < |ops| && ShapeOf(pr, ops[..m]).Bare?
    requires Outcome(pr, ops, i).Ok? && Outcome(pr, ops, j).Ok?
    ensures i == j && !Readable(pr, ShapeOf(pr, ops))
  {
    BareAt(pr, ops, m, i);
    BareAt(pr, ops, m, j);
    BareThenSpoiled(pr, ops, i);
    BareThenSpoiled(pr, ops, j);
    ShapeTells(pr, ops);
    ShapeReads(pr, Sequential(pr, ops), ShapeOf(pr, ops));
  }

  /** A line that lacks its newline lacks it until an append succeeds. */
  lemma {:induction false} BareAt(pr: Suite, ops: seq<Op>, m: nat, i: nat)
    requires EntryLaws(pr) && m <= i < |ops| && ShapeOf(pr, ops[..m]).Bare? && Outcome(pr, ops, i).Ok?
    ensures ShapeOf(pr, ops[..i]).Bare?
  {
    OkCounts(pr, ops, i);
    assert ops[..i][..m] == ops[..m];
    BareUntil(pr, ops[..i], m);
  }

  lemma {:induction false} BareUntil(pr: Suite, ops: seq<Op>, m: nat)
    requires m <= |ops| && ShapeOf(pr, ops[..m]).Bare? && Readable(pr, ShapeOf(pr, ops))
    ensures ShapeOf(pr, ops).Bare?
    decreases |ops|
  {
    if m == |ops| {
      assert ops[..m] == ops;
    } else {
      var init := ops[..|ops| - 1];
      assert init[..m] == ops[..m];
      OpKeepsSolid(pr, ShapeOf(pr, init), ops[|ops| - 1]);
      BareUntil(pr, init, m);
    }
  }
}
