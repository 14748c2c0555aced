/** From a verified file back to the decision that allowed it, and forward again. */
module DaemonSound {
  import opened Common
  import opened Primitives
  import opened Envelopes
  import opened Audit
  import opened Daemon
  import opened DaemonTrace

  // ----- keys and signatures -----------------------------------------------

  /** A full-length private key that was generated for the booth. */
  ghost predicate BoothKey(pr: Suite, w: World, priv: string) {
    |priv| == PRIVATE_KEY_SIZE && pr.publicHalf(priv) in w.boothKeys
  }

  /** A signature made for this ticket gave this envelope, and is on record. */
  ghost predicate SignedFor(pr: Suite, w: World, t: Ticket, env: Envelope) {
    && t.body.Some?
    && BoothKey(pr, w, t.priv)
    && Envelopes.Sign(pr, t.priv, PayloadOf(pr, t)) == Ok(env)
    && GrantedMessage(pr, t) in w.signed
  }

  /** What a request has in hand, by stage. Signing never fails after validation and a key load. */
  ghost predicate InHand(pr: Suite, w: World, p: Pending) {
    match p.stage
    case Admitted => p.ticket.body.Some? && ValidDigest(p.ticket.body.value.digest)
    case Slotted => p.ticket.body.Some? && ValidDigest(p.ticket.body.value.digest)
    case Loaded => p.ticket.body.Some? && ValidDigest(p.ticket.body.value.digest) && BoothKey(pr, w, p.ticket.priv)
    case Signed(env) => SignedFor(pr, w, p.ticket, env)
    case Refused(_, response) => !response.Success? && !response.InternalError?
    case Done(Success(env)) => SignedFor(pr, w, p.ticket, env)
    case Done(response) => !response.InternalError?
    case _ => true
  }

  ghost predicate KeysOurs(pr: Suite, w: World) {
    && w.boothKeys !! w.foreignKeys
    && (forall name :: name in w.slots && w.slots[name].key.Holds? ==> BoothKey(pr, w, w.slots[name].key.value))
  }

  /** Every signature on record is foreign, or was granted. */
  ghost predicate SignaturesAccounted(pr: Suite, w: World) {
    forall m :: m in w.signed ==> m.pub in w.foreignKeys || Granting(pr, w, m)
  }

  ghost predicate Granting(pr: Suite, w: World, m: Message) {
    exists i :: 0 <= i < |w.grants| && GrantGave(pr, w.grants[i], m)
  }

  ghost predicate GrantGave(pr: Suite, t: Ticket, m: Message) {
    t.body.Some? && m == GrantedMessage(pr, t)
  }

  ghost predicate Sound(pr: Suite, w: World) {
    && KeysOurs(pr, w)
    && SignaturesAccounted(pr, w)
    && (forall id :: id in w.requests ==> InHand(pr, w, w.requests[id]))
  }

  /** Keys, signatures and grants only accumulate. */
  ghost predicate Grew(w: World, w': World) {
    w.boothKeys <= w'.boothKeys && w.signed <= w'.signed && w.foreignKeys <= w'.foreignKeys && w.grants <= w'.grants
  }

  lemma InHandLater(pr: Suite, w: World, w': World, p: Pending)
    requires Grew(w, w') && InHand(pr, w, p)
    ensures InHand(pr, w', p)
  {
  }

  lemma GrantingLater(pr: Suite, w: World, w': World, m: Message)
    requires Grew(w, w') && Granting(pr, w, m)
    ensures Granting(pr, w', m)
  {
    var i :| 0 <= i < |w.grants| && GrantGave(pr, w.grants[i], m);
    assert w'.grants[i] == w.grants[i];
  }

  // ----- events that are not the daemon's ----------------------------------

  lemma CreateKeySound(pr: Suite, w: World, ev: Event)
    requires ev.CreateKey? && KeysOurs(pr, w)
    ensures KeysOurs(pr, CreateKeyStep(pr, w, ev)) && Grew(w, CreateKeyStep(pr, w, ev))
  {
    var w' := CreateKeyStep(pr, w, ev);
    forall name | name in w'.slots && w'.slots[name].key.Holds?
      ensures BoothKey(pr, w', w'.slots[name].key.value)
    {
      if name in w.slots && w'.slots[name].key == w.slots[name].key {
        assert BoothKey(pr, w, w.slots[name].key.value);
      }
    }
  }

  lemma OutsideSound(pr: Suite, w: World, ev: Event)
    requires Outside(ev) && Sound(pr, w)
    ensures Sound(pr, OutsideStep(pr, w, ev))
  {
    var w' := OutsideStep(pr, w, ev);
    OutsideEffect(pr, w, ev);
    OutsideKeys(pr, w, ev);
    forall id | id in w'.requests ensures InHand(pr, w', w'.requests[id]) {
      InHandLater(pr, w, w', w.requests[id]);
    }
    forall m | m in w'.signed ensures m.pub in w'.foreignKeys || Granting(pr, w', m) {
      if m in w.signed && m.pub !in w.foreignKeys {
        GrantingLater(pr, w, w', m);
      }
    }
  }

  lemma OutsideKeys(pr: Suite, w: World, ev: Event)
    requires Outside(ev) && KeysOurs(pr, w)
    ensures var w' := OutsideStep(pr, w, ev);
            && KeysOurs(pr, w') && Grew(w, w')
            && (forall m :: m in w'.signed ==> m in w.signed || m.pub in w'.foreignKeys)
  {
    if ev.CreateKey? {
      CreateKeySound(pr, w, ev);
    } else if ev.DropFile? {
      var w' := OutsideStep(pr, w, ev);
      forall name | name in w'.slots && w'.slots[name].key.Holds?
        ensures BoothKey(pr, w', w'.slots[name].key.value)
      {
        assert name in w.slots && w'.slots[name].key == w.slots[name].key;
        assert BoothKey(pr, w, w.slots[name].key.value);
      }
    }
  }

  // ----- the daemon's own events -------------------------------------------

  /** The keys stay, and the signatures grow by what the new grants gave. */
  ghost predicate Vouches(pr: Suite, w: World, w': World, g: seq<Ticket>) {
    && w'.slots == w.slots && w'.boothKeys == w.boothKeys && w'.foreignKeys == w.foreignKeys
    && w.signed <= w'.signed
    && (forall m :: m in w'.signed && m !in w.signed ==> g != [] && GrantGave(pr, g[0], m))
    && (g != [] ==> g[0].body.Some? && GrantedMessage(pr, g[0]) in w'.signed)
  }

  lemma RecordVouches(pr: Suite, w: World, p: Pending)
    requires p.ticket.body.Some?
    ensures Vouches(pr, w, RecordSignature(pr, w, p), if p.stage.Signed? then [p.ticket] else [])
  {
  }

  lemma BesideVouches(pr: Suite, w: World, ev: Event)
    requires Moves(ev) && Live(w, ev.id) && Filed(pr, w, ev).Some?
    ensures Vouches(pr, w, Beside(pr, w, ev), NewGrants(pr, w, ev))
  {
    var t := w.requests[ev.id].ticket;
    if ev.Sign? {
      RecordVouches(pr, w, SignStep(pr, w, t));
    } else {
      var w' := Beside(pr, w, ev);
      assert w'.slots == w.slots && w'.boothKeys == w.boothKeys && w'.foreignKeys == w.foreignKeys && w'.signed == w.signed;
    }
  }

  lemma DecideInHand(pr: Suite, w: World, t: Ticket, now: int)
    ensures InHand(pr, w, DecideStep(pr, w, t, now))
  {
  }

  lemma TakeSlotInHand(pr: Suite, w: World, t: Ticket, now: int)
    requires InHand(pr, w, Pending(t, Admitted))
    ensures InHand(pr, w, TakeSlotStep(w, t, now))
  {
  }

  lemma LoadKeyInHand(pr: Suite, w: World, t: Ticket)
    requires InHand(pr, w, Pending(t, Slotted)) && KeysOurs(pr, w)
    ensures InHand(pr, w, LoadKeyStep(pr, w, t))
  {
  }

  lemma SignInHand(pr: Suite, w: World, t: Ticket)
    requires InHand(pr, w, Pending(t, Loaded))
    ensures SignStep(pr, w, t).stage.Signed?
    ensures InHand(pr, RecordSignature(pr, w, SignStep(pr, w, t)), SignStep(pr, w, t))
  {
  }

  lemma FiledInHand(pr: Suite, w: World, ev: Event)
    requires Moves(ev) && Live(w, ev.id) && Filed(pr, w, ev).Some? && KeysOurs(pr, w)
    requires InHand(pr, w, w.requests[ev.id])
    ensures InHand(pr, Beside(pr, w, ev), Filed(pr, w, ev).value)
  {
    var p := w.requests[ev.id];
    var w' := Beside(pr, w, ev);
    match (ev, p.stage) {
      case (Authenticate(_), Arrived) =>
      case (Decide(_, now), Known) => DecideInHand(pr, w, p.ticket, now);
      case (TakeSlot(_, now), Admitted) =>
        TakeSlotInHand(pr, w, p.ticket, now);
        InHandLater(pr, w, w', TakeSlotStep(w, p.ticket, now));
      case (LoadKey(_), Slotted) => LoadKeyInHand(pr, w, p.ticket);
      case (Sign(_), Loaded) => SignInHand(pr, w, p.ticket);
      case (Log(_, now, io), Signed(env)) =>
        BesideVouches(pr, w, ev);
        BesideEffect(pr, w, ev);
        InHandLater(pr, w, w', p);
      case (Log(_, now, io), Refused(draft, response)) =>
    }
  }

  lemma MoveSound(pr: Suite, w: World, ev: Event)
    requires Moves(ev) && Live(w, ev.id) && Filed(pr, w, ev).Some? && Sound(pr, w)
    ensures Sound(pr, Put(Beside(pr, w, ev), Filed(pr, w, ev).value))
  {
    var w', p := Beside(pr, w, ev), Filed(pr, w, ev).value;
    var g := NewGrants(pr, w, ev);
    BesideVouches(pr, w, ev);
    BesideEffect(pr, w, ev);
    FiledInHand(pr, w, ev);
    PutSound(pr, w, w', Put(w', p), p, g);
  }

  lemma PutSound(pr: Suite, w: World, w': World, put: World, p: Pending, g: seq<Ticket>)
    requires Sound(pr, w) && Vouches(pr, w, w', g) && Adds(w, w', g) && InHand(pr, w', p)
    requires put == Put(w', p)
    ensures Sound(pr, put)
  {
    assert Grew(w, put) && Grew(w', put);
    forall id | id in put.requests ensures InHand(pr, put, put.requests[id]) {
      if id == p.ticket.id {
        InHandLater(pr, w', put, p);
      } else {
        InHandLater(pr, w, put, w.requests[id]);
      }
    }
    forall m | m in put.signed ensures m.pub in put.foreignKeys || Granting(pr, put, m) {
      if m !in w.signed {
        assert put.grants[|w.grants|] == g[0];
        assert GrantGave(pr, put.grants[|w.grants|], m);
      } else if m.pub !in w.foreignKeys {
        GrantingLater(pr, w, put, m);
      }
    }
    forall name | name in put.slots && put.slots[name].key.Holds?
      ensures BoothKey(pr, put, put.slots[name].key.value)
    {
      assert BoothKey(pr, w, w.slots[name].key.value);
    }
  }

  lemma ChangeSound(pr: Suite, w: World, ev: Event)
    requires Sound(pr, w)
    ensures Sound(pr, Change(pr, w, ev))
  {
    ChangeCases(pr, w, ev);
    if Outside(ev) {
      OutsideSound(pr, w, ev);
    } else if NewlyFiled(pr, w, ev).Some? {
      if ev.Arrive? {
        assert w.grants + [] == w.grants;
        PutSound(pr, w, w, Put(w, FirstFiled(w, ev)), FirstFiled(w, ev), []);
      } else {
        MoveSound(pr, w, ev);
      }
    }
  }

  lemma StepSound(pr: Suite, w: World, ev: Event)
    requires Sound(pr, w)
    ensures Sound(pr, Step(pr, w, ev))
  {
    ChangeSound(pr, w, ev);
    StepsSound(pr, Change(pr, w, ev), Step(pr, w, ev));
  }

  lemma StepsSound(pr: Suite, w: World, w': World)
    requires Sound(pr, w) && w' == w.(steps := w'.steps)
    ensures Sound(pr, w')
  {
    forall id | id in w'.requests ensures InHand(pr, w', w'.requests[id]) {
      InHandLater(pr, w, w', w.requests[id]);
    }
    forall m | m in w'.signed ensures m.pub in w'.foreignKeys || Granting(pr, w', m) {
      if m.pub !in w.foreignKeys {
        GrantingLater(pr, w, w', m);
      }
    }
    assert forall priv :: BoothKey(pr, w, priv) ==> BoothKey(pr, w', priv);
  }

  lemma {:induction false} AlwaysSound(pr: Suite, r: Trace, n: nat)
    requires IsRun(pr, r) && n <= |r.evs|
    ensures Sound(pr, r.worlds[n])
  {
    if n > 0 {
      AlwaysSound(pr, r, n - 1);
      assert Follows(pr, r, n - 1);
      StepSound(pr, r.worlds[n - 1], r.evs[n - 1]);
    }
  }
}
