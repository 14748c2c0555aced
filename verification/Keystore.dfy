/** Signing keys on disk: internal/keystore/keystore.go. */
module Keystore {
  import opened Common
  import opened Primitives
  import opened Envelopes
  import Policy

  /** A file: missing, present but not decodable, or holding a value. */
  datatype File<+T> = Absent | Garbled | Holds(value: T)

  datatype Record = Record(name: string, fingerprint: string, createdAt: string)

  /** The three files of one key name. */
  datatype Slot = Slot(key: File<string>, pub: File<string>, meta: File<Record>)

  const EMPTY_SLOT := Slot(Absent, Absent, Absent)

  datatype KeyError = BadName | Exists | NoSuchKey | NotAKey | BadMetadata | Disagree | Interrupted

  function SlotOf(slots: map<string, Slot>, name: string): Slot {
    if name in slots then slots[name] else EMPTY_SLOT
  }

  function NewRecord(pr: Suite, name: string, priv: string, createdAt: string): Record {
    Record(name, Fingerprint(pr, pr.publicHalf(priv)), createdAt)
  }

  /** The files after `upto` half-writes of `Create`: each file is first truncated, then complete. */
  function Creating(pr: Suite, slot: Slot, name: string, priv: string, createdAt: string, upto: nat): Slot {
    Slot(
      if upto == 0 then slot.key else if upto == 1 then Garbled else Holds(priv),
      if upto <= 2 then slot.pub else if upto == 3 then Garbled else Holds(pr.publicHalf(priv)),
      if upto <= 4 then slot.meta else if upto == 5 then Garbled else Holds(NewRecord(pr, name, priv, createdAt)))
  }

  /** `Create` with a freshly generated private key, stopping after `upto` half-writes (6 is all). */
  function CreateSlot(pr: Suite, slot: Slot, name: string, priv: string, createdAt: string, upto: nat)
    : (Slot, Result<Record, KeyError>)
  {
    if !Policy.ValidName(name) then (slot, Err(BadName))
    else if slot.key != Absent then (slot, Err(Exists))
    else if upto < 6 then (Creating(pr, slot, name, priv, createdAt, upto), Err(Interrupted))
    else (Creating(pr, slot, name, priv, createdAt, upto), Ok(NewRecord(pr, name, priv, createdAt)))
  }

  /** The order of the writes: whatever a creation has touched of the public half, the private key is complete by then,
      and whatever it has touched of the record, the public half is too; and the record comes last. */
  lemma CreationOrder(pr: Suite, slot: Slot, name: string, priv: string, createdAt: string, upto: nat)
    requires Policy.ValidName(name) && slot.key == Absent
    ensures var after := CreateSlot(pr, slot, name, priv, createdAt, upto).0;
            && (after.pub != slot.pub ==> after.key == Holds(priv))
            && (after.meta != slot.meta ==> after.key == Holds(priv) && after.pub == Holds(pr.publicHalf(priv)))
            && (upto > 0 ==> after.key != Absent)
    ensures upto >= 6 ==>
              CreateSlot(pr, slot, name, priv, createdAt, upto).0 ==
              Slot(Holds(priv), Holds(pr.publicHalf(priv)),
                   Holds(Record(name, "SHA256:" + pr.rawBase64(pr.sha256(pr.publicHalf(priv))), createdAt)))
  {
  }

  /** `Load`: the private key and its record, refusing when they disagree. */
  function LoadSlot(pr: Suite, slot: Slot, name: string): Result<(string, Record), KeyError> {
    if !Policy.ValidName(name) then Err(BadName)
    else match slot.key
      case Absent => Err(NoSuchKey)
      case Garbled => Err(NotAKey)
      case Holds(priv) =>
        match slot.meta
        case Absent => Err(NoSuchKey)
        case Garbled => Err(BadMetadata)
        case Holds(rec) =>
          if Fingerprint(pr, pr.publicHalf(priv)) != rec.fingerprint then Err(Disagree)
          else Ok((priv, rec))
  }

  /** A directory of keys. */
  class Store {
    var slots: map<string, Slot>

    constructor ()
      ensures slots == map[]
    {
      slots := map[];
    }

    /** `Create`: three files in order, each truncated and then filled; a crash can fall anywhere. */
    method Create(pr: Suite, name: string, priv: string, createdAt: string, upto: nat)
      returns (r: Result<Record, KeyError>)
      modifies this
      ensures var (slot, result) := CreateSlot(pr, SlotOf(old(slots), name), name, priv, createdAt, upto);
              r == result && SlotOf(slots, name) == slot
      ensures forall other :: other != name ==> SlotOf(slots, other) == SlotOf(old(slots), other)
    {
      if !Policy.ValidName(name) {
        return Err(BadName);
      }
      var slot := SlotOf(slots, name);
      if slot.key != Absent {
        return Err(Exists);
      }
      if upto == 0 { return Err(Interrupted); }
      slot := slot.(key := Garbled);
      slots := slots[name := slot];
      if upto == 1 { return Err(Interrupted); }
      slot := slot.(key := Holds(priv));
      slots := slots[name := slot];
      if upto == 2 { return Err(Interrupted); }
      var pub := pr.publicHalf(priv);
      slot := slot.(pub := Garbled);
      slots := slots[name := slot];
      if upto == 3 { return Err(Interrupted); }
      slot := slot.(pub := Holds(pub));
      slots := slots[name := slot];
      if upto == 4 { return Err(Interrupted); }
      var rec := Record(name, Fingerprint(pr, pub), createdAt);
      slot := slot.(meta := Garbled);
      slots := slots[name := slot];
      if upto == 5 { return Err(Interrupted); }
      slot := slot.(meta := Holds(rec));
      slots := slots[name := slot];
      return Ok(rec);
    }

    /** `Load` changes nothing. */
    method Load(pr: Suite, name: string) returns (r: Result<(string, Record), KeyError>)
      ensures r == LoadSlot(pr, SlotOf(slots, name), name)
    {
      if !Policy.ValidName(name) {
        return Err(BadName);
      }
      var slot := SlotOf(slots, name);
      if slot.key == Absent {
        return Err(NoSuchKey);
      }
      if slot.key == Garbled {
        return Err(NotAKey);
      }
      if slot.meta == Absent {
        return Err(NoSuchKey);
      }
      if slot.meta == Garbled {
        return Err(BadMetadata);
      }
      var got := Fingerprint(pr, pr.publicHalf(slot.key.value));
      if got != slot.meta.value.fingerprint {
        return Err(Disagree);
      }
      return Ok((slot.key.value, slot.meta.value));
    }
  }

  // ----- histories of one key name -----------------------------------------

  datatype Op = Create(priv: string, createdAt: string, upto: nat) | DropKey | DropPub | DropMeta

  /** The files, the private key of the last complete creation that nothing has undone since, and
      every fingerprint that was ever recorded. */
  datatype History = History(slot: Slot, live: Option<string>, prints: set<string>)

  const BLANK := History(EMPTY_SLOT, None, {})

  function Apply(pr: Suite, name: string, h: History, op: Op): History {
    match op
    case Create(priv, createdAt, upto) =>
      var (slot, r) := CreateSlot(pr, h.slot, name, priv, createdAt, upto);
      History(slot,
              if r.Ok? then Some(priv) else if h.slot.key == Absent then None else h.live,
              if r.Ok? then h.prints + {r.value.fingerprint} else h.prints)
    case DropKey => h.(slot := h.slot.(key := Absent), live := None)
    case DropPub => h.(slot := h.slot.(pub := Absent))
    case DropMeta => h.(slot := h.slot.(meta := Absent), live := None)
  }

  function Run(pr: Suite, name: string, ops: seq<Op>): History {
    if ops == [] then BLANK else Apply(pr, name, Run(pr, name, ops[..|ops| - 1]), ops[|ops| - 1])
  }

  /** Every generated key has a fingerprint that was never recorded before. */
  ghost predicate FreshKeys(pr: Suite, name: string, ops: seq<Op>) {
    forall i :: 0 <= i < |ops| && ops[i].Create? ==>
      Fingerprint(pr, pr.publicHalf(ops[i].priv)) !in Run(pr, name, ops[..i]).prints
  }

  ghost predicate Consistent(pr: Suite, name: string, h: History) {
    && (h.slot.meta.Holds? ==> h.slot.meta.value.fingerprint in h.prints && h.slot.meta.value.name == name)
    && (h.slot.key.Holds? && h.slot.meta.Holds?
        && h.slot.meta.value.fingerprint == Fingerprint(pr, pr.publicHalf(h.slot.key.value)) ==>
          h.live == Some(h.slot.key.value))
    && (h.live.Some? ==>
          && Policy.ValidName(name)
          && h.slot.key == Holds(h.live.value)
          && h.slot.meta.Holds? && h.slot.meta.value.fingerprint == Fingerprint(pr, pr.publicHalf(h.live.value))
          && (h.slot.pub == Absent || h.slot.pub == Holds(pr.publicHalf(h.live.value))))
  }

  lemma {:induction false} AlwaysConsistent(pr: Suite, name: string, ops: seq<Op>)
    requires FreshKeys(pr, name, ops)
    ensures Consistent(pr, name, Run(pr, name, ops))
  {
    if ops != [] {
      var n := |ops| - 1;
      assert FreshKeys(pr, name, ops[..n]) by {
        assert forall i :: 0 <= i < n ==> ops[..n][..i] == ops[..i];
      }
      AlwaysConsistent(pr, name, ops[..n]);
      assert ops[..n] == ops[..|ops| - 1];
      StepConsistent(pr, name, Run(pr, name, ops[..n]), ops[n]);
    }
  }

  lemma StepConsistent(pr: Suite, name: string, h: History, op: Op)
    requires Consistent(pr, name, h)
    requires op.Create? ==> Fingerprint(pr, pr.publicHalf(op.priv)) !in h.prints
    ensures Consistent(pr, name, Apply(pr, name, h, op))
  {
  }

  /** After any history of creations, interrupted anywhere, and file deletions, `Load` returns exactly the
      key of the last complete creation that nothing has undone, with its own fingerprint on record, and
      refuses in every other case; an exported public half, if still there, is that key's. */
  lemma LoadExact(pr: Suite, name: string, ops: seq<Op>)
    requires FreshKeys(pr, name, ops)
    ensures var h := Run(pr, name, ops); var r := LoadSlot(pr, h.slot, name);
            && (r.Ok? <==> h.live.Some?)
            && (r.Ok? ==>
                  && Some(r.value.0) == h.live && r.value.1.name == name
                  && r.value.1.fingerprint == Fingerprint(pr, pr.publicHalf(r.value.0))
                  && (h.slot.pub != Absent ==> h.slot.pub == Holds(pr.publicHalf(r.value.0))))
  {
    AlwaysConsistent(pr, name, ops);
  }

  /** A creation interrupted after its first write blocks the name: whatever stale files were around, the
      key cannot be loaded and cannot be created again until its key file is deleted; then it can be. */
  lemma InterruptedBlocks(pr: Suite, name: string, ops: seq<Op>, cut: Op, retry: Op)
    requires FreshKeys(pr, name, ops + [cut]) && Policy.ValidName(name)
    requires cut.Create? && 0 < cut.upto < 6 && Run(pr, name, ops).slot.key == Absent
    requires retry.Create? && retry.upto >= 6
    ensures var h := Run(pr, name, ops + [cut]);
            && LoadSlot(pr, h.slot, name).Err?
            && Apply(pr, name, h, retry) == h
            && LoadSlot(pr, Apply(pr, name, Apply(pr, name, h, DropKey), retry).slot, name) ==
               Ok((retry.priv, NewRecord(pr, name, retry.priv, retry.createdAt)))
  {
    assert (ops + [cut])[..|ops|] == ops;
    LoadExact(pr, name, ops + [cut]);
  }
}
