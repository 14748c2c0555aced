/** What the hash chain proves: `Verify`, its exactness, its stability and its limits. */
module AuditChain {
  import opened Common
  import opened Primitives
  import opened Audit

  // ----- the chain ---------------------------------------------------------

  /** Entry `i` is numbered, linked to its predecessor and hashed as it should be. */
  ghost predicate Linked(pr: Suite, es: seq<Entry>, i: int)
    requires 0 <= i < |es|
  {
    es[i].seqNo == i + 1 && es[i].prev == PrevHash(es, i) && es[i].hash == HashOf(pr, es[i])
  }

  ghost predicate Chain(pr: Suite, es: seq<Entry>) {
    forall i :: 0 <= i < |es| ==> Linked(pr, es, i)
  }

  /** A chain in so many words: numbers 1, 2, 3, ...; each entry names the hash of the one before it, the first one 64
      zeros; and each hash is SHA-256, in hex, of the entry's own JSON with the hash left out. */
  ghost predicate Sealed(pr: Suite, es: seq<Entry>, i: int)
    requires 0 <= i < |es|
  {
    var e := es[i];
    && e.seqNo == i + 1
    && (i > 0 ==> e.prev == es[i - 1].hash)
    && (i == 0 ==> e.prev == "0000000000000000000000000000000000000000000000000000000000000000")
    && e.hash == pr.hex(pr.sha256(pr.entryJSON(Entry(e.seqNo, e.draft, e.prev, ""))))
  }

  lemma ChainExact(pr: Suite, es: seq<Entry>)
    ensures Chain(pr, es) <==> forall i :: 0 <= i < |es| ==> Sealed(pr, es, i)
  {
    forall i | 0 <= i < |es| ensures Linked(pr, es, i) <==> Sealed(pr, es, i) {
    }
  }

  datatype Fault = SequenceGap | BrokenPrev | HashMismatch

  datatype Verdict = Intact | Unreadable | Broken(fault: Fault)

  /** The first thing wrong with entry `i`. */
  ghost predicate FaultAt(pr: Suite, es: seq<Entry>, i: int, fault: Fault)
    requires 0 <= i < |es|
  {
    match fault
    case SequenceGap => es[i].seqNo != i + 1
    case BrokenPrev => es[i].seqNo == i + 1 && es[i].prev != PrevHash(es, i)
    case HashMismatch => es[i].seqNo == i + 1 && es[i].prev == PrevHash(es, i) && es[i].hash != HashOf(pr, es[i])
  }

  /** The right answer for a file: unreadable, or the number of entries before the first
      broken one together with what is wrong there, or the full count. */
  ghost predicate Judged(pr: Suite, file: string, count: int, verdict: Verdict) {
    match ReadFile(pr, file)
    case None => count == 0 && verdict == Unreadable
    case Some(es) =>
      && 0 <= count <= |es|
      && (forall i :: 0 <= i < count ==> Linked(pr, es, i))
      && (if count == |es| then verdict == Intact
          else verdict.Broken? && FaultAt(pr, es, count, verdict.fault))
  }

  /** `Verify`: walks the chain and reports the first broken link. */
  method Verify(pr: Suite, file: string) returns (count: int, verdict: Verdict)
    ensures Judged(pr, file, count, verdict)
  {
    var entries := Read(pr, file);
    if entries.None? {
      return 0, Unreadable;
    }
    var es := entries.value;
    var prev := GENESIS;
    for i := 0 to |es|
      invariant prev == PrevHash(es, i)
      invariant forall j :: 0 <= j < i ==> Linked(pr, es, j)
    {
      var e := es[i];
      if e.seqNo != i + 1 {
        return i, Broken(SequenceGap);
      }
      if e.prev != prev {
        return i, Broken(BrokenPrev);
      }
      if HashOf(pr, e) != e.hash {
        return i, Broken(HashMismatch);
      }
      prev := e.hash;
    }
    return |es|, Intact;
  }

  /** There is one right answer, and it is "intact" exactly for readable chains. */
  lemma JudgedOnce(pr: Suite, file: string, c1: int, v1: Verdict, c2: int, v2: Verdict)
    requires Judged(pr, file, c1, v1) && Judged(pr, file, c2, v2)
    ensures c1 == c2 && v1 == v2
    ensures v1 == Intact <==> ReadFile(pr, file).Some? && Chain(pr, ReadFile(pr, file).value)
  {
    if ReadFile(pr, file).Some? {
      var es := ReadFile(pr, file).value;
      assert c1 < |es| ==> !Linked(pr, es, c1);
      assert c2 < |es| ==> !Linked(pr, es, c2);
    }
  }

  // ----- growth ------------------------------------------------------------

  /** A sealed entry is a good link behind any entries with this tail. */
  lemma SealedLinks(pr: Suite, es: seq<Entry>, draft: Draft)
    ensures var e := Seal(pr, Tail(|es|, PrevHash(es, |es|)), draft);
            Linked(pr, es + [e], |es|) && e.(hash := "") == Entry(|es| + 1, draft, PrevHash(es, |es|), "")
  {
    var e := Seal(pr, Tail(|es|, PrevHash(es, |es|)), draft);
    assert PrevHash(es + [e], |es|) == PrevHash(es, |es|);
  }

  lemma LinkedStable(pr: Suite, es: seq<Entry>, more: seq<Entry>, i: int)
    requires 0 <= i < |es|
    ensures Linked(pr, es + more, i) <==> Linked(pr, es, i)
    ensures forall fault :: FaultAt(pr, es + more, i, fault) <==> FaultAt(pr, es, i, fault)
  {
    assert (es + more)[i] == es[i];
    assert PrevHash(es + more, i) == PrevHash(es, i);
  }

  /** One more well sealed entry never repairs or moves the first broken link. */
  lemma LinkAdded(pr: Suite, file: string, after: string, draft: Draft, count: int, verdict: Verdict)
    requires Judged(pr, file, count, verdict) && TailOfFile(pr, file).Some?
    requires ReadFile(pr, after) == Some(ReadFile(pr, file).value + [Seal(pr, TailOfFile(pr, file).value, draft)])
    ensures Judged(pr, after, if verdict == Intact then count + 1 else count, verdict)
  {
    var es := ReadFile(pr, file).value;
    var e := Seal(pr, TailOfFile(pr, file).value, draft);
    SealedLinks(pr, es, draft);
    forall i | 0 <= i < |es|
      ensures Linked(pr, es + [e], i) <==> Linked(pr, es, i)
      ensures forall fault :: FaultAt(pr, es + [e], i, fault) <==> FaultAt(pr, es, i, fault)
    {
      LinkedStable(pr, es, [e], i);
    }
  }

  /** The entry an append seals, when it comes to sealing one, and how much of its text goes out. */
  function Outgoing(pr: Suite, file: string, draft: Draft, io: IO): nat {
    if TailOfFile(pr, file).None? then 0
    else TextOut(io, pr.entryJSON(Seal(pr, TailOfFile(pr, file).value, draft)))
  }

  /** The append leaves one more entry to be read. */
  predicate Grows(pr: Suite, file: string, draft: Draft, io: IO) {
    TailOfFile(pr, file).Some? && Enters(pr, file, Seal(pr, TailOfFile(pr, file).value, draft), io)
  }

  /** Whatever the state of the log and however the write goes, an append never repairs or moves the first
      broken link: none of the entry goes out and the file is unchanged; or the entry enters, and the
      verdict stays; or the file is ruined for every reader. */
  lemma AppendKeepsVerdict(pr: Suite, file: string, draft: Draft, io: IO, count: int, verdict: Verdict)
    requires EntryLaws(pr) && Judged(pr, file, count, verdict)
    ensures var after := AppendFile(pr, file, draft, io).0;
            if Outgoing(pr, file, draft, io) == 0 then after == file
            else if Grows(pr, file, draft, io) then Judged(pr, after, if verdict == Intact then count + 1 else count, verdict)
            else Judged(pr, after, 0, Unreadable)
    ensures AppendFile(pr, file, draft, io).1.Ok? <==> io.Works? && TailOfFile(pr, file).Some?
  {
    if TailOfFile(pr, file).Some? {
      AppendReads(pr, file, draft, io);
      assert Encodes(pr, Seal(pr, TailOfFile(pr, file).value, draft));
      if Grows(pr, file, draft, io) {
        LinkAdded(pr, file, AppendFile(pr, file, draft, io).0, draft, count, verdict);
      }
    }
  }

  /** What a swallowed write error leaves for `Verify`, on any log: it makes the log unreadable exactly if
      part of the entry went out without the entry entering. In every other case the verdict is the one
      the log had, with one entry more if all but the newline was written. */
  lemma SwallowedErrorShows(pr: Suite, file: string, draft: Draft, io: IO, count: int, verdict: Verdict)
    requires EntryLaws(pr) && Judged(pr, file, count, verdict)
    requires AppendFile(pr, file, draft, io).1.Err?
    ensures var after := AppendFile(pr, file, draft, io).0;
            var grows := Grows(pr, file, draft, io);
            && (Judged(pr, after, 0, Unreadable) <==>
                  verdict == Unreadable || (Outgoing(pr, file, draft, io) > 0 && !grows))
            && (verdict != Unreadable && (Outgoing(pr, file, draft, io) == 0 || grows) ==>
                  Judged(pr, after, if grows && verdict == Intact then count + 1 else count, verdict))
  {
    AppendKeepsVerdict(pr, file, draft, io, count, verdict);
    if TailOfFile(pr, file).Some? {
      assert Encodes(pr, Seal(pr, TailOfFile(pr, file).value, draft));
    }
  }

  // ----- tamper evidence ---------------------------------------------------

  /** Two accepted logs that share one entry hash, at whatever positions, are the same log up
      to there; otherwise the returned pair collides under SHA-256. */
  lemma {:induction false} TamperEvidence(pr: Suite, a: seq<Entry>, b: seq<Entry>, i: nat, j: nat)
    returns (clash: Option<Collision>)
    requires EntryLaws(pr) && Chain(pr, a) && Chain(pr, b)
    requires i < |a| && j < |b| && a[i].hash == b[j].hash
    ensures clash == None ==> i == j && a[..i + 1] == b[..i + 1]
    ensures clash.Some? ==> clash.value.Valid(pr)
  {
    assert Linked(pr, a, i) && Linked(pr, b, j);
    var x, y := a[i].(hash := ""), b[j].(hash := "");
    HexDigestSplits(pr, pr.entryJSON(x), pr.entryJSON(y));
    if pr.entryJSON(x) != pr.entryJSON(y) {
      return Some(Collision(pr.entryJSON(x), pr.entryJSON(y)));
    }
    assert Encodes(pr, x) && Encodes(pr, y);
    assert x == y;
    if i == 0 {
      assert a[..1] == b[..1];
      return None;
    }
    clash := TamperEvidence(pr, a, b, i - 1, j - 1);
    if clash == None {
      assert a[..i + 1] == a[..i] + [a[i]];
      assert b[..i + 1] == b[..i] + [b[i]];
    }
  }

  /** The chain sees nothing beyond the last known entry: every prefix is accepted, and so is
      every prefix continued with freely chosen, freshly sealed entries. */
  lemma SuffixIsFree(pr: Suite, es: seq<Entry>, k: nat, drafts: seq<Draft>)
    requires Chain(pr, es) && k <= |es|
    ensures Chain(pr, es[..k])
    ensures Chain(pr, Extend(pr, es[..k], drafts))
    ensures |Extend(pr, es[..k], drafts)| == k + |drafts|
    ensures Extend(pr, es[..k], drafts)[..k] == es[..k]
    ensures forall i :: 0 <= i < |drafts| ==> Extend(pr, es[..k], drafts)[k + i].draft == drafts[i]
  {
    forall i | 0 <= i < k ensures Linked(pr, es[..k], i) {
      assert Linked(pr, es, i);
    }
    ExtendChains(pr, es[..k], drafts);
  }

  /** Every other edit shows: of the logs made up from lines of an accepted one, however lines were deleted,
      repeated or moved, exactly its prefixes are accepted. */
  lemma EditsShow(pr: Suite, a: seq<Entry>, b: seq<Entry>)
    requires Chain(pr, a) && forall i :: 0 <= i < |b| ==> b[i] in a
    ensures Chain(pr, b) <==> b <= a
  {
    if Chain(pr, b) {
      forall i | 0 <= i < |b| ensures i < |a| && b[i] == a[i] {
        var j :| 0 <= j < |a| && a[j] == b[i];
        assert Linked(pr, a, j) && Linked(pr, b, i);
      }
      if |b| > 0 {
        assert b[|b| - 1] in a;
      }
    }
    if b <= a {
      forall i | 0 <= i < |b| ensures Linked(pr, b, i) {
        assert Linked(pr, a, i);
      }
    }
  }

  /** Entries continued by sealing drafts one after another: what a run of appends produces. */
  function Extend(pr: Suite, es: seq<Entry>, drafts: seq<Draft>): seq<Entry> {
    if drafts == [] then es
    else
      var before := Extend(pr, es, drafts[..|drafts| - 1]);
      before + [Seal(pr, Tail(|before|, PrevHash(before, |before|)), drafts[|drafts| - 1])]
  }

  lemma {:induction false} ExtendChains(pr: Suite, es: seq<Entry>, drafts: seq<Draft>)
    requires Chain(pr, es)
    ensures Chain(pr, Extend(pr, es, drafts))
    ensures es <= Extend(pr, es, drafts)
    ensures |Extend(pr, es, drafts)| == |es| + |drafts|
    ensures forall i :: 0 <= i < |drafts| ==> Extend(pr, es, drafts)[|es| + i].draft == drafts[i]
  {
    if drafts != [] {
      var init, last := drafts[..|drafts| - 1], drafts[|drafts| - 1];
      ExtendChains(pr, es, init);
      var before := Extend(pr, es, init);
      ChainGrows(pr, before, last);
    }
  }

  lemma ChainGrows(pr: Suite, es: seq<Entry>, draft: Draft)
    requires Chain(pr, es)
    ensures TailOf(es) == Some(Tail(|es|, PrevHash(es, |es|)))
    ensures Chain(pr, es + [Seal(pr, Tail(|es|, PrevHash(es, |es|)), draft)])
  {
    var e := Seal(pr, Tail(|es|, PrevHash(es, |es|)), draft);
    SealedLinks(pr, es, draft);
    forall i | 0 <= i < |es| ensures Linked(pr, es + [e], i) {
      LinkedStable(pr, es, [e], i);
    }
    forall i | 0 <= i < |es| ensures es[i].seqNo == i + 1 {
      assert Linked(pr, es, i);
    }
  }

  /** The drafts of a list of entries. */
  function Drafts(es: seq<Entry>): seq<Draft> {
    seq(|es|, i requires 0 <= i < |es| => es[i].draft)
  }

  /** A chain is a chain and one entry sealed onto it. */
  lemma ChainPrefix(pr: Suite, es: seq<Entry>)
    requires Chain(pr, es) && es != []
    ensures var init, e := es[..|es| - 1], es[|es| - 1];
            Chain(pr, init) && e == Seal(pr, Tail(|init|, PrevHash(init, |init|)), e.draft)
  {
    var init := es[..|es| - 1];
    forall i | 0 <= i < |init| ensures Linked(pr, init, i) {
      assert Linked(pr, es, i);
    }
    assert Linked(pr, es, |es| - 1);
  }

  /** A chain is determined by its drafts. */
  lemma {:induction false} ChainFromDrafts(pr: Suite, es: seq<Entry>)
    requires Chain(pr, es)
    ensures es == Extend(pr, [], Drafts(es))
  {
    if es != [] {
      var init := es[..|es| - 1];
      ChainPrefix(pr, es);
      ChainFromDrafts(pr, init);
      assert Drafts(es)[..|es| - 1] == Drafts(init);
    }
  }

  // ----- JSONL fidelity ----------------------------------------------------

  /** The bytes of a log holding exactly these entries. */
  function Serialize(pr: Suite, es: seq<Entry>): string {
    if es == [] then "" else Serialize(pr, es[..|es| - 1]) + Line(pr, es[|es| - 1])
  }

  predicate Short(pr: Suite, e: Entry) { |pr.entryJSON(e)| < MAX_LINE }

  predicate AllShort(pr: Suite, es: seq<Entry>) {
    forall i :: 0 <= i < |es| ==> Short(pr, es[i])
  }

  /** The lines of a serialised log, without their newlines. */
  function Texts(pr: Suite, es: seq<Entry>): seq<string> {
    seq(|es|, i requires 0 <= i < |es| => pr.entryJSON(es[i]))
  }

  lemma {:induction false} SerializeSplits(pr: Suite, es: seq<Entry>)
    requires EntryLaws(pr)
    ensures Split(Serialize(pr, es), '\n') == Texts(pr, es) + [""]
  {
    if es == [] {
      assert Texts(pr, es) == [];
    } else {
      var init, e := es[..|es| - 1], es[|es| - 1];
      SerializeSplits(pr, init);
      assert Encodes(pr, e);
      var text, file := pr.entryJSON(e), Serialize(pr, init);
      assert file + Line(pr, e) == file + text + ['\n'];
      SplitAppend(file, text, '\n');
      SplitNewline(file + text, '\n');
      assert "" + text == text;
      assert Texts(pr, es) == Texts(pr, init) + [text];
    }
  }

  lemma {:induction false} TextsRead(pr: Suite, es: seq<Entry>)
    requires EntryLaws(pr)
    ensures ReadLines(pr, Texts(pr, es)) == if AllShort(pr, es) then Some(es) else None
  {
    if es == [] {
      assert Texts(pr, es) == [];
    } else {
      TextsRead(pr, es[1..]);
      assert Texts(pr, es)[1..] == Texts(pr, es[1..]);
      assert Encodes(pr, es[0]);
      assert es == [es[0]] + es[1..];
      assert AllShort(pr, es) <==> Short(pr, es[0]) && AllShort(pr, es[1..]) by {
        assert forall i :: 0 <= i < |es[1..]| ==> es[1..][i] == es[i + 1];
        assert forall i :: 1 <= i < |es| ==> es[i] == es[1..][i - 1];
      }
    }
  }

  /** A serialised log ends in a newline and reads back exactly when every line fits the scanner. */
  lemma SerializeReads(pr: Suite, es: seq<Entry>)
    requires EntryLaws(pr)
    ensures Loose(Serialize(pr, es)) == ""
    ensures ReadFile(pr, Serialize(pr, es)) == if AllShort(pr, es) then Some(es) else None
  {
    SerializeSplits(pr, es);
    TextsRead(pr, es);
    ReadLinesConcat(pr, Texts(pr, es), [""]);
    ReadOne(pr, "");
    assert es + [] == es;
  }

  /** Appending to a serialised chain gives the serialised longer chain. */
  lemma AppendSerialized(pr: Suite, es: seq<Entry>, draft: Draft)
    requires EntryLaws(pr) && Chain(pr, es) && AllShort(pr, es)
    ensures var e := Seal(pr, Tail(|es|, PrevHash(es, |es|)), draft);
            && TailOfFile(pr, Serialize(pr, es)) == Some(Tail(|es|, PrevHash(es, |es|)))
            && AppendFile(pr, Serialize(pr, es), draft, Works) == (Serialize(pr, es + [e]), Ok(e))
            && Chain(pr, es + [e])
  {
    SerializeReads(pr, es);
    ChainGrows(pr, es, draft);
    var e := Seal(pr, Tail(|es|, PrevHash(es, |es|)), draft);
    assert (es + [e])[..|es|] == es;
  }

  /** The file after appending drafts one after another to an empty log. */
  function AppendAll(pr: Suite, drafts: seq<Draft>): string {
    if drafts == [] then "" else AppendFile(pr, AppendAll(pr, drafts[..|drafts| - 1]), drafts[|drafts| - 1], Works).0
  }

  /** The file after a run of appends is the serialised chain of their entries, as long as every line fits. */
  lemma {:induction false} AppendsSerialize(pr: Suite, drafts: seq<Draft>)
    requires EntryLaws(pr) && AllShort(pr, Extend(pr, [], drafts))
    ensures AppendAll(pr, drafts) == Serialize(pr, Extend(pr, [], drafts)) && Chain(pr, Extend(pr, [], drafts))
  {
    ExtendChains(pr, [], drafts);
    if drafts != [] {
      var init := drafts[..|drafts| - 1];
      var before := Extend(pr, [], init);
      ShortBefore(pr, before, Extend(pr, [], drafts));
      AppendsSerialize(pr, init);
      AppendSerialized(pr, before, drafts[|drafts| - 1]);
    }
  }

  lemma ShortBefore(pr: Suite, before: seq<Entry>, es: seq<Entry>)
    requires before <= es && AllShort(pr, es)
    ensures AllShort(pr, before)
  {
    assert forall i :: 0 <= i < |before| ==> before[i] == es[i];
  }

  /** `Read` after any run of appends returns exactly the appended entries, `scanTail` agrees on
      the last one and `Verify` accepts with the full count, as long as every line fits the scanner. */
  lemma AppendsReadBack(pr: Suite, drafts: seq<Draft>)
    requires EntryLaws(pr) && AllShort(pr, Extend(pr, [], drafts))
    ensures var es := Extend(pr, [], drafts);
            && AppendAll(pr, drafts) == Serialize(pr, es)
            && ReadFile(pr, AppendAll(pr, drafts)) == Some(es)
            && TailOfFile(pr, AppendAll(pr, drafts)) == Some(Tail(|drafts|, PrevHash(es, |es|)))
            && Judged(pr, AppendAll(pr, drafts), |drafts|, Intact)
  {
    var es := Extend(pr, [], drafts);
    ExtendChains(pr, [], drafts);
    AppendsSerialize(pr, drafts);
    SerializeReads(pr, es);
    ChainGrows(pr, es, Draft("", "", "", "", "", "", ""));
  }
}
