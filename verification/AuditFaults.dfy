/** Appends one after another, any of which may fail or be cut short: what they leave in the file. */
module AuditFaults {
  import opened Common
  import opened Primitives
  import opened Audit
  import opened AuditChain
  import opened Bags

  /** One `Append` call: by whom, of what, and how its write goes. */
  datatype Op = Op(who: nat, draft: Draft, io: IO)

  /** The file after a run of appends to an empty log. */
  function Sequential(pr: Suite, ops: seq<Op>): string {
    if ops == [] then ""
    else
      var op := ops[|ops| - 1];
      AppendFile(pr, Sequential(pr, ops[..|ops| - 1]), op.draft, op.io).0
  }

  /** What the i-th of these appends returns. */
  function Outcome(pr: Suite, ops: seq<Op>, i: nat): Result<Entry, AppendError>
    requires i < |ops|
  {
    AppendFile(pr, Sequential(pr, ops[..i]), ops[i].draft, ops[i].io).1
  }

  // ----- the shape of the file ---------------------------------------------

  /** A log is whole lines only; or its last line lacks the newline; or behind some whole lines
      comes one that no longer decodes. */
  datatype Shape = Whole(es: seq<Entry>) | Bare(es: seq<Entry>) | Spoiled(es: seq<Entry>)

  /** Some reader accepts a log of this shape. */
  predicate Readable(pr: Suite, shape: Shape) { !shape.Spoiled? && AllShort(pr, shape.es) }

  function NextEntry(pr: Suite, es: seq<Entry>, draft: Draft): Entry {
    Seal(pr, Tail(|es|, PrevHash(es, |es|)), draft)
  }

  /** What one append makes of a shape. */
  function AfterOp(pr: Suite, shape: Shape, op: Op): Shape {
    if !Readable(pr, shape) then shape
    else
      var e := NextEntry(pr, shape.es, op.draft);
      var text := pr.entryJSON(e);
      var n := TextOut(op.io, text);
      if n == 0 then shape
      else if shape.Bare? then Spoiled(Solid(shape))
      else if n < |text| then Spoiled(shape.es)
      else if op.io.Works? then Whole(shape.es + [e])
      else Bare(shape.es + [e])
  }

  function ShapeOf(pr: Suite, ops: seq<Op>): Shape {
    if ops == [] then Whole([]) else AfterOp(pr, ShapeOf(pr, ops[..|ops| - 1]), ops[|ops| - 1])
  }

  /** The entries on whole lines, newline and all. */
  function Solid(shape: Shape): seq<Entry> {
    if shape.Bare? && shape.es != [] then shape.es[..|shape.es| - 1] else shape.es
  }

  /** The file has this shape. */
  ghost predicate Shaped(pr: Suite, file: string, shape: Shape) {
    && Chain(pr, shape.es)
    && Serialize(pr, Solid(shape)) <= file
    && match shape
       case Whole(es) => file == Serialize(pr, es)
       case Bare(es) => es != [] && file + "\n" == Serialize(pr, es)
       case Spoiled(_) => ReadFile(pr, file) == None
  }

  /** How a file of some shape reads, and on what its last line ends. */
  lemma ShapeReads(pr: Suite, file: string, shape: Shape)
    requires EntryLaws(pr) && Shaped(pr, file, shape)
    ensures ReadFile(pr, file) == if Readable(pr, shape) then Some(shape.es) else None
    ensures TailOfFile(pr, file) ==
            if Readable(pr, shape) then Some(Tail(|shape.es|, PrevHash(shape.es, |shape.es|))) else None
    ensures shape.Whole? ==> Loose(file) == ""
    ensures shape.Bare? ==> !IsBlank(Loose(file))
  {
    ChainGrows(pr, shape.es, Draft("", "", "", "", "", "", ""));
    if shape.Whole? {
      SerializeReads(pr, shape.es);
    } else if shape.Bare? {
      BareReads(pr, file, shape.es);
    }
  }

  lemma BareReads(pr: Suite, file: string, es: seq<Entry>)
    requires EntryLaws(pr) && es != [] && file + "\n" == Serialize(pr, es)
    ensures ReadFile(pr, file) == if AllShort(pr, es) then Some(es) else None
    ensures !IsBlank(Loose(file))
  {
    SerializeSplits(pr, es);
    SplitNewline(file, '\n');
    assert file + ['\n'] == file + "\n";
    assert (Texts(pr, es) + [""])[..|es|] == Texts(pr, es);
    assert (Split(file, '\n') + [""])[..|Split(file, '\n')|] == Split(file, '\n');
    assert Split(file, '\n') == Texts(pr, es);
    TextsRead(pr, es);
    assert Encodes(pr, es[|es| - 1]);
  }

  /** A whole text behind whole lines. */
  lemma LineAdded(pr: Suite, es: seq<Entry>, op: Op)
    requires EntryLaws(pr) && Chain(pr, es) && AllShort(pr, es) && !op.io.Refuses?
    requires var text := pr.entryJSON(NextEntry(pr, es, op.draft)); TextOut(op.io, text) == |text|
    ensures var more := es + [NextEntry(pr, es, op.draft)];
            Shaped(pr, AppendFile(pr, Serialize(pr, es), op.draft, op.io).0, if op.io.Works? then Whole(more) else Bare(more))
  {
    var e := NextEntry(pr, es, op.draft);
    AppendSerialized(pr, es, op.draft);
    assert Encodes(pr, e);
    AppendBytes(pr, Serialize(pr, es), e, op.io);
    var text := pr.entryJSON(e);
    assert text[..|text|] == text;
    assert (es + [e])[..|es|] == es;
    assert Serialize(pr, es) + text + "\n" == Serialize(pr, es) + Line(pr, e);
  }

  /** Anything else that goes out. */
  lemma LineSpoiled(pr: Suite, file: string, shape: Shape, op: Op)
    requires EntryLaws(pr) && Shaped(pr, file, shape) && Readable(pr, shape)
    requires var text := pr.entryJSON(NextEntry(pr, shape.es, op.draft));
             0 < TextOut(op.io, text) && (shape.Bare? || TextOut(op.io, text) < |text|)
    ensures Shaped(pr, AppendFile(pr, file, op.draft, op.io).0, Spoiled(Solid(shape)))
  {
    ShapeReads(pr, file, shape);
    AppendReads(pr, file, op.draft, op.io);
    assert forall i :: 0 <= i < |Solid(shape)| ==> (Linked(pr, shape.es, i) ==> Linked(pr, Solid(shape), i));
  }

  /** One append keeps the file and its shape together. */
  lemma OpShapes(pr: Suite, file: string, shape: Shape, op: Op)
    requires EntryLaws(pr) && Shaped(pr, file, shape)
    ensures Shaped(pr, AppendFile(pr, file, op.draft, op.io).0, AfterOp(pr, shape, op))
  {
    ShapeReads(pr, file, shape);
    if Readable(pr, shape) {
      var text := pr.entryJSON(NextEntry(pr, shape.es, op.draft));
      AppendReads(pr, file, op.draft, op.io);
      if TextOut(op.io, text) > 0 {
        if shape.Bare? || TextOut(op.io, text) < |text| {
          LineSpoiled(pr, file, shape, op);
        } else {
          LineAdded(pr, shape.es, op);
        }
      }
    }
  }

  /** After any run of appends, however they went, the file has the shape their history gives. */
  lemma {:induction false} ShapeTells(pr: Suite, ops: seq<Op>)
    requires EntryLaws(pr)
    ensures Shaped(pr, Sequential(pr, ops), ShapeOf(pr, ops))
  {
    if ops != [] {
      ShapeTells(pr, ops[..|ops| - 1]);
      OpShapes(pr, Sequential(pr, ops[..|ops| - 1]), ShapeOf(pr, ops[..|ops| - 1]), ops[|ops| - 1]);
    }
  }

  /** `Verify` never finds a broken link in such a log: it counts the entries or cannot read it. */
  lemma ShapeJudged(pr: Suite, file: string, shape: Shape)
    requires EntryLaws(pr) && Shaped(pr, file, shape)
    ensures if Readable(pr, shape) then Judged(pr, file, |shape.es|, Intact) else Judged(pr, file, 0, Unreadable)
  {
    ShapeReads(pr, file, shape);
  }

  // ----- what stays --------------------------------------------------------

  lemma OpKeepsSolid(pr: Suite, shape: Shape, op: Op)
    ensures Solid(shape) <= Solid(AfterOp(pr, shape, op))
    ensures !Readable(pr, shape) ==> AfterOp(pr, shape, op) == shape
  {
  }

  /** Whole lines stay, and a log that cannot be read stays as it is. */
  lemma {:induction false} SolidStays(pr: Suite, ops: seq<Op>, i: nat)
    requires i <= |ops|
    ensures Solid(ShapeOf(pr, ops[..i])) <= Solid(ShapeOf(pr, ops))
    ensures !Readable(pr, ShapeOf(pr, ops[..i])) ==> ShapeOf(pr, ops) == ShapeOf(pr, ops[..i])
    decreases |ops|
  {
    if i == |ops| {
      assert ops[..i] == ops;
    } else {
      var init := ops[..|ops| - 1];
      SolidStays(pr, init, i);
      assert init[..i] == ops[..i];
      OpKeepsSolid(pr, ShapeOf(pr, init), ops[|ops| - 1]);
    }
  }

  /** An append that reports success wrote the entry that continues what could be read; it became a whole
      line, unless the line before it lacked its newline: then it spoiled the log. */
  lemma OkShapes(pr: Suite, ops: seq<Op>, i: nat)
    requires EntryLaws(pr) && i < |ops| && Outcome(pr, ops, i).Ok?
    ensures var shape := ShapeOf(pr, ops[..i]); var e := Outcome(pr, ops, i).value;
            && Readable(pr, shape) && e == NextEntry(pr, shape.es, ops[i].draft)
            && ShapeOf(pr, ops[..i + 1]) == if shape.Whole? then Whole(shape.es + [e]) else Spoiled(Solid(shape))
  {
    OkContinues(pr, ops, i);
    var e := Outcome(pr, ops, i).value;
    assert ops[..i + 1][..i] == ops[..i];
    assert ShapeOf(pr, ops[..i + 1]) == AfterOp(pr, ShapeOf(pr, ops[..i]), ops[i]);
    assert Encodes(pr, e);
  }

  lemma OkContinues(pr: Suite, ops: seq<Op>, i: nat)
    requires EntryLaws(pr) && i < |ops| && Outcome(pr, ops, i).Ok?
    ensures var shape := ShapeOf(pr, ops[..i]);
            && Readable(pr, shape) && ops[i].io.Works?
            && Outcome(pr, ops, i).value == NextEntry(pr, shape.es, ops[i].draft)
  {
    ShapeTells(pr, ops[..i]);
    ShapeReads(pr, Sequential(pr, ops[..i]), ShapeOf(pr, ops[..i]));
  }

  /** The entry is on the line its sequence number names, or is the one that was run into a line without newline. */
  ghost predicate PlacedIn(shape: Shape, e: Entry) {
    || (1 <= e.seqNo <= |Solid(shape)| && Solid(shape)[e.seqNo - 1] == e)
    || (shape.Spoiled? && e.seqNo == |shape.es| + 2)
  }

  /** Where the entry of a successful append is found ever after. */
  lemma OkPlaced(pr: Suite, ops: seq<Op>, i: nat)
    requires EntryLaws(pr) && i < |ops| && Outcome(pr, ops, i).Ok?
    ensures PlacedIn(ShapeOf(pr, ops), Outcome(pr, ops, i).value)
  {
    OkShapes(pr, ops, i);
    SolidStays(pr, ops, i + 1);
    var shape, e := ShapeOf(pr, ops[..i]), Outcome(pr, ops, i).value;
    if shape.Whole? {
      assert (shape.es + [e])[|shape.es|] == e;
    } else {
      ShapeTells(pr, ops[..i]);
    }
  }

  lemma OkCounts(pr: Suite, ops: seq<Op>, i: nat)
    requires EntryLaws(pr) && i < |ops| && Outcome(pr, ops, i).Ok?
    ensures Readable(pr, ShapeOf(pr, ops[..i]))
    ensures Outcome(pr, ops, i).value.seqNo == |ShapeOf(pr, ops[..i]).es| + 1
    ensures Readable(pr, ShapeOf(pr, ops[..i + 1])) ==>
              |Solid(ShapeOf(pr, ops[..i + 1]))| == Outcome(pr, ops, i).value.seqNo
  {
    OkShapes(pr, ops, i);
  }

  /** Of two successful appends the later has the higher sequence number. */
  lemma OkOrdered(pr: Suite, ops: seq<Op>, i: nat, j: nat)
    requires EntryLaws(pr) && i < j < |ops| && Outcome(pr, ops, i).Ok? && Outcome(pr, ops, j).Ok?
    ensures Outcome(pr, ops, i).value.seqNo < Outcome(pr, ops, j).value.seqNo
  {
    OkCounts(pr, ops, i);
    OkCounts(pr, ops, j);
    var upto := ops[..j];
    assert upto[..i + 1] == ops[..i + 1];
    SolidStays(pr, upto, i + 1);
    SolidSize(ShapeOf(pr, upto));
  }

  lemma OkDistinct(pr: Suite, ops: seq<Op>, i: nat, j: nat)
    requires EntryLaws(pr) && i < |ops| && j < |ops| && i != j && Outcome(pr, ops, i).Ok? && Outcome(pr, ops, j).Ok?
    ensures Outcome(pr, ops, i).value.seqNo != Outcome(pr, ops, j).value.seqNo
  {
    if i < j {
      OkOrdered(pr, ops, i, j);
    } else {
      OkOrdered(pr, ops, j, i);
    }
  }

  lemma SolidSize(shape: Shape)
    ensures |Solid(shape)| <= |shape.es|
  {
  }

  /** A log no reader accepts is never changed again, and every later append fails. */
  lemma {:induction false} UnreadableForever(pr: Suite, ops: seq<Op>, i: nat)
    requires EntryLaws(pr) && i <= |ops| && !Readable(pr, ShapeOf(pr, ops[..i]))
    ensures Sequential(pr, ops) == Sequential(pr, ops[..i])
    ensures forall j :: i <= j < |ops| ==> Outcome(pr, ops, j).Err?
    decreases |ops|
  {
    if i == |ops| {
      assert ops[..i] == ops;
    } else {
      var n := |ops| - 1;
      var init := ops[..n];
      assert init[..i] == ops[..i];
      UnreadableForever(pr, init, i);
      assert !Readable(pr, ShapeOf(pr, init)) by {
        SolidStays(pr, init, i);
      }
      assert Sequential(pr, ops) == Sequential(pr, init) && Outcome(pr, ops, n).Err? by {
        UnreadableTail(pr, init);
        FailsUnread(pr, ops);
      }
      assert init + [ops[n]] == ops;
      forall j | i <= j < n ensures Outcome(pr, ops, j).Err? {
        OutcomeStays(pr, init, ops[n], j);
      }
    }
  }

  lemma UnreadableTail(pr: Suite, ops: seq<Op>)
    requires EntryLaws(pr) && !Readable(pr, ShapeOf(pr, ops))
    ensures TailOfFile(pr, Sequential(pr, ops)) == None
  {
    ShapeTells(pr, ops);
    ShapeReads(pr, Sequential(pr, ops), ShapeOf(pr, ops));
  }

  lemma FailsUnread(pr: Suite, ops: seq<Op>)
    requires ops != [] && TailOfFile(pr, Sequential(pr, ops[..|ops| - 1])) == None
    ensures Sequential(pr, ops) == Sequential(pr, ops[..|ops| - 1]) && Outcome(pr, ops, |ops| - 1).Err?
  {
  }

  /** Behind a line without newline one more append may report success. It is the last one that does, and
      from then on nobody reads the log. */
  lemma BareThenSpoiled(pr: Suite, ops: seq<Op>, i: nat)
    requires EntryLaws(pr) && i < |ops| && ShapeOf(pr, ops[..i]).Bare? && Outcome(pr, ops, i).Ok?
    ensures ReadFile(pr, Sequential(pr, ops)) == None && Sequential(pr, ops) == Sequential(pr, ops[..i + 1])
    ensures forall j :: i < j < |ops| ==> Outcome(pr, ops, j).Err?
  {
    OkShapes(pr, ops, i);
    UnreadableForever(pr, ops, i + 1);
    ShapeTells(pr, ops[..i + 1]);
  }

  // ----- whose entries they are --------------------------------------------

  /** Which append each entry of the shape came from. */
  function Authors(pr: Suite, ops: seq<Op>): seq<nat> {
    if ops == [] then []
    else
      var init := ops[..|ops| - 1];
      var before, after, authors := ShapeOf(pr, init), ShapeOf(pr, ops), Authors(pr, init);
      if |after.es| > |before.es| then authors + [|init|]
      else if |after.es| < |before.es| && authors != [] then authors[..|authors| - 1]
      else authors
  }

  /** Entry `k` carries the draft of append `a`, which got its whole text out. */
  ghost predicate Authored(pr: Suite, ops: seq<Op>, es: seq<Entry>, k: nat, a: nat)
    requires k < |es|
  {
    a < |ops| && es[k].draft == ops[a].draft && TextOut(ops[a].io, pr.entryJSON(es[k])) == |pr.entryJSON(es[k])|
  }

  /** The entries are those of these appends, in their order. */
  ghost predicate InOrder(pr: Suite, ops: seq<Op>, es: seq<Entry>, authors: seq<nat>) {
    && |authors| == |es|
    && (forall k :: 0 <= k < |es| ==> Authored(pr, ops, es, k, authors[k]))
    && (forall j, k :: 0 <= j < k < |es| ==> authors[j] < authors[k])
  }

  /** What an append can do to the entries of a shape: nothing, add its own, or take the last one off. */
  lemma AfterCases(pr: Suite, shape: Shape, op: Op)
    ensures var after, e := AfterOp(pr, shape, op), NextEntry(pr, shape.es, op.draft);
            || after.es == shape.es
            || (after.es == shape.es + [e] && TextOut(op.io, pr.entryJSON(e)) == |pr.entryJSON(e)|)
            || (shape.es != [] && after.es == shape.es[..|shape.es| - 1])
  {
  }

  lemma OrderStays(pr: Suite, ops: seq<Op>, op: Op, es: seq<Entry>, authors: seq<nat>)
    requires InOrder(pr, ops, es, authors)
    ensures InOrder(pr, ops + [op], es, authors)
  {
    forall k | 0 <= k < |es| ensures Authored(pr, ops + [op], es, k, authors[k]) {
      assert Authored(pr, ops, es, k, authors[k]);
    }
  }

  lemma OrderGrows(pr: Suite, ops: seq<Op>, op: Op, es: seq<Entry>, authors: seq<nat>, e: Entry)
    requires InOrder(pr, ops, es, authors)
    requires e.draft == op.draft && TextOut(op.io, pr.entryJSON(e)) == |pr.entryJSON(e)|
    ensures InOrder(pr, ops + [op], es + [e], authors + [|ops|])
  {
    forall k | 0 <= k < |es + [e]| ensures Authored(pr, ops + [op], es + [e], k, (authors + [|ops|])[k]) {
      assert k < |es| ==> Authored(pr, ops, es, k, authors[k]);
    }
  }

  lemma OrderShrinks(pr: Suite, ops: seq<Op>, es: seq<Entry>, authors: seq<nat>)
    requires InOrder(pr, ops, es, authors) && es != []
    ensures InOrder(pr, ops, es[..|es| - 1], authors[..|authors| - 1])
  {
    forall k | 0 <= k < |es| - 1 ensures Authored(pr, ops, es[..|es| - 1], k, authors[k]) {
      assert Authored(pr, ops, es, k, authors[k]);
    }
  }

  /** The entries are those of some of the appends, in their order. */
  lemma {:induction false} AuthorsInOrder(pr: Suite, ops: seq<Op>)
    ensures InOrder(pr, ops, ShapeOf(pr, ops).es, Authors(pr, ops))
  {
    if ops != [] {
      var init, op := ops[..|ops| - 1], ops[|ops| - 1];
      var before, authors := ShapeOf(pr, init), Authors(pr, init);
      AuthorsInOrder(pr, init);
      AfterCases(pr, before, op);
      assert init + [op] == ops;
      OrderStays(pr, init, op, before.es, authors);
      if |ShapeOf(pr, ops).es| > |before.es| {
        OrderGrows(pr, init, op, before.es, authors, NextEntry(pr, before.es, op.draft));
      } else if |ShapeOf(pr, ops).es| < |before.es| {
        OrderShrinks(pr, ops, before.es, authors);
      }
    }
  }

  // ----- what went out, and what was reported ------------------------------

  /** Append `i` put some of its entry's text into the file. */
  predicate WentOut(pr: Suite, ops: seq<Op>, i: nat)
    requires i < |ops|
  {
    Outgoing(pr, Sequential(pr, ops[..i]), ops[i].draft, ops[i].io) > 0
  }

  /** Append `i` left one more entry to be read. */
  predicate Landed(pr: Suite, ops: seq<Op>, i: nat)
    requires i < |ops|
  {
    Grows(pr, Sequential(pr, ops[..i]), ops[i].draft, ops[i].io)
  }

  lemma OutcomeStays(pr: Suite, ops: seq<Op>, op: Op, i: nat)
    requires i < |ops|
    ensures Outcome(pr, ops + [op], i) == Outcome(pr, ops, i)
    ensures WentOut(pr, ops + [op], i) == WentOut(pr, ops, i) && Landed(pr, ops + [op], i) == Landed(pr, ops, i)
  {
    assert (ops + [op])[..i] == ops[..i];
  }

  lemma SequentialSnoc(pr: Suite, ops: seq<Op>, op: Op)
    ensures (Sequential(pr, ops + [op]), Outcome(pr, ops + [op], |ops|)) ==
            AppendFile(pr, Sequential(pr, ops), op.draft, op.io)
  {
    assert (ops + [op])[..|ops|] == ops;
  }

  /** The last append: what went out, whether it landed, and what it reported. */
  lemma LastOp(pr: Suite, ops: seq<Op>)
    requires EntryLaws(pr) && ops != []
    ensures var n := |ops| - 1; var before := ShapeOf(pr, ops[..n]); var e := NextEntry(pr, before.es, ops[n].draft);
            && (WentOut(pr, ops, n) <==> Readable(pr, before) && TextOut(ops[n].io, pr.entryJSON(e)) > 0)
            && (Outcome(pr, ops, n).Ok? <==> Readable(pr, before) && ops[n].io.Works?)
            && (Outcome(pr, ops, n).Ok? ==> Outcome(pr, ops, n).value == e && WentOut(pr, ops, n))
  {
    var n := |ops| - 1;
    ShapeTells(pr, ops[..n]);
    ShapeReads(pr, Sequential(pr, ops[..n]), ShapeOf(pr, ops[..n]));
    assert Encodes(pr, NextEntry(pr, ShapeOf(pr, ops[..n]).es, ops[n].draft));
  }

  lemma LastShape(pr: Suite, ops: seq<Op>)
    requires EntryLaws(pr) && ops != []
    ensures var n := |ops| - 1; var before, after := ShapeOf(pr, ops[..n]), ShapeOf(pr, ops);
            && (Readable(pr, after) ==> Readable(pr, before))
            && (!WentOut(pr, ops, n) ==> after == before)
            && (WentOut(pr, ops, n) && Readable(pr, after) ==>
                  after.es == before.es + [NextEntry(pr, before.es, ops[n].draft)])
            && (WentOut(pr, ops, n) ==> (Readable(pr, after) <==> Landed(pr, ops, n)))
  {
    var n := |ops| - 1;
    LastOp(pr, ops);
    ShapeTells(pr, ops[..n]);
    ShapeReads(pr, Sequential(pr, ops[..n]), ShapeOf(pr, ops[..n]));
    if WentOut(pr, ops, n) {
      LandsReadable(pr, Sequential(pr, ops[..n]), ShapeOf(pr, ops[..n]), ops[n]);
    }
  }

  lemma LandsReadable(pr: Suite, file: string, shape: Shape, op: Op)
    requires EntryLaws(pr) && Shaped(pr, file, shape) && Readable(pr, shape)
    requires TextOut(op.io, pr.entryJSON(NextEntry(pr, shape.es, op.draft))) > 0
    ensures Readable(pr, AfterOp(pr, shape, op)) <==> Grows(pr, file, op.draft, op.io)
  {
    ShapeReads(pr, file, shape);
    ShortSnoc(pr, shape.es, NextEntry(pr, shape.es, op.draft));
  }

  lemma ShortSnoc(pr: Suite, es: seq<Entry>, e: Entry)
    requires AllShort(pr, es)
    ensures AllShort(pr, es + [e]) <==> Short(pr, e)
  {
    assert (es + [e])[|es|] == e;
    assert AllShort(pr, es + [e]) ==> Short(pr, (es + [e])[|es|]);
  }

  /** The log can be read exactly if every append of which anything went out landed. */
  lemma {:induction false} ReadableExact(pr: Suite, ops: seq<Op>)
    requires EntryLaws(pr)
    ensures Readable(pr, ShapeOf(pr, ops)) <==> forall i: nat :: i < |ops| && WentOut(pr, ops, i) ==> Landed(pr, ops, i)
  {
    if ops != [] {
      var init, n := ops[..|ops| - 1], |ops| - 1;
      ReadableExact(pr, init);
      LastShape(pr, ops);
      assert init + [ops[n]] == ops;
      forall i: nat | i < n ensures WentOut(pr, ops, i) == WentOut(pr, init, i) && Landed(pr, ops, i) == Landed(pr, init, i) {
        OutcomeStays(pr, init, ops[n], i);
      }
    }
  }

  /** On a log that can be read, the entries are those of exactly the appends of which anything went out. */
  lemma {:induction false} AuthorsExact(pr: Suite, ops: seq<Op>)
    requires EntryLaws(pr) && Readable(pr, ShapeOf(pr, ops))
    ensures forall i: nat :: i in Authors(pr, ops) <==> i < |ops| && WentOut(pr, ops, i)
  {
    if ops != [] {
      var init, n := ops[..|ops| - 1], |ops| - 1;
      LastShape(pr, ops);
      AuthorsExact(pr, init);
      assert init + [ops[n]] == ops;
      forall i: nat | i < n ensures WentOut(pr, ops, i) == WentOut(pr, init, i) {
        OutcomeStays(pr, init, ops[n], i);
      }
    }
  }

  /** So there are as many. */
  lemma EntriesCounted(pr: Suite, ops: seq<Op>)
    requires EntryLaws(pr) && Readable(pr, ShapeOf(pr, ops))
    ensures |ShapeOf(pr, ops).es| == |set i: nat | i < |ops| && WentOut(pr, ops, i)|
  {
    AuthorsInOrder(pr, ops);
    AuthorsExact(pr, ops);
    CountByMembers(Authors(pr, ops), set i: nat | i < |ops| && WentOut(pr, ops, i));
  }

  /** On a log that can be read and none of whose appends was cut short or refused, there is one for each. */
  lemma {:induction false} AllCounted(pr: Suite, ops: seq<Op>)
    requires EntryLaws(pr) && Readable(pr, ShapeOf(pr, ops))
    requires forall i :: 0 <= i < |ops| ==> ops[i].io.Works?
    ensures |ShapeOf(pr, ops).es| == |ops|
  {
    if ops != [] {
      LastShape(pr, ops);
      LastOp(pr, ops);
      AllCounted(pr, ops[..|ops| - 1]);
    }
  }

  /** The entries of the appends that reported success. */
  function Successes(pr: Suite, ops: seq<Op>): seq<Entry> {
    if ops == [] then []
    else
      var n := |ops| - 1;
      Successes(pr, ops[..n]) + if Outcome(pr, ops, n).Ok? then [Outcome(pr, ops, n).value] else []
  }

  /** Which appends those are. */
  function SuccessAt(pr: Suite, ops: seq<Op>): seq<nat> {
    if ops == [] then []
    else
      var n := |ops| - 1;
      SuccessAt(pr, ops[..n]) + if Outcome(pr, ops, n).Ok? then [n as nat] else []
  }

  lemma {:induction false} SuccessesInOrder(pr: Suite, ops: seq<Op>)
    ensures var es, at := Successes(pr, ops), SuccessAt(pr, ops);
            && |at| == |es|
            && (forall k :: 0 <= k < |es| ==> at[k] < |ops| && es[k].draft == ops[at[k]].draft)
            && (forall j, k :: 0 <= j < k < |es| ==> at[j] < at[k])
            && (forall i: nat :: i in at <==> i < |ops| && Outcome(pr, ops, i).Ok?)
  {
    if ops != [] {
      var init, n := ops[..|ops| - 1], |ops| - 1;
      SuccessesInOrder(pr, init);
      assert init + [ops[n]] == ops;
      forall i: nat | i < n ensures Outcome(pr, ops, i) == Outcome(pr, init, i) {
        OutcomeStays(pr, init, ops[n], i);
      }
    }
  }

  /** A log that can be read holds exactly the entries of the appends that reported success if and only if no
      other append got its entry in. */
  lemma {:induction false} SuccessesExact(pr: Suite, ops: seq<Op>)
    requires EntryLaws(pr) && Readable(pr, ShapeOf(pr, ops))
    ensures |Successes(pr, ops)| <= |ShapeOf(pr, ops).es|
    ensures ShapeOf(pr, ops).es == Successes(pr, ops) <==>
            forall i: nat :: i < |ops| && WentOut(pr, ops, i) ==> Outcome(pr, ops, i).Ok?
  {
    if ops != [] {
      var init, n := ops[..|ops| - 1], |ops| - 1;
      LastShape(pr, ops);
      LastOp(pr, ops);
      SuccessesExact(pr, init);
      assert init + [ops[n]] == ops;
      forall i: nat | i < n ensures WentOut(pr, ops, i) == WentOut(pr, init, i) && Outcome(pr, ops, i) == Outcome(pr, init, i) {
        OutcomeStays(pr, init, ops[n], i);
      }
      if WentOut(pr, ops, n) {
        SnocEqual(ShapeOf(pr, init).es, Successes(pr, init), NextEntry(pr, ShapeOf(pr, init).es, ops[n].draft));
      }
    }
  }

  lemma SnocEqual(a: seq<Entry>, b: seq<Entry>, e: Entry)
    ensures a + [e] == b + [e] <==> a == b
  {
    if a + [e] == b + [e] {
      assert (a + [e])[..|a|] == a && (b + [e])[..|b|] == b;
    }
  }
}
