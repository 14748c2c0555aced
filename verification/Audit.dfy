/** The hash-chained audit log of internal/audit/audit.go, at the level of file bytes. */
module Audit {
  import opened Common
  import opened Primitives

  /** The `prev` of the first entry: 64 zeros. */
  const GENESIS := "0000000000000000000000000000000000000000000000000000000000000000"

  /** A line of this many bytes or more stops the line scanner with an error. */
  const MAX_LINE := 1024 * 1024

  /** SHA-256, in hex, of the entry's JSON with the hash field blanked. */
  function HashOf(pr: Suite, e: Entry): string {
    pr.hex(pr.sha256(pr.entryJSON(e.(hash := ""))))
  }

  // ----- reading -----------------------------------------------------------

  /** The entries on a list of lines; None when a line is too long or does not decode. */
  function ReadLines(pr: Suite, lines: seq<string>): Option<seq<Entry>> {
    if lines == [] then Some([])
    else if |lines[0]| >= MAX_LINE then None
    else
      var text := TrimSpace(lines[0]);
      if text == "" then ReadLines(pr, lines[1..])
      else match pr.readEntry(text)
        case None => None
        case Some(e) =>
          match ReadLines(pr, lines[1..])
          case None => None
          case Some(es) => Some([e] + es)
  }

  /** The entries of a log file. */
  function ReadFile(pr: Suite, file: string): Option<seq<Entry>> {
    ReadLines(pr, Split(file, '\n'))
  }

  /** The chain tail an appender continues from. */
  datatype Tail = Tail(seqNo: int, last: string)

  /** The tail of a list of entries, if their sequence numbers are 1, 2, 3, ... */
  function TailOf(es: seq<Entry>): Option<Tail> {
    if forall i :: 0 <= i < |es| ==> es[i].seqNo == i + 1
    then Some(Tail(|es|, PrevHash(es, |es|)))
    else None
  }

  /** The hash that entry `i` must name as its predecessor's. */
  function PrevHash(es: seq<Entry>, i: nat): string
    requires i <= |es|
  {
    if i == 0 then GENESIS else es[i - 1].hash
  }

  /** What `scanTail` returns for a file. */
  function TailOfFile(pr: Suite, file: string): Option<Tail> {
    match ReadFile(pr, file)
    case None => None
    case Some(es) => TailOf(es)
  }

  /** Reading a list of lines reads its parts. */
  lemma {:induction false} ReadLinesConcat(pr: Suite, a: seq<string>, b: seq<string>)
    ensures ReadLines(pr, a).None? || ReadLines(pr, b).None? ==> ReadLines(pr, a + b).None?
    ensures ReadLines(pr, a).Some? && ReadLines(pr, b).Some? ==>
            ReadLines(pr, a + b) == Some(ReadLines(pr, a).value + ReadLines(pr, b).value)
  {
    var none: seq<Entry> := [];
    if a == [] {
      assert a + b == b;
      assert ReadLines(pr, b).Some? ==> none + ReadLines(pr, b).value == ReadLines(pr, b).value;
    } else {
      assert (a + b)[1..] == a[1..] + b;
      ReadLinesConcat(pr, a[1..], b);
      var text := TrimSpace(a[0]);
      if text != "" && pr.readEntry(text).Some? && ReadLines(pr, a[1..]).Some? && ReadLines(pr, b).Some? {
        var e, x, y := pr.readEntry(text).value, ReadLines(pr, a[1..]).value, ReadLines(pr, b).value;
        assert [e] + (x + y) == [e] + x + y;
      }
    }
  }

  /** One line of text read on its own. */
  lemma ReadOne(pr: Suite, line: string)
    ensures ReadLines(pr, [line]) ==
            if |line| >= MAX_LINE then None
            else if IsBlank(line) then Some([])
            else match pr.readEntry(TrimSpace(line)) case None => None case Some(e) => Some([e])
  {
    TrimBlank(line);
    assert [line][1..] == [];
    var none: seq<Entry> := [];
    assert forall e: Entry :: [e] + none == [e];
  }

  /** Reading one line more. */
  lemma ReadNext(pr: Suite, lines: seq<string>, i: nat)
    requires i < |lines|
    ensures ReadLines(pr, lines[..i]).Some? && ReadLines(pr, [lines[i]]).Some? ==>
              ReadLines(pr, lines[..i + 1]) == Some(ReadLines(pr, lines[..i]).value + ReadLines(pr, [lines[i]]).value)
    ensures ReadLines(pr, [lines[i]]).None? ==> ReadLines(pr, lines).None?
    ensures ReadLines(pr, lines).Some? ==>
              ReadLines(pr, lines[..i + 1]).Some? && ReadLines(pr, lines[..i + 1]).value <= ReadLines(pr, lines).value
  {
    var before, line, after := lines[..i], [lines[i]], lines[i + 1..];
    assert lines[..i + 1] == before + line;
    assert lines == before + line + after;
    ReadLinesConcat(pr, before, line);
    ReadLinesConcat(pr, before + line, after);
  }

  /** `Read`: every entry in the file. */
  method Read(pr: Suite, file: string) returns (r: Option<seq<Entry>>)
    ensures r == ReadFile(pr, file)
  {
    var lines := Split(file, '\n');
    var out: seq<Entry> := [];
    for i := 0 to |lines|
      invariant ReadLines(pr, lines[..i]) == Some(out)
    {
      ReadNext(pr, lines, i);
      ReadOne(pr, lines[i]);
      TrimBlank(lines[i]);
      if |lines[i]| >= MAX_LINE {
        return None;
      }
      var text := TrimSpace(lines[i]);
      if text == "" {
        assert out + [] == out;
        continue;
      }
      var e := pr.readEntry(text);
      if e.None? {
        return None;
      }
      out := out + [e.value];
    }
    assert lines[..|lines|] == lines;
    return Some(out);
  }

  /** `scanTail`: the last sequence number and hash, checking continuity on the way. */
  method ScanTail(pr: Suite, file: string) returns (r: Option<Tail>)
    ensures r == TailOfFile(pr, file)
  {
    var lines := Split(file, '\n');
    var number, last := 0, GENESIS;
    ghost var seen: seq<Entry> := [];
    for i := 0 to |lines|
      invariant ReadLines(pr, lines[..i]) == Some(seen)
      invariant TailOf(seen) == Some(Tail(number, last))
    {
      ReadNext(pr, lines, i);
      ReadOne(pr, lines[i]);
      TrimBlank(lines[i]);
      if |lines[i]| >= MAX_LINE {
        return None;
      }
      var text := TrimSpace(lines[i]);
      if text == "" {
        assert seen + [] == seen;
        continue;
      }
      var e := pr.readEntry(text);
      if e.None? {
        return None;
      }
      assert ReadLines(pr, lines[..i + 1]) == Some(seen + [e.value]);
      if e.value.seqNo != number + 1 {
        assert TailOf(seen + [e.value]) == None by {
          assert (seen + [e.value])[|seen|] == e.value;
        }
        if ReadLines(pr, lines).Some? {
          var all := ReadLines(pr, lines).value;
          assert all[|seen|] == e.value;
        }
        return None;
      }
      seen := seen + [e.value];
      number, last := e.value.seqNo, e.value.hash;
    }
    assert lines[..|lines|] == lines;
    return Some(Tail(number, last));
  }

  // ----- appending ---------------------------------------------------------

  /** What the file system does to one append: all goes well, nothing is written
      (open, lock, seek or write fails at once), or the write stops after `written` bytes. */
  datatype IO = Works | Refuses | Stops(written: nat)

  datatype AppendError = IOError | BadLog

  /** The entry that continues a chain from `tail`. */
  function Seal(pr: Suite, tail: Tail, draft: Draft): Entry {
    var e := Entry(tail.seqNo + 1, draft, tail.last, "");
    e.(hash := HashOf(pr, e))
  }

  function Line(pr: Suite, e: Entry): string { pr.entryJSON(e) + "\n" }

  /** The part of a line that reaches the file when the write stops early. */
  function Written(line: string, n: nat): string
    requires line != ""
  {
    if n < |line| then line[..n] else line[..|line| - 1]
  }

  /** `Append` as a function: the new file, and the entry written or the error. */
  function AppendFile(pr: Suite, file: string, draft: Draft, io: IO): (string, Result<Entry, AppendError>) {
    if io.Refuses? then (file, Err(IOError))
    else match TailOfFile(pr, file)
      case None => (file, Err(BadLog))
      case Some(tail) =>
        var e := Seal(pr, tail, draft);
        if io.Works? then (file + Line(pr, e), Ok(e))
        else (file + Written(Line(pr, e), io.written), Err(IOError))
  }

  /** The log file, written under an exclusive lock. */
  class Log {
    var file: string

    constructor (file: string)
      ensures this.file == file
    {
      this.file := file;
    }

    /** `Open` checks shape and sequence numbers, not hashes. */
    method Open(pr: Suite) returns (ok: bool)
      ensures ok <==> TailOfFile(pr, file).Some?
    {
      var tail := ScanTail(pr, file);
      ok := tail.Some?;
    }

    /** `Append`: re-read the tail, seal the entry, write one line. */
    method Append(pr: Suite, draft: Draft, io: IO) returns (r: Result<Entry, AppendError>)
      modifies this
      ensures (file, r) == AppendFile(pr, old(file), draft, io)
      ensures old(file) <= file
    {
      if io.Refuses? {
        return Err(IOError);
      }
      var tail := ScanTail(pr, file);
      if tail.None? {
        return Err(BadLog);
      }
      var e := Entry(tail.value.seqNo + 1, draft, tail.value.last, "");
      e := e.(hash := HashOf(pr, e));
      var line := pr.entryJSON(e) + "\n";
      if io.Stops? {
        file := file + Written(line, io.written);
        return Err(IOError);
      }
      file := file + line;
      return Ok(e);
    }
  }

  // ----- what an append does to the entries --------------------------------

  /** The bytes after the last newline. */
  function Loose(file: string): string {
    var lines := Split(file, '\n');
    lines[|lines| - 1]
  }

  lemma SplitAppend(s: string, text: string, sep: char)
    requires sep !in text
    ensures Split(s + text, sep) ==
            Split(s, sep)[..|Split(s, sep)| - 1] + [Split(s, sep)[|Split(s, sep)| - 1] + text]
  {
    var segs := Split(s, sep);
    var init, last := segs[..|segs| - 1], segs[|segs| - 1];
    JoinSplit(s, sep);
    assert segs == init + [last];
    JoinLast(init, last, text, sep);
    SplitJoin(init + [last + text], sep);
  }

  lemma {:induction false} JoinLast(init: seq<string>, last: string, text: string, sep: char)
    ensures Join(init + [last], sep) + text == Join(init + [last + text], sep)
  {
    if init != [] {
      JoinLast(init[1..], last, text, sep);
      assert (init + [last])[1..] == init[1..] + [last];
      assert (init + [last + text])[1..] == init[1..] + [last + text];
    }
  }

  lemma SplitNewline(s: string, sep: char)
    ensures Split(s + [sep], sep) == Split(s, sep) + [""]
  {
    JoinSplit(s, sep);
    JoinMore(Split(s, sep), sep);
    SplitJoin(Split(s, sep) + [""], sep);
  }

  lemma {:induction false} JoinMore(segs: seq<string>, sep: char)
    requires segs != []
    ensures Join(segs, sep) + [sep] == Join(segs + [""], sep)
  {
    assert (segs + [""])[1..] == segs[1..] + [""];
    if |segs| > 1 {
      JoinMore(segs[1..], sep);
    } else {
      assert Join([""], sep) == "";
    }
  }

  /** The scanner takes lines short of a mebibyte and no others. */
  lemma LineLimit(pr: Suite, line: string)
    ensures |line| >= 1_048_576 ==> ReadLines(pr, [line]) == None
    ensures |line| < 1_048_576 && IsBlank(line) ==> ReadLines(pr, [line]) == Some([])
    ensures |line| < 1_048_576 && !IsBlank(line) ==>
              (ReadLines(pr, [line]).Some? <==> pr.readEntry(TrimSpace(line)).Some?)
  {
    ReadOne(pr, line);
  }

  /** What a file reads as when `text` is written behind it, by the reading of its loose end. */
  lemma ReadBehind(pr: Suite, file: string, text: string)
    requires '\n' !in text && ReadFile(pr, file).Some?
    ensures ReadFile(pr, file + text + "\n") == ReadFile(pr, file + text)
    ensures ReadLines(pr, [Loose(file) + text]).None? ==> ReadFile(pr, file + text).None?
    ensures IsBlank(Loose(file)) && ReadLines(pr, [Loose(file) + text]).Some? ==>
            ReadFile(pr, file + text) == Some(ReadFile(pr, file).value + ReadLines(pr, [Loose(file) + text]).value)
    ensures ReadLines(pr, [Loose(file)]).Some?
  {
    var lines := Split(file, '\n');
    var init, loose := lines[..|lines| - 1], lines[|lines| - 1];
    SplitAppend(file, text, '\n');
    SplitNewline(file + text, '\n');
    assert lines == init + [loose];
    ReadLinesConcat(pr, init, [loose]);
    ReadLinesConcat(pr, init, [loose + text]);
    ReadLinesConcat(pr, init + [loose + text], [""]);
    ReadOne(pr, "");
    ReadOne(pr, loose);
    assert file + text + "\n" == file + text + ['\n'];
    if ReadFile(pr, file + text).Some? {
      assert ReadFile(pr, file + text).value + [] == ReadFile(pr, file + text).value;
    }
    assert ReadLines(pr, init).Some?;
    if IsBlank(loose) {
      assert ReadLines(pr, init).value + [] == ReadLines(pr, init).value;
    }
  }

  /** The line about to be written lands on a line of its own and is short enough to be scanned. */
  predicate Lands(pr: Suite, file: string, e: Entry) {
    IsBlank(Loose(file)) && |Loose(file)| + |pr.entryJSON(e)| < MAX_LINE
  }

  /** How much of an entry's text an append gets into the file. */
  function TextOut(io: IO, text: string): nat {
    match io
    case Works => |text|
    case Refuses => 0
    case Stops(n) => if n < |text| then n else |text|
  }

  /** The whole text of the entry goes out, and lands. */
  predicate Enters(pr: Suite, file: string, e: Entry, io: IO) {
    TextOut(io, pr.entryJSON(e)) == |pr.entryJSON(e)| && Lands(pr, file, e)
  }

  /** What a line reads as once part or all of an entry's text is added to it. */
  lemma ReadText(pr: Suite, loose: string, e: Entry, n: nat)
    requires EntryLaws(pr) && ReadLines(pr, [loose]).Some? && 0 < n <= |pr.entryJSON(e)|
    ensures ReadLines(pr, [loose + pr.entryJSON(e)[..n]]) ==
            if n == |pr.entryJSON(e)| && IsBlank(loose) && |loose| + n < MAX_LINE then Some([e]) else None
  {
    var text := pr.entryJSON(e)[..n];
    assert Encodes(pr, e);
    ReadOne(pr, loose);
    ReadOne(pr, loose + text);
    assert (loose + text)[|loose|] == text[0];
    if IsBlank(loose) {
      TrimAfterBlank(loose, text);
      CutReads(pr, e, n);
    }
  }

  lemma CutReads(pr: Suite, e: Entry, n: nat)
    requires EntryLaws(pr) && 0 < n <= |pr.entryJSON(e)|
    ensures pr.readEntry(TrimSpace(pr.entryJSON(e)[..n])) == if n == |pr.entryJSON(e)| then Some(e) else None
  {
    assert Encodes(pr, e);
    if n == |pr.entryJSON(e)| {
      assert pr.entryJSON(e)[..n] == pr.entryJSON(e);
    }
  }

  /** What a readable file reads as once part or all of an entry's text is added to it, with or without a newline. */
  lemma ReadWithText(pr: Suite, file: string, e: Entry, n: nat)
    requires EntryLaws(pr) && ReadFile(pr, file).Some? && 0 < n <= |pr.entryJSON(e)|
    ensures ReadFile(pr, file + pr.entryJSON(e)[..n]) ==
            if n == |pr.entryJSON(e)| && Lands(pr, file, e) then Some(ReadFile(pr, file).value + [e]) else None
    ensures ReadFile(pr, file + pr.entryJSON(e)[..n] + "\n") == ReadFile(pr, file + pr.entryJSON(e)[..n])
  {
    var text := pr.entryJSON(e)[..n];
    assert Encodes(pr, e);
    assert '\n' !in text;
    ReadBehind(pr, file, text);
    ReadText(pr, Loose(file), e, n);
  }

  /** Every append to a readable, well numbered file, however its write goes: nothing of the entry reaches
      the file, which stays as it was; or the entry enters and is read behind the others; or nothing is
      read any more. */
  lemma AppendReads(pr: Suite, file: string, draft: Draft, io: IO)
    requires EntryLaws(pr) && TailOfFile(pr, file).Some?
    ensures var e := Seal(pr, TailOfFile(pr, file).value, draft);
            var (after, r) := AppendFile(pr, file, draft, io);
            && r == (if io.Works? then Ok(e) else Err(IOError))
            && (TextOut(io, pr.entryJSON(e)) == 0 ==> after == file)
            && (TextOut(io, pr.entryJSON(e)) > 0 ==>
                  ReadFile(pr, after) ==
                  if Enters(pr, file, e, io) then Some(ReadFile(pr, file).value + [e]) else None)
  {
    var e := Seal(pr, TailOfFile(pr, file).value, draft);
    var after := AppendFile(pr, file, draft, io).0;
    var text := pr.entryJSON(e);
    var n := TextOut(io, text);
    assert Encodes(pr, e);
    AppendBytes(pr, file, e, io);
    if n > 0 {
      ReadWithText(pr, file, e, n);
    }
  }

  /** The bytes an append leaves behind a file. */
  lemma AppendBytes(pr: Suite, file: string, e: Entry, io: IO)
    requires Encodes(pr, e)
    ensures var n := TextOut(io, pr.entryJSON(e));
            && (io.Works? ==> file + Line(pr, e) == file + pr.entryJSON(e)[..n] + "\n")
            && (io.Stops? ==> file + Written(Line(pr, e), io.written) == file + pr.entryJSON(e)[..n])
            && (io.Stops? && n == 0 ==> file + Written(Line(pr, e), io.written) == file)
  {
    var text := pr.entryJSON(e);
    assert text[..|text|] == text;
    assert Line(pr, e)[..|text|] == text;
    if io.Stops? && io.written < |text| {
      assert Line(pr, e)[..io.written] == text[..io.written];
    }
  }

  /** A completed append reads back as one more entry exactly when its line lands;
      otherwise the whole log stops being readable. */
  lemma AppendReadsBack(pr: Suite, file: string, draft: Draft)
    requires EntryLaws(pr) && TailOfFile(pr, file).Some?
    ensures var (after, r) := AppendFile(pr, file, draft, Works);
            && r == Ok(Seal(pr, TailOfFile(pr, file).value, draft))
            && (Lands(pr, file, r.value) ==> ReadFile(pr, after) == Some(ReadFile(pr, file).value + [r.value]))
            && (!Lands(pr, file, r.value) ==> ReadFile(pr, after).None?)
  {
    AppendReads(pr, file, draft, Works);
    assert Encodes(pr, Seal(pr, TailOfFile(pr, file).value, draft));
  }

  /** After a write that stopped inside the entry, no reader or appender accepts the file again. */
  lemma TornFreezes(pr: Suite, file: string, draft: Draft, written: nat)
    requires EntryLaws(pr) && TailOfFile(pr, file).Some?
    requires 0 < written < |pr.entryJSON(Seal(pr, TailOfFile(pr, file).value, draft))|
    ensures var torn := AppendFile(pr, file, draft, Stops(written)).0;
            && ReadFile(pr, torn).None?
            && forall d, io :: AppendFile(pr, torn, d, io).0 == torn && AppendFile(pr, torn, d, io).1.Err?
  {
    AppendReads(pr, file, draft, Stops(written));
  }

  /** A write that lost only the final newline is read as complete, and the next completed append ruins the log. */
  lemma LostNewline(pr: Suite, file: string, draft: Draft, written: nat, next: Draft)
    requires EntryLaws(pr) && TailOfFile(pr, file).Some?
    requires var e := Seal(pr, TailOfFile(pr, file).value, draft);
             Lands(pr, file, e) && written >= |pr.entryJSON(e)|
    ensures var e := Seal(pr, TailOfFile(pr, file).value, draft);
            var torn := AppendFile(pr, file, draft, Stops(written)).0;
            && ReadFile(pr, torn) == Some(ReadFile(pr, file).value + [e])
            && AppendFile(pr, torn, next, Works).1.Ok?
            && ReadFile(pr, AppendFile(pr, torn, next, Works).0).None?
  {
    var e := Seal(pr, TailOfFile(pr, file).value, draft);
    var text := pr.entryJSON(e);
    var torn := AppendFile(pr, file, draft, Stops(written)).0;
    assert Encodes(pr, e);
    AppendReads(pr, file, draft, Stops(written));
    AppendBytes(pr, file, e, Stops(written));
    assert text[..|text|] == text;
    TailGrows(ReadFile(pr, file).value, e);
    LooseGrows(file, text);
    AppendReadsBack(pr, torn, next);
  }

  lemma LooseGrows(file: string, text: string)
    requires '\n' !in text
    ensures Loose(file + text) == Loose(file) + text
    ensures text != "" && !IsSpace(text[0]) ==> !IsBlank(Loose(file + text))
  {
    SplitAppend(file, text, '\n');
    if text != "" {
      assert (Loose(file) + text)[|Loose(file)|] == text[0];
    }
  }

  lemma TailGrows(es: seq<Entry>, e: Entry)
    requires TailOf(es).Some? && e.seqNo == |es| + 1
    ensures TailOf(es + [e]) == Some(Tail(|es| + 1, e.hash))
  {
    assert (es + [e])[|es|] == e;
  }

  // ----- blank lines -------------------------------------------------------

  /** A blank line anywhere between lines changes nothing that is read. */
  lemma BlankLineIgnored(pr: Suite, before: seq<string>, blank: string, after: seq<string>)
    requires Unbroken(before + [blank] + after, '\n') && before + after != []
    requires IsBlank(blank) && |blank| < MAX_LINE
    ensures ReadFile(pr, Join(before + [blank] + after, '\n')) == ReadFile(pr, Join(before + after, '\n'))
    ensures TailOfFile(pr, Join(before + [blank] + after, '\n')) == TailOfFile(pr, Join(before + after, '\n'))
  {
    assert Unbroken(before + after, '\n') by {
      forall i | 0 <= i < |before + after| ensures '\n' !in (before + after)[i] {
        var all := before + [blank] + after;
        assert (before + after)[i] == all[if i < |before| then i else i + 1];
      }
    }
    SplitJoin(before + [blank] + after, '\n');
    SplitJoin(before + after, '\n');
    ReadOne(pr, blank);
    ReadLinesConcat(pr, before, after);
    ReadLinesConcat(pr, before, [blank]);
    ReadLinesConcat(pr, before + [blank], after);
    if ReadLines(pr, before).Some? {
      assert ReadLines(pr, before).value + [] == ReadLines(pr, before).value;
    }
  }
}
