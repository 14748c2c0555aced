/** The laws asked of the library code hold together: a simple quoted encoding meets them all. */
module Codecs {
  import opened Common
  import opened Primitives

  // ----- fields ------------------------------------------------------------

  /** The bytes a field must not contain; the i-th letter of the alphabet stands for the i-th of them. */
  const SPECIAL := [' ', '\t', '\n', '\U{0B}', '\U{0C}', '\r', '"', '{', '}', '\\']

  function Place(s: string, c: char): (i: nat)
    ensures i <= |s|
    ensures i < |s| ==> s[i] == c
    ensures i == |s| ==> c !in s
  {
    if s == "" || s[0] == c then 0 else 1 + Place(s[1..], c)
  }

  function Quote(s: string): string {
    if s == "" then ""
    else
      var i := Place(SPECIAL, s[0]);
      (if i < |SPECIAL| then ['\\', ('a' as int + i) as char] else [s[0]]) + Quote(s[1..])
  }

  function Unquote(s: string): string {
    if s == "" then ""
    else if s[0] == '\\' && |s| > 1 then
      var i := s[1] as int - 'a' as int;
      [if 0 <= i < |SPECIAL| then SPECIAL[i] else s[1]] + Unquote(s[2..])
    else [s[0]] + Unquote(s[1..])
  }

  /** No white space, quote or brace. */
  predicate Plain(s: string) { forall i :: 0 <= i < |s| ==> PlainByte(s[i]) }

  predicate PlainByte(c: char) { !IsSpace(c) && c != '"' && c != '{' && c != '}' }

  lemma {:induction false} QuoteBack(s: string)
    ensures Plain(Quote(s)) && Unquote(Quote(s)) == s
  {
    if s != "" {
      QuoteBack(s[1..]);
      var i, q := Place(SPECIAL, s[0]), Quote(s[1..]);
      if i < |SPECIAL| {
        assert Quote(s)[2..] == q;
      } else {
        assert forall j :: 0 <= j < |SPECIAL| ==> s[0] != SPECIAL[j];
        assert SPECIAL[9] == '\\' && SPECIAL[6] == '"' && SPECIAL[7] == '{' && SPECIAL[8] == '}';
        assert forall j :: 0 <= j < 6 ==> s[0] != SPECIAL[j];
        assert Quote(s)[1..] == q;
      }
    }
  }

  /** A whole number in unary. */
  function IntText(i: int): string { if i >= 0 then ['+'] + Ones(i) else ['-'] + Ones(-i) }

  function Ones(n: nat): (s: string)
    ensures |s| == n && Plain(s)
  {
    if n == 0 then "" else ['1'] + Ones(n - 1)
  }

  // ----- documents ---------------------------------------------------------

  function Braced(fields: seq<string>): string
    requires |fields| > 0
  {
    ['{'] + Join(fields, '"') + ['}']
  }

  ghost predicate AllPlain(fields: seq<string>) { forall i :: 0 <= i < |fields| ==> Plain(fields[i]) }

  /** Text in one pair of braces. */
  predicate Enclosed(t: string) {
    && |t| >= 2 && t[0] == '{' && t[|t| - 1] == '}'
    && forall i :: 0 < i < |t| - 1 ==> !IsSpace(t[i]) && t[i] != '{' && t[i] != '}'
  }

  lemma {:induction false} JoinClean(fields: seq<string>)
    requires |fields| > 0 && AllPlain(fields)
    ensures forall i :: 0 <= i < |Join(fields, '"')| ==>
              !IsSpace(Join(fields, '"')[i]) && Join(fields, '"')[i] != '{' && Join(fields, '"')[i] != '}'
  {
    if |fields| > 1 {
      JoinClean(fields[1..]);
    }
  }

  lemma BracedEncloses(fields: seq<string>)
    requires |fields| > 0 && AllPlain(fields)
    ensures Enclosed(Braced(fields))
  {
    JoinClean(fields);
  }

  lemma BracedInjective(a: seq<string>, b: seq<string>)
    requires |a| > 0 && |b| > 0 && AllPlain(a) && AllPlain(b) && Braced(a) == Braced(b)
    ensures a == b
  {
    var x, y := Join(a, '"'), Join(b, '"');
    assert Braced(a)[1..|Braced(a)| - 1] == x && Braced(b)[1..|Braced(b)| - 1] == y;
    SplitJoin(a, '"');
    SplitJoin(b, '"');
  }

  function Quoted(texts: seq<string>): seq<string> {
    seq(|texts|, i requires 0 <= i < |texts| => Quote(texts[i]))
  }

  /** A number and some texts as one document. */
  function Document(n: int, texts: seq<string>): string { Braced([IntText(n)] + Quoted(texts)) }

  lemma DocumentEncloses(n: int, texts: seq<string>)
    ensures AllPlain([IntText(n)] + Quoted(texts)) && Enclosed(Document(n, texts))
  {
    forall i | 0 <= i < |texts| ensures Plain(Quoted(texts)[i]) {
      QuoteBack(texts[i]);
    }
    BracedEncloses([IntText(n)] + Quoted(texts));
  }

  lemma DocumentInjective(n: int, s: seq<string>, m: int, t: seq<string>)
    requires Document(n, s) == Document(m, t)
    ensures n == m && s == t
  {
    var a, b := [IntText(n)] + Quoted(s), [IntText(m)] + Quoted(t);
    DocumentEncloses(n, s);
    DocumentEncloses(m, t);
    BracedInjective(a, b);
    assert a[0] == b[0] && a[1..] == Quoted(s) && b[1..] == Quoted(t);
    assert IntText(n)[0] == IntText(m)[0] && |IntText(n)| == |IntText(m)|;
    forall i | 0 <= i < |s| ensures s[i] == t[i] {
      QuoteBack(s[i]);
      QuoteBack(t[i]);
      assert Quoted(s)[i] == Quoted(t)[i];
    }
  }

  // ----- the three kinds of document ---------------------------------------

  function EntryText(e: Entry): string {
    var d := e.draft;
    Document(e.seqNo, [d.time, d.actor, d.action, d.key, d.artifact, d.digest, d.reason, e.prev, e.hash])
  }

  ghost function EntryOf(t: string): Option<Entry> {
    if exists e :: EntryText(e) == t then
      var e :| EntryText(e) == t;
      Some(e)
    else None
  }

  function PayloadText(p: Payload): string {
    Document(p.size, [p.schema, p.artifact, p.digest, p.key, p.keyFP, p.caller, p.signedAt])
  }

  ghost function PayloadOf(t: string): Option<Payload> {
    if exists p :: PayloadText(p) == t then
      var p :| PayloadText(p) == t;
      Some(p)
    else None
  }

  function EnvelopeText(e: Envelope): string { Document(0, [e.schema, e.payload, e.publicKey, e.signature]) }

  ghost function EnvelopeOf(t: string): Option<Envelope> {
    if exists e :: EnvelopeText(e) == t then
      var e :| EnvelopeText(e) == t;
      Some(e)
    else None
  }

  lemma EntryBack(e: Entry)
    ensures EntryOf(EntryText(e)) == Some(e) && Enclosed(EntryText(e))
  {
    var f := EntryOf(EntryText(e)).value;
    var d, c := e.draft, f.draft;
    DocumentEncloses(e.seqNo, [d.time, d.actor, d.action, d.key, d.artifact, d.digest, d.reason, e.prev, e.hash]);
    DocumentInjective(e.seqNo, [d.time, d.actor, d.action, d.key, d.artifact, d.digest, d.reason, e.prev, e.hash],
                      f.seqNo, [c.time, c.actor, c.action, c.key, c.artifact, c.digest, c.reason, f.prev, f.hash]);
    var x := [d.time, d.actor, d.action, d.key, d.artifact, d.digest, d.reason, e.prev, e.hash];
    var y := [c.time, c.actor, c.action, c.key, c.artifact, c.digest, c.reason, f.prev, f.hash];
    assert forall i :: 0 <= i < 9 ==> x[i] == y[i];
    assert x[0] == y[0] && x[1] == y[1] && x[2] == y[2] && x[3] == y[3] && x[4] == y[4];
    assert x[5] == y[5] && x[6] == y[6] && x[7] == y[7] && x[8] == y[8];
  }

  lemma PayloadBack(p: Payload)
    ensures PayloadOf(PayloadText(p)) == Some(p)
  {
    var q := PayloadOf(PayloadText(p)).value;
    var x := [p.schema, p.artifact, p.digest, p.key, p.keyFP, p.caller, p.signedAt];
    var y := [q.schema, q.artifact, q.digest, q.key, q.keyFP, q.caller, q.signedAt];
    DocumentInjective(p.size, x, q.size, y);
    assert x[0] == y[0] && x[1] == y[1] && x[2] == y[2] && x[3] == y[3];
    assert x[4] == y[4] && x[5] == y[5] && x[6] == y[6];
  }

  lemma EnvelopeBack(e: Envelope)
    ensures EnvelopeOf(EnvelopeText(e)) == Some(e)
  {
    var f := EnvelopeOf(EnvelopeText(e)).value;
    var x, y := [e.schema, e.payload, e.publicKey, e.signature], [f.schema, f.payload, f.publicKey, f.signature];
    DocumentInjective(0, x, 0, y);
    assert x[0] == y[0] && x[1] == y[1] && x[2] == y[2] && x[3] == y[3];
  }

  // ----- the laws ----------------------------------------------------------

  /** Only enclosed text decodes. */
  lemma DecodesEnclosed(t: string)
    requires EntryOf(t).Some?
    ensures Enclosed(t)
  {
    var e :| EntryText(e) == t;
    EntryBack(e);
  }

  /** An entry cut short does not decode. */
  lemma CutUndecodable(t: string, n: nat)
    requires Enclosed(t) && 0 < n < |t|
    ensures EntryOf(TrimSpace(t[..n])) == None
  {
    TrimNothing(t[..n]);
    if EntryOf(t[..n]).Some? {
      DecodesEnclosed(t[..n]);
    }
  }

  lemma {:induction false} TrimRightPrefix(s: string)
    ensures TrimRight(s) <= s
  {
    if s != "" && IsSpace(s[|s| - 1]) {
      TrimRightPrefix(s[..|s| - 1]);
    }
  }

  lemma TrimRunOn(x: string, t: string)
    requires TrimLeft(x) != "" && t != "" && !IsSpace(t[|t| - 1])
    ensures TrimSpace(x + t) == TrimLeft(x) + t
  {
    var left := TrimLeft(x);
    var blank := TrimLeftSuffix(x);
    var all := left + t;
    assert x + t == blank + all;
    assert all[0] == left[0] && all[|all| - 1] == t[|t| - 1];
    TrimAfterBlank(blank, all);
    TrimNothing(all);
  }

  /** Text that goes on behind a closing brace is not enclosed. */
  lemma RunOnNotEnclosed(s: string, left: string, t: string)
    requires Enclosed(s) && s <= left && t != ""
    ensures !Enclosed(left + t)
  {
    assert (left + t)[|s| - 1] == '}';
  }

  /** An entry, or the beginning of one, behind another does not decode. */
  lemma RunOnUndecodable(x: string, text: string, n: nat)
    requires EntryOf(TrimSpace(x)).Some? && Enclosed(text) && 0 < n <= |text|
    ensures EntryOf(TrimSpace(x + text[..n])) == None
  {
    var t := text[..n];
    DecodesEnclosed(TrimSpace(x));
    TrimRightPrefix(TrimLeft(x));
    RunOnNotEnclosed(TrimSpace(x), TrimLeft(x), t);
    TrimRunOn(x, t);
    if EntryOf(TrimLeft(x) + t).Some? {
      DecodesEnclosed(TrimLeft(x) + t);
    }
  }

  function FirstHalf(priv: string): string { if |priv| >= PUBLIC_KEY_SIZE then priv[..PUBLIC_KEY_SIZE] else priv }

  ghost function Quoting(): Suite {
    Suite(
      (x: string) => x, (x: string) => x, (x: string) => Some(x),
      (x: string) => x, (x: string) => Some(x), (x: string) => x, (x: string) => Some(x),
      (e: Entry) => EntryText(e), (t: string) => EntryOf(t),
      (p: Payload) => PayloadText(p), (t: string) => PayloadOf(t),
      (e: Envelope) => EnvelopeText(e), (t: string) => EnvelopeOf(t),
      (priv: string) => FirstHalf(priv), (priv: string, text: string) => text, (pub: string, text: string, sig: string) => sig == text,
      (t: string) => None, (now: int) => "")
  }

  /** Some library satisfies every law assumed anywhere in this project. */
  lemma LawsHoldTogether()
    ensures exists pr: Suite :: CodecLaws(pr) && EntryLaws(pr) && SignatureLaws(pr)
  {
    var pr := Quoting();
    forall p: Payload ensures pr.readPayload(pr.payloadJSON(p)) == Some(p) {
      PayloadBack(p);
    }
    forall e: Envelope ensures pr.readEnvelope(pr.envelopeJSON(e)) == Some(e) {
      EnvelopeBack(e);
    }
    forall e: Entry ensures Encodes(pr, e) {
      EntryBack(e);
      TrimNothing(EntryText(e));
    }
    forall e: Entry, n: nat | 0 < n < |pr.entryJSON(e)| ensures pr.readEntry(TrimSpace(pr.entryJSON(e)[..n])) == None {
      EntryBack(e);
      CutUndecodable(EntryText(e), n);
    }
    forall x: string, e: Entry, n: nat | 0 < n <= |pr.entryJSON(e)| && pr.readEntry(TrimSpace(x)).Some?
      ensures pr.readEntry(TrimSpace(x + pr.entryJSON(e)[..n])) == None
    {
      EntryBack(e);
      RunOnUndecodable(x, EntryText(e), n);
    }
    assert CodecLaws(pr) && EntryLaws(pr) && SignatureLaws(pr);
  }
}
