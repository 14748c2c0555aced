/** The library code signbooth calls, as uninterpreted functions with the laws it relies on.

    SHA-256 carries no injectivity law: a theorem that needs one returns a
    concrete pair of inputs with equal hashes instead.
 */
module Primitives {
  import opened Common

  /** The caller-supplied part of an audit entry. */
  datatype Draft = Draft(
    time: string, actor: string, action: string, key: string,
    artifact: string, digest: string, reason: string)

  /** One audit record. */
  datatype Entry = Entry(seqNo: int, draft: Draft, prev: string, hash: string)

  /** The signed statement. */
  datatype Payload = Payload(
    schema: string, artifact: string, digest: string, size: int,
    key: string, keyFP: string, caller: string, signedAt: string)

  /** A `.sbsig` document. */
  datatype Envelope = Envelope(schema: string, payload: string, publicKey: string, signature: string)

  /** A public key and a text signed by its private half. */
  datatype Message = Message(pub: string, text: string)

  datatype Suite = Suite(
    sha256: string -> string,
    hex: string -> string,
    unhex: string -> Option<string>,
    base64: string -> string,
    unbase64: string -> Option<string>,
    rawBase64: string -> string,
    unrawBase64: string -> Option<string>,
    entryJSON: Entry -> string,
    readEntry: string -> Option<Entry>,
    payloadJSON: Payload -> string,
    readPayload: string -> Option<Payload>,
    envelopeJSON: Envelope -> string,
    readEnvelope: string -> Option<Envelope>,
    publicHalf: string -> string,                  // Ed25519: private key -> public key
    sign: (string, string) -> string,              // Ed25519: private key, text -> signature
    wellMade: (string, string, string) -> bool,    // Ed25519: public key, text, signature
    readTime: string -> Option<int>,
    showTime: int -> string
  )

  /** The size of an Ed25519 private key and public key in bytes (section 5.1.5 of RFC 8032). */
  const PRIVATE_KEY_SIZE := 64
  const PUBLIC_KEY_SIZE := 32

  /** Decoders invert encoders. Nothing is said about decoding other text. */
  ghost predicate CodecLaws(pr: Suite) {
    && (forall x: string :: pr.unhex(pr.hex(x)) == Some(x))
    && (forall x: string :: pr.unbase64(pr.base64(x)) == Some(x))
    && (forall x: string :: pr.unrawBase64(pr.rawBase64(x)) == Some(x))
    && (forall p: Payload :: pr.readPayload(pr.payloadJSON(p)) == Some(p))
    && (forall e: Envelope :: pr.readEnvelope(pr.envelopeJSON(e)) == Some(e))
  }

  /** `encoding/json` on audit entries: one line per entry, decoded back, and never a readable
      document when cut short, or when it or the beginning of it stands behind another document. */
  ghost predicate EntryLaws(pr: Suite) {
    && (forall x: string :: pr.unhex(pr.hex(x)) == Some(x))
    && (forall e: Entry :: Encodes(pr, e))
    && (forall e: Entry, n: nat :: 0 < n < |pr.entryJSON(e)| ==> pr.readEntry(TrimSpace(pr.entryJSON(e)[..n])) == None)
    && (forall x: string, e: Entry, n: nat ::
          0 < n <= |pr.entryJSON(e)| && pr.readEntry(TrimSpace(x)).Some? ==>
            pr.readEntry(TrimSpace(x + pr.entryJSON(e)[..n])) == None)
  }

  ghost predicate Encodes(pr: Suite, e: Entry) {
    var line := pr.entryJSON(e);
    && line != "" && !IsSpace(line[0])
    && '\n' !in line
    && pr.readEntry(line) == Some(e)
    && TrimSpace(line) == line
  }

  /** Ed25519: key sizes, and signatures made with a key are well made for its public half. */
  ghost predicate SignatureLaws(pr: Suite) {
    && (forall priv: string :: |priv| == PRIVATE_KEY_SIZE ==> |pr.publicHalf(priv)| == PUBLIC_KEY_SIZE)
    && (forall priv: string, text: string ::
          |priv| == PRIVATE_KEY_SIZE ==> pr.wellMade(pr.publicHalf(priv), text, pr.sign(priv, text)))
  }

  /** Ideal Ed25519 verification (sections 5.1.6 and 5.1.7 of RFC 8032): only texts that were really signed. */
  predicate Verifies(pr: Suite, signed: set<Message>, pub: string, text: string, sig: string) {
    Message(pub, text) in signed && pr.wellMade(pub, text, sig)
  }

  /** Two different inputs with the same SHA-256. */
  datatype Collision = Collision(left: string, right: string) {
    ghost predicate Valid(pr: Suite) {
      left != right && pr.sha256(left) == pr.sha256(right)
    }
  }

  /** Hex-encoded SHA-256, equal on two inputs: the same input, or a collision. */
  lemma HexDigestSplits(pr: Suite, x: string, y: string)
    requires forall t: string :: pr.unhex(pr.hex(t)) == Some(t)
    requires pr.hex(pr.sha256(x)) == pr.hex(pr.sha256(y))
    ensures x == y || Collision(x, y).Valid(pr)
  {
    assert pr.unhex(pr.hex(pr.sha256(x))) == Some(pr.sha256(x));
    assert pr.unhex(pr.hex(pr.sha256(y))) == Some(pr.sha256(y));
  }
}
