/** Detached signatures: internal/envelope/envelope.go and the offline check of internal/cli/verify.go. */
module Envelopes {
  import opened Common
  import opened Primitives

  const PAYLOAD_SCHEMA := "signbooth-payload/v1"
  const ENVELOPE_SCHEMA := "signbooth-envelope/v1"
  const DIGEST_PREFIX := "sha256:"
  const FINGERPRINT_PREFIX := "SHA256:"

  /** Separates signbooth signatures from every other use of the key. */
  const DOMAIN := ENVELOPE_SCHEMA + "\0"

  function Fingerprint(pr: Suite, pub: string): string {
    FINGERPRINT_PREFIX + pr.rawBase64(pr.sha256(pub))
  }

  /** `sha256:` and 64 lower-case hex digits. */
  predicate ValidDigest(s: string) {
    && DIGEST_PREFIX <= s
    && |s| == |DIGEST_PREFIX| + 64
    && forall i :: |DIGEST_PREFIX| <= i < |s| ==> '0' <= s[i] <= '9' || 'a' <= s[i] <= 'f'
  }

  /** `HashFile`: the digest reference of some bytes. */
  function FileDigest(pr: Suite, bytes: string): string {
    DIGEST_PREFIX + pr.hex(pr.sha256(bytes))
  }

  datatype SignError = WrongKeyLength | MalformedDigest

  /** The payload that is really signed: schema and fingerprint are not the caller's to choose. */
  function Filled(pr: Suite, pub: string, p: Payload): Payload {
    p.(schema := PAYLOAD_SCHEMA, keyFP := Fingerprint(pr, pub))
  }

  /** The text an Ed25519 signature covers. */
  function SignedText(pr: Suite, p: Payload): string { DOMAIN + pr.payloadJSON(p) }

  /** `Sign`. */
  function Sign(pr: Suite, priv: string, p: Payload): Result<Envelope, SignError> {
    if |priv| != PRIVATE_KEY_SIZE then Err(WrongKeyLength)
    else
      var pub := pr.publicHalf(priv);
      if !ValidDigest(p.digest) then Err(MalformedDigest)
      else
        var raw := pr.payloadJSON(Filled(pr, pub, p));
        Ok(Envelope(
             ENVELOPE_SCHEMA,
             pr.base64(raw),
             pr.base64(pub),
             pr.base64(pr.sign(priv, DOMAIN + raw))))
  }

  datatype OpenError =
    | BadSchema | BadPayloadText | BadKeyText | BadKeySize | BadSignatureText | NotSigned
    | BadPayload | BadPayloadSchema | BadDigest | WrongKeyNamed

  /** `Open`: everything but the identity of the key. */
  function Open(pr: Suite, signed: set<Message>, env: Envelope): Result<Payload, OpenError> {
    if env.schema != ENVELOPE_SCHEMA then Err(BadSchema)
    else match pr.unbase64(env.payload)
      case None => Err(BadPayloadText)
      case Some(raw) =>
        match pr.unbase64(env.publicKey)
        case None => Err(BadKeyText)
        case Some(pub) =>
          if |pub| != PUBLIC_KEY_SIZE then Err(BadKeySize)
          else match pr.unbase64(env.signature)
            case None => Err(BadSignatureText)
            case Some(sig) =>
              if !Verifies(pr, signed, pub, DOMAIN + raw, sig) then Err(NotSigned)
              else match pr.readPayload(raw)
                case None => Err(BadPayload)
                case Some(p) =>
                  if p.schema != PAYLOAD_SCHEMA then Err(BadPayloadSchema)
                  else if !ValidDigest(p.digest) then Err(BadDigest)
                  else if Fingerprint(pr, pub) != p.keyFP then Err(WrongKeyNamed)
                  else Ok(p)
  }

  /** The fingerprint of the embedded key. */
  function EmbeddedFingerprint(pr: Suite, env: Envelope): Option<string> {
    match pr.unbase64(env.publicKey)
    case None => None
    case Some(pub) => if |pub| != PUBLIC_KEY_SIZE then None else Some(Fingerprint(pr, pub))
  }

  /** `Pin` succeeds. */
  predicate Pinned(pr: Suite, env: Envelope, fingerprint: string) {
    EmbeddedFingerprint(pr, env) == Some(fingerprint)
  }

  /** `CheckFile` succeeds on a file with these bytes. */
  predicate FileChecks(pr: Suite, p: Payload, bytes: string) {
    FileDigest(pr, bytes) == p.digest && |bytes| == p.size
  }

  /** How the verifier is told which key to trust. */
  datatype Trust = NotExactlyOne | BadKeyFile | KeyFile(pub: string) | Print(fingerprint: string)

  datatype Outcome = UsageError | RuntimeError | Failed | Verified(payload: Payload)

  /** `signbooth verify`: the sidecar file and the artifact are None when unreadable. */
  function CmdVerify(pr: Suite, signed: set<Message>, trust: Trust, sidecar: Option<string>, artifact: Option<string>): Outcome {
    if trust.NotExactlyOne? then UsageError
    else if trust.BadKeyFile? then RuntimeError
    else if trust.Print? && !(FINGERPRINT_PREFIX <= trust.fingerprint) then UsageError
    else
      var pin := TrustedPrint(pr, trust);
      match sidecar
      case None => RuntimeError
      case Some(doc) =>
        match pr.readEnvelope(doc)
        case None => Failed
        case Some(env) =>
          match Open(pr, signed, env)
          case Err(_) => Failed
          case Ok(p) =>
            if !Pinned(pr, env, pin) then Failed
            else if artifact.None? || !FileChecks(pr, p, artifact.value) then Failed
            else Verified(p)
  }

  function TrustedPrint(pr: Suite, trust: Trust): string
    requires trust.KeyFile? || trust.Print?
  {
    if trust.KeyFile? then Fingerprint(pr, trust.pub) else trust.fingerprint
  }

  // ----- exactly what is accepted -------------------------------------------

  /** The statement is one signbooth makes, about the key it was signed with. */
  ghost predicate Sound(pr: Suite, p: Payload, pub: string) {
    && p.schema == "signbooth-payload/v1"
    && |p.digest| == 71 && p.digest[..7] == "sha256:"
    && (forall i :: 7 <= i < 71 ==> 48 <= p.digest[i] as int <= 57 || 97 <= p.digest[i] as int <= 102)
    && p.keyFP == "SHA256:" + pr.rawBase64(pr.sha256(pub))
  }

  /** The envelope carries this text, key and signature; the key really signed the text, behind the domain. */
  ghost predicate Carries(pr: Suite, signed: set<Message>, env: Envelope, raw: string, pub: string, sig: string) {
    && env.schema == "signbooth-envelope/v1"
    && pr.unbase64(env.payload) == Some(raw) && pr.unbase64(env.publicKey) == Some(pub) && pr.unbase64(env.signature) == Some(sig)
    && |pub| == 32
    && Message(pub, "signbooth-envelope/v1\0" + raw) in signed
    && pr.wellMade(pub, "signbooth-envelope/v1\0" + raw, sig)
  }

  ghost predicate Opens(pr: Suite, signed: set<Message>, env: Envelope, p: Payload) {
    exists raw, pub, sig :: Carries(pr, signed, env, raw, pub, sig) && pr.readPayload(raw) == Some(p) && Sound(pr, p, pub)
  }

  /** 71 bytes: a prefix and 64 digits of lower-case hex. */
  lemma DigestExact(s: string)
    ensures ValidDigest(s) <==>
            && |s| == 71 && s[..7] == "sha256:"
            && forall i :: 7 <= i < 71 ==> 48 <= s[i] as int <= 57 || 97 <= s[i] as int <= 102
  {
    if |s| == 71 && s[..7] == "sha256:" {
      assert s == "sha256:" + s[7..];
    }
  }

  /** `Open` accepts exactly that, and returns the payload the text decodes to. */
  lemma OpenExact(pr: Suite, signed: set<Message>, env: Envelope, p: Payload)
    ensures Open(pr, signed, env) == Ok(p) <==> Opens(pr, signed, env, p)
  {
    DigestExact(p.digest);
    assert DOMAIN == "signbooth-envelope/v1\0";
    if Open(pr, signed, env) == Ok(p) {
      var raw, pub, sig := pr.unbase64(env.payload).value, pr.unbase64(env.publicKey).value, pr.unbase64(env.signature).value;
      assert Carries(pr, signed, env, raw, pub, sig) && Sound(pr, p, pub);
    }
    if Opens(pr, signed, env, p) {
      var raw, pub, sig :| Carries(pr, signed, env, raw, pub, sig) && pr.readPayload(raw) == Some(p) && Sound(pr, p, pub);
      assert Fingerprint(pr, pub) == p.keyFP;
    }
  }

  /** The trust names one key, in the way the command line asks for it. */
  ghost predicate Trusts(pr: Suite, trust: Trust, fp: string) {
    match trust
    case NotExactlyOne => false
    case BadKeyFile => false
    case KeyFile(pub) => fp == "SHA256:" + pr.rawBase64(pr.sha256(pub))
    case Print(fingerprint) => fp == fingerprint && |fp| >= 7 && fp[..7] == "SHA256:"
  }

  /** `signbooth verify` accepts exactly when the sidecar decodes to an envelope that opens, to a payload that names the
      trusted key and the artifact's digest and length. */
  lemma VerifiedExact(pr: Suite, signed: set<Message>, trust: Trust, sidecar: Option<string>, artifact: Option<string>, p: Payload)
    ensures CmdVerify(pr, signed, trust, sidecar, artifact) == Verified(p) <==>
            && Trusts(pr, trust, p.keyFP)
            && sidecar.Some? && pr.readEnvelope(sidecar.value).Some?
            && Opens(pr, signed, pr.readEnvelope(sidecar.value).value, p)
            && artifact.Some? && p.digest == "sha256:" + pr.hex(pr.sha256(artifact.value)) && p.size == |artifact.value|
  {
    PrefixExact(trust);
    if sidecar.Some? && pr.readEnvelope(sidecar.value).Some? {
      var env := pr.readEnvelope(sidecar.value).value;
      OpenExact(pr, signed, env, p);
      if Open(pr, signed, env).Ok? {
        PinExact(pr, signed, env, if trust.KeyFile? || trust.Print? then TrustedPrint(pr, trust) else "");
      }
    }
  }

  lemma PrefixExact(trust: Trust)
    ensures trust.Print? ==>
              (FINGERPRINT_PREFIX <= trust.fingerprint <==> |trust.fingerprint| >= 7 && trust.fingerprint[..7] == "SHA256:")
  {
  }

  /** Why it refuses: how it was called, what it could not read, or what does not verify. */
  lemma RefusedExact(pr: Suite, signed: set<Message>, trust: Trust, sidecar: Option<string>, artifact: Option<string>)
    ensures var r := CmdVerify(pr, signed, trust, sidecar, artifact);
            && (r.UsageError? <==> trust.NotExactlyOne? || (trust.Print? && !Trusts(pr, trust, trust.fingerprint)))
            && (r.RuntimeError? <==> trust.BadKeyFile? || (sidecar.None? && exists fp :: Trusts(pr, trust, fp)))
  {
    PrefixExact(trust);
    if trust.KeyFile? {
      assert Trusts(pr, trust, Fingerprint(pr, trust.pub));
    } else if trust.Print? && FINGERPRINT_PREFIX <= trust.fingerprint {
      assert Trusts(pr, trust, trust.fingerprint);
    }
  }

  // ----- results -----------------------------------------------------------

  /** A fresh signature opens to the payload with schema and fingerprint filled in; only a key of the
      wrong length or a malformed digest is refused. */
  lemma SignThenOpen(pr: Suite, signed: set<Message>, priv: string, p: Payload)
    requires CodecLaws(pr) && SignatureLaws(pr)
    ensures Sign(pr, priv, p).Ok? <==> |priv| == 64 && ValidDigest(p.digest)
    ensures Sign(pr, priv, p).Ok? ==>
              var pub := pr.publicHalf(priv);
              var env, full := Sign(pr, priv, p).value, Filled(pr, pub, p);
              && (Message(pub, SignedText(pr, full)) in signed ==> Open(pr, signed, env) == Ok(full))
              && EmbeddedFingerprint(pr, env) == Some(Fingerprint(pr, pub))
              && pr.readEnvelope(pr.envelopeJSON(env)) == Some(env)
  {
    if Sign(pr, priv, p).Ok? {
      var pub := pr.publicHalf(priv);
      var full := Filled(pr, pub, p);
      var raw := pr.payloadJSON(full);
      assert pr.unbase64(pr.base64(raw)) == Some(raw);
      assert pr.unbase64(pr.base64(pub)) == Some(pub);
      assert pr.unbase64(pr.base64(pr.sign(priv, DOMAIN + raw))) == Some(pr.sign(priv, DOMAIN + raw));
      assert pr.readPayload(raw) == Some(full);
    }
  }

  /** For any envelope that opens, pinning succeeds exactly for the fingerprint the payload names. */
  lemma PinExact(pr: Suite, signed: set<Message>, env: Envelope, fingerprint: string)
    requires Open(pr, signed, env).Ok?
    ensures Pinned(pr, env, fingerprint) <==> fingerprint == Open(pr, signed, env).value.keyFP
  {
  }

  /** Keys with one fingerprint are one key, or collide. */
  lemma FingerprintSplits(pr: Suite, a: string, b: string)
    requires CodecLaws(pr) && Fingerprint(pr, a) == Fingerprint(pr, b)
    ensures a == b || Collision(a, b).Valid(pr)
  {
    var x, y := pr.rawBase64(pr.sha256(a)), pr.rawBase64(pr.sha256(b));
    assert x == Fingerprint(pr, a)[|FINGERPRINT_PREFIX|..];
    assert y == Fingerprint(pr, b)[|FINGERPRINT_PREFIX|..];
    assert pr.unrawBase64(x) == Some(pr.sha256(a));
    assert pr.unrawBase64(y) == Some(pr.sha256(b));
  }

  /** Files with one digest are one file, or collide. */
  lemma DigestSplits(pr: Suite, a: string, b: string)
    requires CodecLaws(pr) && FileDigest(pr, a) == FileDigest(pr, b)
    ensures a == b || Collision(a, b).Valid(pr)
  {
    assert pr.hex(pr.sha256(a)) == FileDigest(pr, a)[|DIGEST_PREFIX|..];
    assert pr.hex(pr.sha256(b)) == FileDigest(pr, b)[|DIGEST_PREFIX|..];
    HexDigestSplits(pr, a, b);
  }

  /** An accepted file was vouched for: the trusted key really signed a statement that names that key
      and this file's digest and length; or the embedded and the trusted key collide. */
  lemma AcceptanceMeansSigned(pr: Suite, signed: set<Message>, trust: Trust, pub: string, sidecar: Option<string>, artifact: Option<string>)
    returns (raw: string, clash: Option<Collision>)
    requires CodecLaws(pr)
    requires CmdVerify(pr, signed, trust, sidecar, artifact).Verified?
    requires TrustedPrint(pr, trust) == Fingerprint(pr, pub)
    ensures var p := CmdVerify(pr, signed, trust, sidecar, artifact).payload;
            && artifact.Some? && FileChecks(pr, p, artifact.value) && p.keyFP == Fingerprint(pr, pub)
            && (clash == None ==> pr.readPayload(raw) == Some(p) && Message(pub, DOMAIN + raw) in signed)
            && (clash.Some? ==> clash.value.Valid(pr))
  {
    var env := pr.readEnvelope(sidecar.value).value;
    var key := pr.unbase64(env.publicKey).value;
    raw := pr.unbase64(env.payload).value;
    FingerprintSplits(pr, key, pub);
    clash := if key == pub then None else Some(Collision(key, pub));
  }

  /** Tampering shows: one sidecar accepted, under any trust, for two artifacts means the artifacts are equal
      or collide. */
  lemma OneSidecarOneFile(pr: Suite, signed: set<Message>, t1: Trust, t2: Trust, sidecar: Option<string>, a: string, b: string)
    requires CodecLaws(pr)
    requires CmdVerify(pr, signed, t1, sidecar, Some(a)).Verified? && CmdVerify(pr, signed, t2, sidecar, Some(b)).Verified?
    ensures a == b || Collision(a, b).Valid(pr)
    ensures TrustedPrint(pr, t1) == TrustedPrint(pr, t2)
  {
    DigestSplits(pr, a, b);
  }
}
