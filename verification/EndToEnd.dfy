/** What an offline check says about the daemon's past, and what the daemon's answers are good for. */
module EndToEnd {
  import opened Common
  import opened Primitives
  import opened Policy
  import opened Envelopes
  import Booth
  import opened Daemon
  import opened DaemonTrace
  import opened DaemonSound

  /** This grant accounts for a file: signed under `pub` for exactly these bytes, by a caller who had
      authenticated and was entitled to sign a file of this length under this name. */
  ghost predicate Justifies(pr: Suite, r: Trace, n: nat, g: Ticket, pub: string, bytes: string, p: Payload)
    requires n <= |r.evs| < |r.worlds|
  {
    && g in r.worlds[n].grants
    && WasSigned(pr, r, n, g)
    && pr.publicHalf(g.priv) == pub
    && p == Filled(pr, pub, PayloadOf(pr, g))
    && p.schema == "signbooth-payload/v1" && p.keyFP == "SHA256:" + pr.rawBase64(pr.sha256(pub))
    && p.artifact == g.body.value.artifact && p.digest == g.body.value.digest && p.size == g.body.value.size == |bytes|
    && p.key == g.body.value.key && p.caller == g.caller.name && p.signedAt == pr.showTime(g.now)
    && g.body.value.digest == FileDigest(pr, bytes)
    && Entitled(pr.readTime, g.caller, Request(g.body.value.key, g.body.value.artifact, |bytes|), g.now)
  }

  /** End to end: at any moment of any run, when the offline check accepts a file under the print of one
      of the booth's keys, an earlier grant accounts for it, real length and all, although the daemon
      only ever saw a claimed digest and size; or two inputs with one SHA-256 are at hand. */
  lemma AcceptedMeansGranted(
      pr: Suite, r: Trace, n: nat, trust: Trust, pub: string, sidecar: Option<string>, bytes: string)
    returns (grant: Option<Ticket>, clash: Option<Collision>)
    requires CodecLaws(pr) && IsRun(pr, r) && n <= |r.evs| && pub in r.worlds[n].boothKeys
    requires CmdVerify(pr, r.worlds[n].signed, trust, sidecar, Some(bytes)).Verified?
    requires TrustedPrint(pr, trust) == Fingerprint(pr, pub)
    ensures grant.Some? || clash.Some?
    ensures clash.Some? ==> clash.value.Valid(pr)
    ensures grant.Some? ==>
              Justifies(pr, r, n, grant.value, pub, bytes,
                        CmdVerify(pr, r.worlds[n].signed, trust, sidecar, Some(bytes)).payload)
  {
    var w := r.worlds[n];
    var p := CmdVerify(pr, w.signed, trust, sidecar, Some(bytes)).payload;
    var raw;
    raw, clash := AcceptanceMeansSigned(pr, w.signed, trust, pub, sidecar, Some(bytes));
    grant := None;
    if clash == None {
      AlwaysSound(pr, r, n);
      AlwaysTraced(pr, r, n);
      var g := GrantBehind(pr, w, pub, raw, p);
      assert Granted(pr, r, n)(g);
      EvaluateExact(pr.readTime, g.caller, PolicyRequest(g.body.value), g.now);
      grant := Some(g);
    }
  }

  /** The grant that produced a recorded signature of a booth key. */
  lemma GrantBehind(pr: Suite, w: World, pub: string, raw: string, p: Payload) returns (g: Ticket)
    requires CodecLaws(pr) && KeysOurs(pr, w) && SignaturesAccounted(pr, w) && pub in w.boothKeys
    requires Message(pub, DOMAIN + raw) in w.signed && pr.readPayload(raw) == Some(p)
    ensures g in w.grants && g.body.Some? && pr.publicHalf(g.priv) == pub
    ensures p == Filled(pr, pub, PayloadOf(pr, g))
  {
    var m := Message(pub, DOMAIN + raw);
    assert Granting(pr, w, m);
    var i :| 0 <= i < |w.grants| && GrantGave(pr, w.grants[i], m);
    g := w.grants[i];
    var full := Filled(pr, pub, PayloadOf(pr, g));
    assert raw == (DOMAIN + raw)[|DOMAIN|..];
    assert pr.payloadJSON(full) == (DOMAIN + pr.payloadJSON(full))[|DOMAIN|..];
    assert pr.readPayload(pr.payloadJSON(full)) == Some(full);
  }

  /** And back: an envelope the daemon delivered passes the offline check, then and ever after, for
      exactly the files with the requested digest and size. */
  lemma DeliveredVerifies(pr: Suite, r: Trace, n: nat, id: nat, bytes: string)
    requires CodecLaws(pr) && SignatureLaws(pr) && IsRun(pr, r) && n <= |r.evs|
    requires id in r.worlds[n].requests && r.worlds[n].requests[id].stage.Done?
    requires r.worlds[n].requests[id].stage.response.Success?
    ensures var w := r.worlds[n]; var t, env := w.requests[id].ticket, w.requests[id].stage.response.env;
            var pub := pr.publicHalf(t.priv);
            && t.body.Some? && pub in w.boothKeys
            && CmdVerify(pr, w.signed, KeyFile(pub), Some(pr.envelopeJSON(env)), Some(bytes)) ==
               if FileDigest(pr, bytes) == t.body.value.digest && |bytes| == t.body.value.size
               then Verified(Filled(pr, pub, PayloadOf(pr, t))) else Failed
  {
    AlwaysSound(pr, r, n);
    var w := r.worlds[n];
    var t := w.requests[id].ticket;
    assert InHand(pr, w, w.requests[id]);
    SignThenOpen(pr, w.signed, t.priv, PayloadOf(pr, t));
  }

  /** Signing never fails after validation and a successful key load: the answer that goes unaudited is never given. */
  lemma NeverInternalError(pr: Suite, r: Trace, n: nat, id: nat)
    requires IsRun(pr, r) && n <= |r.evs| && id in r.worlds[n].requests
    ensures r.worlds[n].requests[id].stage != Done(InternalError)
  {
    AlwaysSound(pr, r, n);
    assert InHand(pr, r.worlds[n], r.worlds[n].requests[id]);
  }

  /** No record on disk carries this token. */
  ghost predicate Revoked(pr: Suite, file: Booth.CallersFile, token: string) {
    file.Doc? ==> forall name :: name in file.callers ==> file.callers[name].tokenSHA256 != Booth.HashToken(pr, token)
  }

  lemma NobodyKnown(pr: Suite, file: Booth.CallersFile, header: string, token: string)
    requires Revoked(pr, file, token) && Booth.BearerToken(header) == Some(token)
    ensures Booth.Authenticated(pr, file, header) == None
  {
  }

  /** Once no record carries a token, no request made with it passes authentication any more; what is
      still granted had passed before. */
  lemma RevokedGrantsNothing(pr: Suite, r: Trace, n: nat, since: nat, token: string, g: Ticket)
    requires IsRun(pr, r) && since <= n <= |r.evs|
    requires forall k :: since <= k <= n ==> Revoked(pr, r.worlds[k].callers, token)
    requires g in r.worlds[n].grants && Booth.BearerToken(g.header) == Some(token)
    ensures g.knownAt < since
  {
    AlwaysTraced(pr, r, n);
    assert Granted(pr, r, n)(g);
    assert WasKnown(pr, r, n, g);
    forall k | since <= k <= n ensures Booth.Authenticated(pr, r.worlds[k].callers, g.header) == None {
      NobodyKnown(pr, r.worlds[k].callers, g.header, token);
    }
  }
}
