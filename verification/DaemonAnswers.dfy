/** What each request is answered, and what each answer leaves in the log, in so many words. */
module DaemonAnswers {
  import opened Common
  import opened Primitives
  import opened Policy
  import opened Envelopes
  import Keystore
  import Booth
  import opened Daemon

  // ----- which requests are malformed --------------------------------------

  /** The requests that are well formed. */
  ghost predicate WellAsked(req: SignRequest) {
    && NameSpelled(req.key)
    && 1 <= |req.artifact| <= 512
    && (forall i :: 0 <= i < |req.artifact| ==> req.artifact[i] as int >= 32 && req.artifact[i] as int != 127)
    && |req.digest| == 71 && req.digest[..7] == "sha256:"
    && (forall i :: 7 <= i < 71 ==> 48 <= req.digest[i] as int <= 57 || 97 <= req.digest[i] as int <= 102)
    && req.size >= 0
  }

  lemma RequestExact(req: SignRequest)
    ensures ValidRequest(req) <==> WellAsked(req)
  {
    NameExact(req.key);
    DigestExact(req.digest);
  }

  // ----- which requests are refused, and why -------------------------------

  /** A post of a well-formed request. */
  ghost predicate Proper(post: bool, body: Option<SignRequest>) { post && body.Some? && WellAsked(body.value) }

  /** A request is refused for its method before anything else, then as malformed, then for the first condition of the
      policy it misses; and it goes on exactly if the caller is entitled to it. */
  lemma RefusalExact(pr: Suite, post: bool, body: Option<SignRequest>, c: Caller, now: int)
    ensures var r := RefusalOf(pr, post, body, c, now);
            && (r == Some(MethodNotAllowed) <==> !post)
            && (r == Some(BadRequest) <==> post && !Proper(post, body))
            && (r == None <==>
                  Proper(post, body) &&
                  Entitled(pr.readTime, c, Request(body.value.key, body.value.artifact, body.value.size), now))
            && (r == Some(Forbidden(CallerExpired)) <==> Proper(post, body) && !Current(pr.readTime, c, now))
            && (r == Some(Forbidden(KeyNotListed)) <==>
                  Proper(post, body) && Current(pr.readTime, c, now) && !KeyListed(c, body.value.key))
            && (r == Some(Forbidden(ArtifactUnmatched)) <==>
                  && Proper(post, body) && Current(pr.readTime, c, now) && KeyListed(c, body.value.key)
                  && !ArtifactListed(c, body.value.artifact))
            && (r == Some(Forbidden(SizeExceeded)) <==>
                  && Proper(post, body) && Current(pr.readTime, c, now) && KeyListed(c, body.value.key)
                  && ArtifactListed(c, body.value.artifact) && !SizeWithin(c, body.value.size))
  {
    if body.Some? {
      RequestExact(body.value);
      EvaluateExact(pr.readTime, c, Request(body.value.key, body.value.artifact, body.value.size), now);
    }
  }

  // ----- what the log says of an answer ------------------------------------

  /** Which check a denial names. */
  datatype Check = ByPolicy(reason: Reason) | ByRate | ByKeystore

  function CheckOf(response: Response): Option<Check> {
    match response
    case Forbidden(reason) => Some(ByPolicy(reason))
    case TooManyRequests => Some(ByRate)
    case KeyUnavailable(_) => Some(ByKeystore)
    case _ => None
  }

  /** The entry says who asked for what, and what came of it. */
  ghost predicate Says(d: Draft, t: Ticket, response: Response) {
    && (response.Success? || response.Unauthorized? || CheckOf(response).Some?)
    && (response.Success? ==> d.action == "sign" && d.reason == "" && About(d, t))
    && (CheckOf(response).Some? ==> d.action == "deny" && d.reason != "" && About(d, t))
    && (response.Unauthorized? ==>
          && d.action == "auth-reject" && d.actor == "-" && d.key == "" && d.artifact == "" && d.digest == ""
          && d.reason == "unknown or malformed bearer token")
  }

  /** It names the caller, and the key, artifact and digest asked for. */
  ghost predicate About(d: Draft, t: Ticket) {
    && t.body.Some?
    && d.actor == t.caller.name
    && d.key == t.body.value.key && d.artifact == t.body.value.artifact && d.digest == t.body.value.digest
  }

  lemma AnswerSays(t: Ticket, response: Response)
    requires Audited(response) && (response.Unauthorized? || t.body.Some?)
    ensures Says(AnswerDraft(t, response), t, response)
  {
    ReasonLengths();
  }

  /** Different checks leave different reasons. */
  lemma ReasonsTellChecks(t: Ticket, u: Ticket, r: Response, q: Response)
    requires CheckOf(r).Some? && CheckOf(q).Some? && t.body.Some? && u.body.Some?
    requires AnswerDraft(t, r).reason == AnswerDraft(u, q).reason
    ensures CheckOf(r) == CheckOf(q)
  {
    ReasonLengths();
  }

  /** The lengths tell the reasons apart. */
  lemma ReasonLengths()
    ensures |ReasonText(CallerExpired)| == 14 && |ReasonText(KeyNotListed)| == 28
    ensures |ReasonText(ArtifactUnmatched)| == 35 && |ReasonText(SizeExceeded)| == 31
    ensures |"rate limit reached"| == 18 && |"key unavailable"| == 15
  {
  }
}
