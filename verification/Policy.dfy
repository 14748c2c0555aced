/** Caller records and the authorization function of internal/policy/policy.go. */
module Policy {
  import opened Common
  import Glob

  datatype Caller = Caller(
    name: string,
    tokenSHA256: string,
    createdAt: string,
    expiresAt: string,       // RFC 3339; "" means never
    keys: seq<string>,       // "*" means any key
    artifacts: seq<string>,  // glob patterns
    maxSize: int,            // <= 0 means unlimited
    ratePerHour: int         // <= 0 means unlimited
  )

  datatype Request = Request(key: string, artifact: string, size: int)

  /** Which check denied a request; the wording around it is not modelled. */
  datatype Reason = CallerExpired | KeyNotListed | ArtifactUnmatched | SizeExceeded

  datatype Decision = Allow | Deny(reason: Reason)

  /** `time.Parse(time.RFC3339, ...)`, giving an instant or failing. */
  type TimeParser = string -> Option<int>

  /** A malformed expiry counts as expired. */
  predicate Expired(parse: TimeParser, c: Caller, now: int) {
    c.expiresAt != "" &&
    match parse(c.expiresAt)
    case None => true
    case Some(t) => !(now < t)
  }

  predicate AllowsKey(c: Caller, name: string) {
    exists i :: 0 <= i < |c.keys| && (c.keys[i] == "*" || c.keys[i] == name)
  }

  predicate AllowsArtifact(c: Caller, name: string) {
    exists i :: 0 <= i < |c.artifacts| && Glob.Match(c.artifacts[i], name)
  }

  /** The policy check, in its fixed order: expiry, key, artifact, size. */
  function Evaluate(parse: TimeParser, c: Caller, req: Request, now: int): Decision {
    if Expired(parse, c, now) then Deny(CallerExpired)
    else if !AllowsKey(c, req.key) then Deny(KeyNotListed)
    else if !AllowsArtifact(c, req.artifact) then Deny(ArtifactUnmatched)
    else if c.maxSize > 0 && req.size > c.maxSize then Deny(SizeExceeded)
    else Allow
  }

  /** 1 to 64 bytes of `[a-z0-9._-]`, starting with a letter or digit. */
  predicate ValidName(s: string) {
    && 0 < |s| <= 64
    && forall i :: 0 <= i < |s| ==>
         || 'a' <= s[i] <= 'z' || '0' <= s[i] <= '9'
         || ((s[i] == '.' || s[i] == '_' || s[i] == '-') && i > 0)
  }

  /** A lower-case letter or digit, by its code. */
  predicate AlphaNumeric(c: char) { 97 <= c as int <= 122 || 48 <= c as int <= 57 }

  /** The names of keys and callers: 1 to 64 bytes, each a lower-case letter or digit or, but for the first, a hyphen,
      a full stop or an underscore. */
  ghost predicate NameSpelled(s: string) {
    && 1 <= |s| <= 64
    && AlphaNumeric(s[0])
    && forall i :: 0 <= i < |s| ==> AlphaNumeric(s[i]) || s[i] as int == 45 || s[i] as int == 46 || s[i] as int == 95
  }

  lemma NameExact(s: string)
    ensures ValidName(s) <==> NameSpelled(s)
  {
    if ValidName(s) {
      assert 'a' <= s[0] <= 'z' || '0' <= s[0] <= '9';
    }
  }

  // ----- what the decision means -------------------------------------------

  /** `now` lies before the expiry, if there is one. */
  ghost predicate Current(parse: TimeParser, c: Caller, now: int) {
    c.expiresAt == "" || (parse(c.expiresAt).Some? && now < parse(c.expiresAt).value)
  }

  ghost predicate KeyListed(c: Caller, key: string) { "*" in c.keys || key in c.keys }

  /** Some pattern of the record has the name in its glob language. */
  ghost predicate ArtifactListed(c: Caller, name: string) {
    exists pattern :: pattern in c.artifacts && Glob.InLanguage(pattern, name)
  }

  ghost predicate SizeWithin(c: Caller, size: int) { c.maxSize <= 0 || size <= c.maxSize }

  /** Every condition a grant needs. */
  ghost predicate Entitled(parse: TimeParser, c: Caller, req: Request, now: int) {
    && Current(parse, c, now)
    && KeyListed(c, req.key)
    && ArtifactListed(c, req.artifact)
    && SizeWithin(c, req.size)
  }

  lemma ArtifactsExact(c: Caller, name: string)
    ensures AllowsArtifact(c, name) <==> ArtifactListed(c, name)
  {
    forall i | 0 <= i < |c.artifacts|
      ensures Glob.Match(c.artifacts[i], name) <==> Glob.InLanguage(c.artifacts[i], name)
    {
      Glob.MatchExact(c.artifacts[i], name);
    }
    if pattern :| pattern in c.artifacts && Glob.InLanguage(pattern, name) {
      var i :| 0 <= i < |c.artifacts| && c.artifacts[i] == pattern;
      assert Glob.Match(c.artifacts[i], name);
    }
  }

  /** A request is allowed exactly when the caller is entitled to it, and a denial names the first condition missing. */
  lemma EvaluateExact(parse: TimeParser, c: Caller, req: Request, now: int)
    ensures Evaluate(parse, c, req, now) == Allow <==> Entitled(parse, c, req, now)
    ensures Evaluate(parse, c, req, now) == Deny(CallerExpired) <==> !Current(parse, c, now)
    ensures Evaluate(parse, c, req, now) == Deny(KeyNotListed) <==> Current(parse, c, now) && !KeyListed(c, req.key)
    ensures Evaluate(parse, c, req, now) == Deny(ArtifactUnmatched) <==>
            Current(parse, c, now) && KeyListed(c, req.key) && !ArtifactListed(c, req.artifact)
  {
    ArtifactsExact(c, req.artifact);
    if k :| k in c.keys && (k == "*" || k == req.key) {
      var i :| 0 <= i < |c.keys| && c.keys[i] == k;
      assert AllowsKey(c, req.key);
    }
  }

  /** `d` grants no more than `c`: earlier expiry, fewer keys, patterns and bytes. */
  ghost predicate Narrower(parse: TimeParser, d: Caller, c: Caller) {
    && (c.expiresAt != "" ==>
          d.expiresAt != "" &&
          (parse(d.expiresAt).Some? ==>
             parse(c.expiresAt).Some? && parse(d.expiresAt).value <= parse(c.expiresAt).value))
    && (forall k :: k in d.keys ==> k in c.keys || "*" in c.keys)
    && (forall p :: p in d.artifacts ==> p in c.artifacts)
    && (c.maxSize > 0 ==> 0 < d.maxSize <= c.maxSize)
  }

  /** What a narrower record allows, the wider one allows for the same request, no larger and no later. */
  lemma NarrowingSafe(parse: TimeParser, d: Caller, c: Caller, big: Request, small: Request, earlier: int, later: int)
    requires Narrower(parse, d, c)
    requires big.(size := small.size) == small && small.size <= big.size && earlier <= later
    requires Evaluate(parse, d, big, later) == Allow
    ensures Evaluate(parse, c, small, earlier) == Allow
  {
    EvaluateExact(parse, d, big, later);
    EvaluateExact(parse, c, small, earlier);
  }
}
