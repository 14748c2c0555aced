/** Caller records and their tokens: internal/booth/booth.go, and who a token authenticates as. */
module Booth {
  import opened Common
  import opened Primitives
  import opened Policy

  /** `callers.json`. */
  datatype CallersFile = Missing | Garbled | Doc(version: int, callers: map<string, Caller>)

  datatype BoothError = InvalidName | Unavailable | AlreadyExists | NoSuchCaller | SaveFailed

  /** What happens to the temporary file and its rename. */
  datatype SaveIO = Saves | WriteFails | RenameFails

  /** `HashToken`. */
  function HashToken(pr: Suite, token: string): string { pr.hex(pr.sha256(token)) }

  /** `LoadCallers`. */
  function LoadCallers(file: CallersFile): Option<map<string, Caller>> {
    if file.Doc? && file.version == 1 then Some(file.callers) else None
  }

  /** `saveCallers`: the old file, or the whole new one. */
  function SaveCallers(file: CallersFile, callers: map<string, Caller>, io: SaveIO): (CallersFile, bool) {
    if io.Saves? then (Doc(1, callers), true) else (file, false)
  }

  /** `AddCaller`, given the token `NewToken` drew. */
  function AddCaller(pr: Suite, file: CallersFile, c: Caller, token: string, io: SaveIO)
    : (CallersFile, Result<string, BoothError>)
  {
    if !ValidName(c.name) then (file, Err(InvalidName))
    else match LoadCallers(file)
      case None => (file, Err(Unavailable))
      case Some(callers) =>
        if c.name in callers then (file, Err(AlreadyExists))
        else
          var (after, ok) := SaveCallers(file, callers[c.name := c.(tokenSHA256 := HashToken(pr, token))], io);
          (after, if ok then Ok(token) else Err(SaveFailed))
  }

  /** `RemoveCaller`. */
  function RemoveCaller(file: CallersFile, name: string, io: SaveIO): (CallersFile, Result<(), BoothError>) {
    match LoadCallers(file)
    case None => (file, Err(Unavailable))
    case Some(callers) =>
      if name !in callers then (file, Err(NoSuchCaller))
      else
        var (after, ok) := SaveCallers(file, callers - {name}, io);
        (after, if ok then Ok(()) else Err(SaveFailed))
  }

  /** The home directory's caller registry. */
  class Registry {
    var file: CallersFile
    var tmp: CallersFile

    constructor ()
      ensures file == Doc(1, map[])
    {
      file, tmp := Doc(1, map[]), Missing;
    }

    /** Write the temporary file, then rename it over the real one. */
    method Save(callers: map<string, Caller>, io: SaveIO) returns (ok: bool)
      modifies this
      ensures (file, ok) == SaveCallers(old(file), callers, io)
    {
      if io.WriteFails? {
        tmp := Garbled;
        return false;
      }
      tmp := Doc(1, callers);
      if io.RenameFails? {
        return false;
      }
      file, tmp := tmp, Missing;
      return true;
    }

    method Add(pr: Suite, c: Caller, token: string, io: SaveIO) returns (r: Result<string, BoothError>)
      modifies this
      ensures (file, r) == AddCaller(pr, old(file), c, token, io)
    {
      if !ValidName(c.name) {
        return Err(InvalidName);
      }
      var loaded := LoadCallers(file);
      if loaded.None? {
        return Err(Unavailable);
      }
      var callers := loaded.value;
      if c.name in callers {
        return Err(AlreadyExists);
      }
      var hash := HashToken(pr, token);
      callers := callers[c.name := c.(tokenSHA256 := hash)];
      var ok := Save(callers, io);
      if !ok {
        return Err(SaveFailed);
      }
      return Ok(token);
    }

    method Remove(name: string, io: SaveIO) returns (r: Result<(), BoothError>)
      modifies this
      ensures (file, r) == RemoveCaller(old(file), name, io)
    {
      var loaded := LoadCallers(file);
      if loaded.None? {
        return Err(Unavailable);
      }
      var callers := loaded.value;
      if name !in callers {
        return Err(NoSuchCaller);
      }
      callers := callers - {name};
      var ok := Save(callers, io);
      if !ok {
        return Err(SaveFailed);
      }
      return Ok(());
    }
  }

  // ----- authentication ----------------------------------------------------

  /** The token of an `Authorization` header. */
  function BearerToken(header: string): Option<string> {
    if "Bearer " <= header && header != "Bearer " then Some(header[|"Bearer "|..]) else None
  }

  /** `name` is the one record carrying this hash. */
  ghost predicate OnlyHolder(callers: map<string, Caller>, hash: string, name: string) {
    && name in callers && callers[name].tokenSHA256 == hash
    && forall other :: other in callers && callers[other].tokenSHA256 == hash ==> other == name
  }

  /** Who a hash stands for: the record of its only holder, under the name it is filed by. */
  ghost function HolderOf(callers: map<string, Caller>, hash: string): Option<Caller> {
    if exists name :: OnlyHolder(callers, hash, name) then
      var name :| OnlyHolder(callers, hash, name);
      Some(callers[name].(name := name))
    else None
  }

  /** Who a request authenticates as. */
  ghost function Authenticated(pr: Suite, file: CallersFile, header: string): Option<Caller> {
    match BearerToken(header)
    case None => None
    case Some(token) =>
      match LoadCallers(file)
      case None => None
      case Some(callers) => HolderOf(callers, HashToken(pr, token))
  }

  /** `authenticate`: looks at every record, in whatever order the map yields them. */
  method Authenticate(pr: Suite, file: CallersFile, header: string) returns (r: Option<Caller>)
    ensures r == Authenticated(pr, file, header)
  {
    var token := BearerToken(header);
    if token.None? {
      return None;
    }
    var loaded := LoadCallers(file);
    if loaded.None? {
      return None;
    }
    var callers := loaded.value;
    var presented := HashToken(pr, token.value);
    var matched: Option<Caller> := None;
    var found := 0;
    ghost var hit := "";
    var left := callers.Keys;
    while left != {}
      invariant left <= callers.Keys
      invariant found >= 0
      invariant found == 0 <==> forall n :: n in callers && n !in left ==> callers[n].tokenSHA256 != presented
      invariant found >= 1 ==> hit in callers && hit !in left && callers[hit].tokenSHA256 == presented
      invariant found == 1 ==> matched == Some(callers[hit].(name := hit))
      invariant found == 1 ==> forall n :: n in callers && n !in left && callers[n].tokenSHA256 == presented ==> n == hit
      invariant found > 1 ==> exists n, m :: n != m && Both(callers, presented, n, m)
      decreases |left|
    {
      var name :| name in left;
      left := left - {name};
      var c := callers[name];
      if presented == c.tokenSHA256 {
        assert found >= 1 ==> Both(callers, presented, hit, name);
        matched := Some(c.(name := name));
        hit := name;
        found := found + 1;
      }
    }
    if found != 1 {
      return None;
    }
    assert OnlyHolder(callers, presented, hit);
    return matched;
  }

  ghost predicate Both(callers: map<string, Caller>, hash: string, n: string, m: string) {
    n in callers && m in callers && callers[n].tokenSHA256 == hash && callers[m].tokenSHA256 == hash
  }

  /** The header must be the word, one space and a token, and nothing else. */
  lemma BearerExact(header: string, token: string)
    ensures BearerToken(header) == Some(token) <==> token != "" && header == "Bearer " + token
  {
    if BearerToken(header).Some? {
      assert header == "Bearer " + header[7..];
    }
    if header == "Bearer " + token {
      assert header[7..] == token;
    }
  }

  /** The record filed under `n`, and no other, carries the hash of this token. */
  ghost predicate StandsFor(pr: Suite, file: CallersFile, token: string, n: string) {
    && file.Doc? && file.version == 1
    && n in file.callers && file.callers[n].tokenSHA256 == pr.hex(pr.sha256(token))
    && forall m :: m in file.callers && file.callers[m].tokenSHA256 == pr.hex(pr.sha256(token)) ==> m == n
  }

  /** On any file, hand-edited or not, a request authenticates exactly as the one record that carries its token's
      hash, under the name it is filed by, whatever name the record gives itself; and not at all on a file of
      another version. */
  lemma AuthenticatedExact(pr: Suite, file: CallersFile, token: string, c: Caller)
    requires token != ""
    ensures Authenticated(pr, file, "Bearer " + token) == Some(c) <==>
            exists n :: StandsFor(pr, file, token, n) && c == file.callers[n].(name := n)
  {
    BearerExact("Bearer " + token, token);
    if file.Doc? && file.version == 1 {
      var hash := HashToken(pr, token);
      forall n ensures StandsFor(pr, file, token, n) <==> OnlyHolder(file.callers, hash, n) {
      }
      if n :| OnlyHolder(file.callers, hash, n) {
        assert StandsFor(pr, file, token, n);
        assert HolderOf(file.callers, hash) == Some(file.callers[n].(name := n));
      }
    }
  }

  /** One edit changes one record: every other stays as it was, and so do all when the edit fails. */
  lemma OthersUntouched(pr: Suite, file: CallersFile, c: Caller, token: string, name: string, io: SaveIO)
    ensures var (after, r) := AddCaller(pr, file, c, token, io);
            && (r.Err? ==> after == file)
            && (r.Ok? ==>
                  && file.Doc? && after.Doc? && after.version == 1 && c.name !in file.callers
                  && after.callers.Keys == file.callers.Keys + {c.name}
                  && after.callers[c.name] == OnFile(pr, c, token)
                  && forall other :: other in file.callers ==> after.callers[other] == file.callers[other])
    ensures var (after, r) := RemoveCaller(file, name, io);
            && (r.Err? ==> after == file)
            && (r.Ok? ==>
                  && file.Doc? && after.Doc? && after.version == 1 && name in file.callers
                  && after.callers.Keys == file.callers.Keys - {name}
                  && forall other :: other in after.callers ==> after.callers[other] == file.callers[other])
  {
  }

  /** When an edit goes through. */
  lemma EditsExact(pr: Suite, file: CallersFile, c: Caller, token: string, name: string, io: SaveIO)
    ensures AddCaller(pr, file, c, token, io).1 == Ok(token) <==>
            ValidName(c.name) && file.Doc? && file.version == 1 && c.name !in file.callers && io.Saves?
    ensures RemoveCaller(file, name, io).1.Ok? <==> file.Doc? && file.version == 1 && name in file.callers && io.Saves?
  {
  }

  /** Two records with one hash, however they came about, always refuse. */
  lemma DuplicatesRefuse(pr: Suite, file: CallersFile, header: string, n: string, m: string)
    requires file.Doc? && n != m && BearerToken(header).Some?
    requires Both(file.callers, HashToken(pr, BearerToken(header).value), n, m)
    ensures Authenticated(pr, file, header) == None
  {
  }

  // ----- the life of a token -----------------------------------------------

  datatype Op = Add(c: Caller, token: string, io: SaveIO) | Remove(name: string, io: SaveIO)

  /** The registry; for each live caller the record it was registered with and its token; and every token ever drawn. */
  datatype Life = Life(file: CallersFile, given: map<string, Caller>, tokens: map<string, string>, drawn: set<string>)

  const BORN := Life(Doc(1, map[]), map[], map[], {})

  function Apply(pr: Suite, s: Life, op: Op): Life {
    match op
    case Add(c, token, io) =>
      var (file, r) := AddCaller(pr, s.file, c, token, io);
      Life(file,
           if r.Ok? then s.given[c.name := c] else s.given,
           if r.Ok? then s.tokens[c.name := token] else s.tokens,
           s.drawn + {token})
    case Remove(name, io) =>
      var (file, r) := RemoveCaller(s.file, name, io);
      Life(file, if r.Ok? then s.given - {name} else s.given, if r.Ok? then s.tokens - {name} else s.tokens, s.drawn)
  }

  function Run(pr: Suite, ops: seq<Op>): Life {
    if ops == [] then BORN else Apply(pr, Run(pr, ops[..|ops| - 1]), ops[|ops| - 1])
  }

  /** No token is drawn twice, and none is empty. */
  ghost predicate FreshTokens(pr: Suite, ops: seq<Op>) {
    forall i :: 0 <= i < |ops| && ops[i].Add? ==> ops[i].token != "" && ops[i].token !in Run(pr, ops[..i]).drawn
  }

  /** What is on file of a caller: all it was registered with, and the hash of its token. */
  function OnFile(pr: Suite, c: Caller, token: string): Caller {
    Caller(c.name, pr.hex(pr.sha256(token)), c.createdAt, c.expiresAt, c.keys, c.artifacts, c.maxSize, c.ratePerHour)
  }

  /** `n`'s record is the one it was registered with, and carries the hash of the token `n` was given. */
  ghost predicate Filed(pr: Suite, s: Life, n: string)
    requires s.file.Doc? && n in s.file.callers && n in s.tokens && n in s.given
  {
    && s.tokens[n] in s.drawn && s.tokens[n] != ""
    && s.given[n].name == n
    && s.file.callers[n] == OnFile(pr, s.given[n], s.tokens[n])
  }

  ghost predicate Faithful(pr: Suite, s: Life) {
    && s.file.Doc? && s.file.version == 1
    && s.file.callers.Keys == s.tokens.Keys == s.given.Keys
    && (forall n :: n in s.tokens ==> Filed(pr, s, n))
    && (forall n, m :: n in s.tokens && m in s.tokens && s.tokens[n] == s.tokens[m] ==> n == m)
  }

  lemma {:induction false} AlwaysFaithful(pr: Suite, ops: seq<Op>)
    requires FreshTokens(pr, ops)
    ensures Faithful(pr, Run(pr, ops))
  {
    if ops != [] {
      var n := |ops| - 1;
      assert FreshTokens(pr, ops[..n]) by {
        assert forall i :: 0 <= i < n ==> ops[..n][..i] == ops[..i];
      }
      AlwaysFaithful(pr, ops[..n]);
      StepFaithful(pr, Run(pr, ops[..n]), ops[n]);
    }
  }

  lemma StepFaithful(pr: Suite, s: Life, op: Op)
    requires Faithful(pr, s) && (op.Add? ==> op.token != "" && op.token !in s.drawn)
    ensures Faithful(pr, Apply(pr, s, op))
  {
    match op {
      case Add(c, token, io) => AddFaithful(pr, s, c, token, io);
      case Remove(name, io) => RemoveFaithful(pr, s, name, io);
    }
  }

  lemma AddFaithful(pr: Suite, s: Life, c: Caller, token: string, io: SaveIO)
    requires Faithful(pr, s) && token != "" && token !in s.drawn
    ensures Faithful(pr, Apply(pr, s, Add(c, token, io)))
  {
    var s' := Apply(pr, s, Add(c, token, io));
    if AddCaller(pr, s.file, c, token, io).1.Ok? {
      RecordFaithful(pr, s, c, token);
    } else {
      assert forall n :: n in s.tokens ==> Filed(pr, s, n);
    }
  }

  /** One more record, under a new name and a new token. */
  lemma RecordFaithful(pr: Suite, s: Life, c: Caller, token: string)
    requires Faithful(pr, s) && token != "" && token !in s.drawn && c.name !in s.tokens
    ensures Faithful(pr, Life(Doc(1, s.file.callers[c.name := c.(tokenSHA256 := HashToken(pr, token))]),
                              s.given[c.name := c], s.tokens[c.name := token], s.drawn + {token}))
  {
    forall n | n in s.tokens ensures s.tokens[n] != token {
      assert Filed(pr, s, n);
    }
  }

  lemma RemoveFaithful(pr: Suite, s: Life, name: string, io: SaveIO)
    requires Faithful(pr, s)
    ensures Faithful(pr, Apply(pr, s, Remove(name, io)))
  {
    assert forall n :: n in s.tokens ==> Filed(pr, s, n);
    if RemoveCaller(s.file, name, io).1.Ok? {
      UnrecordFaithful(pr, s, name);
    }
  }

  /** One record fewer. */
  lemma UnrecordFaithful(pr: Suite, s: Life, name: string)
    requires Faithful(pr, s)
    ensures Faithful(pr, Life(Doc(1, s.file.callers - {name}), s.given - {name}, s.tokens - {name}, s.drawn))
  {
    assert forall n :: n in s.tokens ==> Filed(pr, s, n);
  }

  /** After any run of additions and removals with fresh tokens, a token authenticates as a caller exactly
      when it is that caller's current token, and then as the very record that caller was registered with;
      anything else exhibits two tokens with one SHA-256.
      So a removed token stays dead, even when its name is registered again. */
  lemma TokenLife(pr: Suite, ops: seq<Op>, token: string) returns (clash: Option<Collision>)
    requires FreshTokens(pr, ops) && token != ""
    requires forall t: string :: pr.unhex(pr.hex(t)) == Some(t)
    ensures clash.Some? ==> clash.value.Valid(pr)
    ensures var s := Run(pr, ops); var who := Authenticated(pr, s.file, "Bearer " + token);
            clash == None ==>
              && s.file.Doc? && s.file.callers.Keys == s.tokens.Keys == s.given.Keys
              && (forall n :: n in s.tokens && s.tokens[n] == token ==>
                    who == Some(OnFile(pr, s.given[n], token)) && who == Some(s.file.callers[n]) && s.given[n].name == n)
              && (who.Some? ==> who.value.name in s.tokens && s.tokens[who.value.name] == token)
              && (token in s.drawn && token !in s.tokens.Values ==> who == None)
  {
    AlwaysFaithful(pr, ops);
    var s := Run(pr, ops);
    if n :| n in s.tokens && s.file.callers[n].tokenSHA256 == HashToken(pr, token) && s.tokens[n] != token {
      assert Filed(pr, s, n);
      HexDigestSplits(pr, s.tokens[n], token);
      return Some(Collision(s.tokens[n], token));
    }
    TokenStands(pr, s, token);
    return None;
  }

  /** Without a collision the current token of a caller, and it alone, stands for it. */
  lemma TokenStands(pr: Suite, s: Life, token: string)
    requires Faithful(pr, s) && token != ""
    requires forall n :: n in s.tokens && s.file.callers[n].tokenSHA256 == HashToken(pr, token) ==> s.tokens[n] == token
    ensures var who := Authenticated(pr, s.file, "Bearer " + token);
            && (forall n :: n in s.tokens && s.tokens[n] == token ==>
                  who == Some(OnFile(pr, s.given[n], token)) && who == Some(s.file.callers[n]) && s.given[n].name == n)
            && (who.Some? ==> who.value.name in s.tokens && s.tokens[who.value.name] == token)
  {
    var hash := HashToken(pr, token);
    BearerExact("Bearer " + token, token);
    forall n | n in s.tokens ensures s.file.callers[n].tokenSHA256 == hash <==> s.tokens[n] == token {
      assert Filed(pr, s, n);
    }
    forall n | n in s.tokens && s.tokens[n] == token
      ensures Authenticated(pr, s.file, "Bearer " + token) == Some(s.file.callers[n])
      ensures s.file.callers[n] == OnFile(pr, s.given[n], token) && s.given[n].name == n
    {
      assert Filed(pr, s, n);
      assert OnlyHolder(s.file.callers, hash, n);
    }
  }
}
