# signbooth, modelled and proved

signbooth is a local daemon that holds Ed25519 signing keys and signs SHA-256 digests of artifacts for
callers with bearer tokens, each under a policy of keys, artifact globs, size, hourly rate and expiry.
Every decision goes into a hash-chained audit log, and signatures are checked offline against a pinned
key. This project models those parts and proves what they promise together.

## How it is put together

| files | what they hold |
|---|---|
| `Common`, `Division`, `Bags` | shared vocabulary: split and join, trimming, the language of a pattern, bags |
| `Primitives`, `Codecs` | the library code signbooth calls, as a record of uninterpreted functions with the laws relied on, and a library that meets all those laws |
| `Glob`, `Policy` | the two-level backtracking matcher and the authorization function |
| `Audit`, `AuditChain` | the log as file bytes; what the hash chain proves |
| `AuditFaults`, `AuditLock` | appends one after another, any of which may be cut short, and what they leave; the lock protocol of many appenders, step by step, which comes to just that |
| `RateLimit` | the fixed hourly window |
| `Envelopes`, `Keystore`, `Booth` | signing and offline verification; key files and crashes; caller records and tokens |
| `Daemon` | all of it as one state machine in which sign requests, operator edits, key files coming and going, restarts, other log writers and foreign signatures interleave freely |
| `DaemonAnswers` | what each request is answered and what each answer leaves in the log, in so many words |
| `DaemonTrace`, `DaemonSound`, `EndToEnd`, `DaemonRate`, `DaemonHours`, `DaemonAudit`, `DaemonLedger` | invariants over every run, and the theorems that follow from them |
| `DaemonSteps`, `DaemonRuns` | what single events change; two concrete runs that show what is not promised |
| `Server` | the request handler as an object that carries the run it takes part in; its contracts give the answer, the log and the events of that run, and the events settle the run |
| `Sizes` | the size parser and printer |

The chain of results ends in `EndToEnd.AcceptedMeansGranted`: in every run, if the offline verifier accepts
a file under the fingerprint of a booth key, then some earlier sign step exists whose caller's token stood on
disk when it was checked, whose record allowed that key, that artifact name and the file's real length at the
instant the clock was read, whose rate window had room, and whose key was then on disk and agreed with its
record. `EndToEnd.DeliveredVerifies` is the way back.

## How the world is idealised

- A `string` stands for a Go string or byte slice, one `char` per byte. Text fields are taken to be valid
  UTF-8, since Go's JSON encoder replaces other bytes.
- SHA-256 is any function. No theorem takes it to be injective: where it matters, the result is the
  property or a concrete pair of different inputs with one hash (`Collision`).
- Decoders of hex, base64 and JSON invert their encoders; nothing is said of decoding other text.
  An audit entry in JSON is one line; a proper prefix of it does not decode, nor does any of it behind another
  document. `Codecs.LawsHoldTogether` shows that all these laws can hold at once.
- Ed25519 is ideal: verification accepts exactly well-made signatures of texts that were really signed
  under that key (sections 5.1.6 and 5.1.7 of RFC 8032).
- Generated keys and drawn tokens are parameters; where freshness matters it is a hypothesis
  (`Keystore.FreshKeys`, `Booth.FreshTokens`). In the state machine a generated key's public half has not
  been signed with elsewhere, and others hold no booth key.
- What the clock shows, what the disk does to a write and where a process crashes are parameters. Clock
  readings are unconstrained: they may repeat or go back.
- Other writers of the audit log, the command line's own entries, do not write "sign", "deny" or
  "auth-reject" entries.

## Where the prose says more than the code does

- `Verify` is said to catch deleted and edited lines (internal/audit/audit.go:176-179). It cannot see the
  removal of a suffix, nor a tail rewritten with recomputed hashes: `AuditChain.SuffixIsFree`. Every other deletion,
  repetition or reordering of lines it does see: `AuditChain.EditsShow`. What it does
  prove is `AuditChain.TamperEvidence`, about decoded entries, since reading drops white space and unknown
  fields.
- A failed append is ignored on the ground that a later `audit verify` will surface the gap
  (internal/server/server.go:85-87). `AuditChain.SwallowedErrorShows` says exactly when it does, for every log and
  every way of failing: only if part of the entry's text went out and the entry was not left whole on a line of its own.
- An append that reports success need not read back. `Audit.AppendReadsBack` gives the exact condition (`Lands`):
  behind an unterminated line, or as a line of a mebibyte or more, it makes the whole log unreadable.
  `AuditLock.BareOnce` and `AuditLock.UnreadableStays` say what that means to the processes that come after a crash.
- What is on file is not what was reported: an append whose write lost only the newline reports failure and its entry
  reads back all the same (`DaemonRuns.FailedYetOnFile`). So the audit theorems come twice, for the entries that can be
  read from the file (`DaemonLedger.FileHoldsAnswers`, `DaemonLedger.FileSignsAreSignatures`) and for the appends that
  reported success (`DaemonLedger.EveryAnswerLogged`, `DaemonLedger.SignEntriesAreSignatures`); the two agree exactly
  under the condition of `DaemonLedger.LogReadsBack`.
- Logging a signature is a step of its own: a daemon stopped between the two leaves a signature without its entry.
  The same theorems have the exact condition.
- The hourly limit reads the clock before taking the lock (internal/server/server.go:214-215), so hours can go
  back in lock order. For the limit a caller has, "at most `limit` per hour" holds if and only if the blocks of each
  hour, each counted up to the limit, add up to no more: `RateLimit.PromiseExact`. It holds for every limit if
  and only if no hour is left and come back to: `RateLimit.HourlyPromiseExact`.
- The windows are in memory only (internal/server/server.go:39-58): a restart renews every allowance in full
  (`DaemonHours.RestartRenews`), so a caller can exceed its limit within an hour (`DaemonRuns.RestartExceeds`). Across
  restarts the promise holds if and only if the blocks of every hour, over all uptimes and each counted up to the
  limit, add up to no more than the limit: `DaemonHours.PromiseAcrossRestarts`.
- The worst case of segment matching is called trivial (internal/policy/pattern.go:44-46). It is exponential in
  the number of star runs: `Glob.CostExplodes`, with the matching upper bound in `Glob.CostBound`.
- `?` is said to match one character (internal/policy/pattern.go:8-9); it matches one byte: `Glob.QuestionTakesByte`.
- `parseSize` multiplies unchecked (internal/cli/cli.go:226): `Sizes.ParseExact` and `Sizes.ParseWraps`.

## Model

| member | source | states |
|---|---|---|
| `EndToEnd.AcceptedMeansGranted` | internal/cli/verify.go:37-69 | a file accepted offline under a booth key's print was granted earlier in the run, to an authenticated caller entitled to that key, name and the file's real length, whose every field the statement repeats; or a SHA-256 collision is returned |
| `EndToEnd.DeliveredVerifies` | internal/server/server.go:284-301 | an envelope the daemon answered with passes the offline check for exactly the files with the requested digest and size, and fails it for every other file |
| `EndToEnd.NeverInternalError` | internal/server/server.go:292-295 | the signing failure that would go unaudited is reached in no run |
| `EndToEnd.RevokedGrantsNothing` | internal/server/server.go:93-117 | while no record carries a token, nothing is granted that had not passed authentication with it before |
| `DaemonTrace.AlwaysTraced` | internal/server/server.go:120-301 | in every run each request and grant has its whole history: arrival, authentication against the records then on disk, policy, slot, key, signature, in that order |
| `DaemonAnswers.RequestExact` | internal/server/server.go:187-206 | which requests are well formed, byte by byte |
| `DaemonAnswers.RefusalExact` | internal/server/server.go:229-260 | a request is refused for its method, then as malformed, then for the first condition of the policy it misses, each exactly when; and goes on exactly if the caller is entitled to it |
| `DaemonAnswers.AnswerSays` | internal/server/server.go:253-299 | the entry an answer calls for has the action, caller, key, artifact, digest and reason it should |
| `DaemonAnswers.ReasonsTellChecks` | internal/server/server.go:253-282 | denials by different checks leave different reasons |
| `DaemonSound.AlwaysSound` | internal/server/server.go:272-295 | in every run every signature under a booth key comes from a grant, keys on disk are the booth's own, and requests hold what signing needs |
| `DaemonRate.AlwaysAccounted` | internal/server/server.go:210-227 | the stored windows are at all times those of the history of calls since the last start, and calls and requests point to each other one to one |
| `DaemonRate.SlotConservation` | internal/server/server.go:210-290 | a window counts exactly the slots given since it opened; each call, before or after any restart, that was given one belongs to a different request that is signed, lacks its key or is under way, and one refused to a rate refusal; every request that holds a slot has its call |
| `DaemonHours.HourOfInstant` | internal/server/server.go:214-214 | the window's hour is `h` exactly from `h * 3.6e12` nanoseconds after the epoch up to the next hour, and what it is before the epoch |
| `DaemonHours.SlotFreeExact` | internal/server/server.go:214-226 | in every run a limited caller's call gets its slot if it is the first since the start or in another hour on the clock than the last one, and in the same hour exactly if fewer slots than the limit were given in its window |
| `DaemonHours.SettledWindow` | internal/server/server.go:210-290 | once this caller's own requests are answered, its window's count equals its signatures and key-unavailable refusals since the window opened |
| `DaemonHours.SignaturesOfHour` | internal/server/server.go:208-227 | the same bound for every hour, before the epoch as well as after it |
| `DaemonHours.SignaturesPerHour` | internal/server/server.go:208-227 | between restarts, the signatures whose slot was taken in an hour's range of nanoseconds are no more than the caller's blocks of that hour, each counted up to the limit, add up to; and at most the limit if the clock never went back between its calls |
| `DaemonHours.SignaturesPerSpan` | internal/server/server.go:208-227 | when the clock never went back between its calls, at most twice the limit is signed for a caller in any 3.6e12 nanoseconds between restarts |
| `DaemonHours.SlotsAcrossRestarts` | internal/server/server.go:39-58 | under one limit the slots of an hour over all uptimes are exactly the sum, over uptimes and blocks, of min(limit, block length) |
| `DaemonHours.PromiseAcrossRestarts` | internal/server/server.go:39-58 | at most `limit` slots an hour over all uptimes if and only if those sums are at most the limit |
| `DaemonHours.SignaturesAcrossRestarts` | internal/server/server.go:39-58 | over all uptimes the signatures of an hour are at most that sum, which is at most one limit for each start when no hour is come back to between restarts |
| `DaemonHours.RestartRenews` | internal/server/server.go:39-58 | after a restart, whatever was used up before and whatever the hours of the calls, exactly the first `limit` calls of each block get a slot |
| `DaemonRuns.RestartExceeds` | internal/server/server.go:39-58 | a run in which a caller limited to one an hour obtains two signatures in an hour because of a restart |
| `DaemonAudit.AlwaysOrderly` | internal/server/server.go:246-301 | in every run grants and log attempts match the requests that owe them, each once |
| `DaemonAudit.OneEntryPerAnswer` | internal/server/server.go:120-301 | every answer but "malformed" (and wrong method) was preceded by exactly one log attempt, and its entry says who asked for what and what came of it; other requests have none |
| `DaemonAudit.AlwaysFileKept` | internal/audit/audit.go:112-145 | while every write was whole and short, or nothing, the file is the serialised chain of logged entries |
| `DaemonLedger.AlwaysRecorded` | internal/audit/audit.go:112-145 | in every run the audit file is what all its appends, the daemon's and others', one after another and however each write went, leave of it, and the daemon's own among them are its log attempts |
| `DaemonLedger.AlwaysStamped` | internal/server/server.go:83-88 | in every run each log attempt was made by its own event, bears the instant that event read, and was written as that event says |
| `DaemonLedger.FileHoldsAnswers` | internal/server/server.go:120-301 | in every run, whatever the writes did: the sign, deny and auth-reject entries read from the file are one to one those of the answered requests whose append put anything into it, each saying who asked for what and what came of it; those of all answered requests if and only if every append of the daemon's own did |
| `DaemonLedger.FileSignsAreSignatures` | internal/server/server.go:284-299 | in every run, whatever the writes did: the caller, key, artifact and digest of the "sign" entries read from the file are, as a bag, part of those of the issued signatures; all of them if and only if every "sign" append put its entry into the file and no signature was left unlogged |
| `DaemonLedger.FileReadable` | internal/audit/audit.go:148-199 | in every run the file can be read if and only if every append of which anything went out landed; `Verify` then counts exactly those appends, and otherwise finds the log unreadable |
| `DaemonLedger.EveryAnswerLogged` | internal/server/server.go:83-88 | of the appends that reported success: the daemon's own are one to one for answered requests, each with the entry that answer calls for; for all answered requests if and only if none reported failure |
| `DaemonLedger.SignEntriesAreSignatures` | internal/server/server.go:284-299 | of the appends that reported success: the caller, key, artifact and digest of the "sign" ones are, as a bag, part of those of the issued signatures; all of them if and only if none reported failure and no signature was left unlogged |
| `DaemonLedger.LogReadsBack` | internal/audit/audit.go:148-199 | the file reads as exactly the entries of the appends that reported success if and only if every append of which anything went out reported success and landed |
| `DaemonRuns.FailedYetOnFile` | internal/audit/audit.go:141-144 | a run whose only append reports failure and whose entry is on file |
| `Server.Server.Serve` | internal/server/server.go:120-131 | one request served from arrival to answer: the answer is the one token, records, windows and keys call for; the run goes on by exactly this request's events, with its header, body, instants and write outcome; the log gains the entry the answer calls for and no other |
| `Server.Server.Accept` | internal/server/server.go:120-130 | the events are the arrival of this very request and its authentication, and the caller found is its token's |
| `Server.Server.Answer` | internal/server/server.go:122-129 | an unknown caller is refused and logged, a known one handed on, with answer, events and log as they should be |
| `Server.Server.Admit` | internal/server/server.go:229-301 | an authenticated request gets the answer that method, body, validation, policy, rate, key and signature give in that order, by exactly the events named, and the log entry that answer calls for |
| `Server.Server.Proceed` | internal/server/server.go:252-301 | a refusal stands and is logged if it is a denial; anything else goes on to the window |
| `Server.Server.LogRefusal` | internal/server/server.go:237-260 | a denial adds its entry, a malformed request leaves the log alone |
| `Server.Server.Limit` | internal/server/server.go:261-301 | past the window with the instant given, or refused and logged |
| `Server.Server.Issue` | internal/server/server.go:272-301 | key loading, then signing or a logged refusal: answer, events and log |
| `Server.Server.Finish` | internal/server/server.go:284-301 | the signature of this very payload, and its log entry with the instant and write outcome given |
| `Server.Server.Authenticate` | internal/server/server.go:120-130 | the request becomes known as the caller its token stands for, or is refused, by that one event |
| `Server.Server.Decide` | internal/server/server.go:229-260 | the refusal returned is the one validation and policy call for at the instant given, and none means admitted |
| `Server.Server.AllowRate` | internal/server/server.go:210-227 | unlimited callers touch no window; for others the window is replaced or counted up and no other window changes |
| `Server.Server.TakeSlot` | internal/server/server.go:261-270 | the request is slotted or refused as the caller's window says at the instant given |
| `Server.Server.LoadKey` | internal/server/server.go:272-283 | the key on disk is handed over, or the request refused for want of it, by that one event |
| `Server.Server.Sign` | internal/server/server.go:284-295 | the signature of the payload given is made and recorded for this request, by that one event |
| `Server.Server.LogEntry` | internal/server/server.go:83-88 | the log file is the old one with the entry appended, stamped with the instant given, as the write goes; the request is answered whether or not it succeeds |
| `Server.Server.Restart` | internal/server/server.go:39-58 | the windows are empty and the run records the restart |
| `Server.RunsAgree` | internal/server/server.go:120-301 | the events a contract names settle the run, and with it every world of it |
| `Server.Server.AddCaller` | internal/booth/booth.go:150-171 | a registration takes effect for the very next request |
| `Server.Server.RemoveCaller` | internal/booth/booth.go:175-185 | a removal takes effect for the very next request |
| `Server.Server.CreateKey` | internal/keystore/keystore.go:52-96 | a key created, or a creation cut short, takes effect for the very next request |
| `AuditLock.Reachable` | internal/audit/audit.go:112-145 | the locking invariant, crashes included: one process inside, the committed file is what sequential appends leave, the file is that plus the line in flight, and every answer given is that of its append |
| `AuditLock.StepRefinesAppend` | internal/audit/audit.go:112-145 | every step of every interleaving leaves the committed file alone or is one whole append of that process's own draft, completed, refused by an unreadable log or cut short by its crash, with the answer it is given |
| `AuditLock.CallCompletes` | internal/audit/audit.go:112-145 | from every reachable state with the lock free and a log that can be scanned, a waiting process can go through with its call: it finishes with the entry that continues the log, and the file has grown by exactly that line |
| `AuditLock.FileIsSequential` | internal/audit/audit.go:112-145 | at every moment the file is what atomic appends one after another would have left, the one in flight cut off there |
| `AuditLock.OneLinearChain` | internal/audit/audit.go:106-111 | the whole lines form one chain, the one sequential appends of their drafts give, and no later event or crash disturbs it |
| `AuditLock.ScannedTailIsCurrent` | internal/audit/audit.go:126-142 | what the lock holder scanned stays the file's tail until it writes, whatever crashed before |
| `AuditLock.PositionsDistinct` | internal/audit/audit.go:130-132 | two finished appends have different sequence numbers and each entry stays on its line, but for the one run into a line without newline |
| `AuditLock.VerifyAtAnyMoment` | internal/audit/audit.go:180-199 | run without the lock, whatever crashed, `Verify` counts the entries of the shape the history gives, finds no broken link, or reports a log that cannot be read, each exactly when |
| `AuditLock.VerifyCounts` | internal/audit/audit.go:180-199 | run at any moment on a log that can be read, `Verify` counts the appends of which anything is out; with nothing in flight or cut short, exactly the completed ones |
| `AuditLock.ReadInPieces` | internal/audit/audit.go:148-174 | a reader that takes the file piece by piece while others append has, on reaching the end, the file of that one moment |
| `AuditLock.UnreadableStays` | internal/audit/audit.go:126-129 | once the committed log cannot be read the file never changes again and no further append finishes |
| `AuditLock.BareOnce` | internal/audit/audit.go:138-143 | behind a line whose newline a crash left out, one append at most finishes, and it makes the log unreadable |
| `AuditFaults.ShapeTells` | internal/audit/audit.go:112-145 | after any run of appends, however each went, the file has the shape that history gives: whole lines, a last line without newline, or a spoiled line |
| `AuditFaults.ShapeJudged` | internal/audit/audit.go:180-199 | `Verify` counts the entries of such a file or cannot read it, and never finds a broken link |
| `AuditFaults.AuthorsInOrder` | internal/audit/audit.go:130-142 | the entries read are those of some of the appends, in their order, each with its append's draft |
| `AuditFaults.ReadableExact` | internal/audit/audit.go:83-104 | the log can be read if and only if every append of which anything went out landed |
| `AuditFaults.AuthorsExact` | internal/audit/audit.go:112-145 | on a log that can be read the entries are those of exactly the appends of which anything went out |
| `AuditFaults.EntriesCounted` | internal/audit/audit.go:112-145 | and there are as many entries as such appends |
| `AuditFaults.SuccessesExact` | internal/audit/audit.go:138-144 | a log that can be read holds exactly the entries reported as appended if and only if no other append got its entry in |
| `AuditFaults.OkPlaced` | internal/audit/audit.go:126-144 | where the entry of a successful append is found ever after |
| `AuditFaults.OkOrdered` | internal/audit/audit.go:130-132 | of two successful appends the later has the higher sequence number |
| `AuditFaults.UnreadableForever` | internal/audit/audit.go:126-129 | a log no reader accepts is never changed again and every later append fails |
| `AuditFaults.BareThenSpoiled` | internal/audit/audit.go:138-143 | an append that succeeds behind a line without newline is the last, and nothing reads back |
| `AuditChain.ChainFromDrafts` | internal/audit/audit.go:130-132 | a chain is determined by the drafts of its entries |
| `AuditChain.Verify` | internal/audit/audit.go:180-199 | the number of good links before the first broken one and what is wrong there, or the full count |
| `AuditChain.ChainExact` | internal/audit/audit.go:180-199 | what a well-formed chain is, in terms of numbers, the 64 zeros at its head, and SHA-256 in hex of each entry's JSON with the hash left out |
| `AuditChain.JudgedOnce` | internal/audit/audit.go:176-199 | there is one right verdict, and it is "intact" exactly for readable well-formed chains |
| `AuditChain.AppendKeepsVerdict` | internal/audit/audit.go:112-145 | for every log, verdict and outcome of the write: an append leaves the file alone, or keeps the first broken link where it is, or makes the log unreadable, each exactly when; and when it reports success |
| `AuditChain.SwallowedErrorShows` | internal/server/server.go:85-87 | for every log and verdict, a failed append makes the log unreadable exactly if part of the entry went out without its entering; otherwise the verdict stays |
| `AuditChain.TamperEvidence` | internal/audit/audit.go:180-199 | two accepted logs that share one entry hash at any positions are the same up to there, or a collision is returned |
| `AuditChain.SuffixIsFree` | internal/audit/audit.go:180-199 | every prefix of an accepted log, continued with any resealed entries, is accepted |
| `AuditChain.EditsShow` | internal/audit/audit.go:176-199 | of the logs made up of lines of an accepted one, deleted, repeated or moved in any way, exactly the prefixes are accepted |
| `AuditChain.ExtendChains` | internal/audit/audit.go:126-132 | sealing drafts one after another keeps the chain and what was there |
| `AuditChain.SerializeReads` | internal/audit/audit.go:148-174 | a serialised log reads back if and only if every line fits the scanner |
| `AuditChain.AppendSerialized` | internal/audit/audit.go:112-145 | appending to a serialised chain gives the serialised longer chain |
| `AuditChain.AppendsReadBack` | internal/audit/audit.go:112-174 | after any run of appends `Read`, `scanTail` and `Verify` agree on exactly the appended entries |
| `Audit.Read` | internal/audit/audit.go:148-174 | the loop returns the entries of all non-blank lines in order, or fails |
| `Audit.ScanTail` | internal/audit/audit.go:83-104 | the loop agrees with reading everything and taking the last number and hash when numbers run 1, 2, 3 |
| `Audit.LineLimit` | internal/audit/audit.go:202-206 | the scanner takes lines of fewer than 1048576 bytes and no others |
| `Audit.Log.Open` | internal/audit/audit.go:65-79 | a log opens if and only if its tail can be scanned |
| `Audit.Log.Append` | internal/audit/audit.go:112-145 | the new file and result, for every outcome of the write; the file only grows |
| `Audit.AppendReads` | internal/audit/audit.go:112-145 | for every outcome of the write, what is read afterwards: nothing new, one entry more, or nothing at all |
| `Audit.AppendReadsBack` | internal/audit/audit.go:134-144 | a completed append reads back as one more entry if and only if its line lands; otherwise nothing reads back |
| `Audit.TornFreezes` | internal/audit/audit.go:141-143 | after a write cut inside an entry every later append fails and changes nothing |
| `Audit.LostNewline` | internal/audit/audit.go:141-143 | after a write that lost only the newline the entry reads back, and the next append succeeds and ruins the log |
| `Audit.BlankLineIgnored` | internal/audit/audit.go:161-166 | a blank line anywhere changes neither what is read nor the tail |
| `Glob.MatchSegment` | internal/policy/pattern.go:47-76 | the nested loop terminates, accepts exactly the token language and calls itself at most (n+2)^g times, the first call included |
| `Glob.SegmentExact` | internal/policy/pattern.go:47-76 | segment matching is sound and complete for dividing the bytes among literal, `?` and `*` tokens |
| `Glob.SegmentsExact` | internal/policy/pattern.go:20-42 | segment lists match exactly when they divide among the pattern's segments |
| `Glob.MatchExact` | internal/policy/pattern.go:13-42 | `Match` accepts exactly the glob language of a non-empty pattern |
| `Glob.SegmentConcat` | internal/policy/pattern.go:47-76 | matching a concatenation inside a segment is matching its parts on some cut |
| `Glob.SegmentsConcat` | internal/policy/pattern.go:20-42 | the same for whole segments |
| `Glob.SlashesFixed` | internal/policy/pattern.go:7-10 | without a `**` segment the number of slashes is fixed |
| `Glob.InsertDoubleStar` | internal/policy/pattern.go:24-34 | inserting a `**` segment at any boundary loses no name |
| `Glob.StarRunIsOneStar` | internal/policy/pattern.go:50-62 | a run of stars inside a segment is worth one star |
| `Glob.QuestionTakesByte` | internal/policy/pattern.go:63-67 | `n` question marks match exactly the texts of `n` bytes, so a character of several bytes needs as many |
| `Glob.CostBound` | internal/policy/pattern.go:44-76 | at most (n+2)^g calls on n bytes with g star runs |
| `Glob.CostExplodes` | internal/policy/pattern.go:44-76 | the pattern of g stars `*a*a...*b` costs at least 2^g calls on g or more letters |
| `Policy.EvaluateExact` | internal/policy/policy.go:83-97 | allowed exactly when expiry, key, artifact language and size all permit; a denial names the first that does not |
| `Policy.ArtifactsExact` | internal/policy/policy.go:58-65 | some pattern matches exactly when some pattern's language has the name |
| `Policy.NameExact` | internal/policy/policy.go:103-116 | which names are valid, byte by byte |
| `Policy.NarrowingSafe` | internal/policy/policy.go:48-97 | a narrower record, later instant and larger size never allow more |
| `RateLimit.WindowCounts` | internal/server/server.go:215-226 | whatever the limits, the count is the slots given since the window opened |
| `RateLimit.AllowedExact` | internal/server/server.go:215-226 | a call gets a slot exactly when fewer than `limit` calls precede it in its same-hour block |
| `RateLimit.BlockExact` | internal/server/server.go:215-226 | each maximal same-hour block allows exactly its first min(limit, length) calls |
| `RateLimit.HourExact` | internal/server/server.go:215-226 | for any limit and any order of hours, the slots of an hour are the sum over its blocks of min(limit, length), and are the first calls of each block |
| `RateLimit.PromiseExact` | internal/server/server.go:208-227 | for the limit a caller has, at most `limit` per hour holds if and only if the blocks of every hour, each counted up to the limit, add up to no more; which they do if no hour is come back to |
| `RateLimit.FullAllowance` | internal/server/server.go:215-226 | a window that starts afresh gives exactly `limit` slots to `limit` calls of an hour |
| `RateLimit.HourBound` | internal/server/server.go:208-227 | at most `limit` slots in an hour that is not come back to |
| `RateLimit.HourlyPromiseExact` | internal/server/server.go:214-218 | the hourly promise holds for all limits if and only if no hour is left and come back to in lock order |
| `RateLimit.SpanBound` | internal/server/server.go:208-227 | with times that never go back, at most `limit` an hour and twice `limit` in any 3600 seconds |
| `Envelopes.SignThenOpen` | internal/envelope/envelope.go:113-178 | signing fails exactly for a wrong key length or malformed digest; otherwise the envelope opens to the payload with schema and fingerprint filled in |
| `Envelopes.OpenExact` | internal/envelope/envelope.go:140-178 | `Open` returns a payload if and only if schema, encodings, key size, signature over the domain and text, payload schema, digest form and key print are all right |
| `Envelopes.VerifiedExact` | internal/cli/verify.go:18-69 | `signbooth verify` accepts if and only if the sidecar decodes and opens to a payload that names the trusted key and the artifact's digest and length |
| `Envelopes.RefusedExact` | internal/cli/verify.go:28-55 | which refusals are usage errors and which are failures to read |
| `Envelopes.PinExact` | internal/envelope/envelope.go:174-200 | for an envelope that opens, pinning succeeds exactly for the fingerprint its payload names |
| `Envelopes.DigestExact` | internal/envelope/envelope.go:73-87 | which digests are well formed, byte by byte |
| `Envelopes.AcceptanceMeansSigned` | internal/cli/verify.go:37-69 | an accepted file was vouched for by the trusted key itself, naming that key, digest and length, or keys collide |
| `Envelopes.OneSidecarOneFile` | internal/envelope/envelope.go:205-217 | one sidecar accepts, under any trust, one file and one print, or a collision is at hand |
| `Keystore.Store.Create` | internal/keystore/keystore.go:52-96 | the three writes in order, cut short anywhere; other names untouched |
| `Keystore.Store.Load` | internal/keystore/keystore.go:100-131 | the key and record, or the first thing wrong |
| `Keystore.CreationOrder` | internal/keystore/keystore.go:67-95 | the private key is complete before the public half is touched, and that before the record; and what a complete creation leaves |
| `Keystore.AlwaysConsistent` | internal/keystore/keystore.go:52-131 | in every history of creations, crashes and deletions, key and record agree exactly for a key completely created and not undone |
| `Keystore.LoadExact` | internal/keystore/keystore.go:100-131 | `Load` returns exactly the last complete creation that nothing undid, with its own fingerprint, and refuses otherwise |
| `Keystore.InterruptedBlocks` | internal/keystore/keystore.go:56-58 | an interrupted creation blocks the name for loading and creating until its key file is deleted, stale records notwithstanding |
| `Booth.Registry.Save` | internal/booth/booth.go:135-146 | the file is the whole new document or the old one |
| `Booth.Registry.Add` | internal/booth/booth.go:150-171 | the new file and result for every way of failing |
| `Booth.Registry.Remove` | internal/booth/booth.go:175-185 | the new file and result for every way of failing |
| `Booth.OthersUntouched` | internal/booth/booth.go:150-185 | one edit changes one record: what is stored is all that was given and the token's hash, and no other record changes; a failed edit changes nothing |
| `Booth.EditsExact` | internal/booth/booth.go:150-185 | when an edit goes through |
| `Booth.Authenticate` | internal/server/server.go:93-117 | in whatever order the map is walked, the only holder of the token's hash, under its map name, or nobody |
| `Booth.BearerExact` | internal/server/server.go:94-98 | the header is the word, one space and a token that is not empty |
| `Booth.AuthenticatedExact` | internal/server/server.go:99-117 | on any file, a token authenticates exactly as the one record with its hash, under the name it is filed by; not on a file of another version |
| `Booth.DuplicatesRefuse` | internal/server/server.go:113-115 | two records with one hash always refuse |
| `Booth.AlwaysFaithful` | internal/booth/booth.go:150-185 | in every life of the registry each record is the one its caller was registered with, with the hash of the token it was given |
| `Booth.TokenLife` | internal/booth/booth.go:150-202 | a token authenticates as a caller exactly when it is that caller's current one, and then as the record it was registered with; a removed token stays dead even if the name returns; or two tokens collide |
| `Sizes.ParseSize` | internal/cli/cli.go:208-227 | the imperative parser computes the specified reading and stays within 64 bits |
| `Sizes.SizeExact` | internal/cli/cli.go:208-227 | `parseSize` accepts exactly white space, a sign, digits, white space, a unit in either case or none, and white space; it returns number times unit when that fits in 63 bits, and otherwise what 64 bits leave of it |
| `Sizes.BareBytes` | internal/cli/cli.go:213-226 | a bare number is bytes, for every 63-bit number, and so is one with a `B` in either case |
| `Sizes.FormatExact` | internal/cli/cli.go:230-243 | `formatSize` prints the number of the largest unit that divides the size, and that unit; 0 as a word |
| `Sizes.SizeRoundTrip` | internal/cli/cli.go:208-243 | what `formatSize` prints parses back for exactly the positive 64-bit sizes |
| `Sizes.ParseExact` | internal/cli/cli.go:222-226 | `parseSize` is exact if and only if number times unit fits in 63 bits |
| `Sizes.ParseWraps` | internal/cli/cli.go:226 | from 2^33 up to 2^34 gigabytes every size parses as a negative one |

## Left out

- HTTP, sockets, signal handling and JSON request decoding: a request is a header, a method flag and a body that decoded or did not.
- The key listing, self, health, status and `show` views: they read and print.
- The internals of SHA-256, Ed25519, base64, PEM, PKCS#8 and encoding/json; constant-time comparison is equality.
- File modes and the `flock` call itself: the lock is mutual exclusion that a crash drops. The build without `flock` is not part of this model, nor is the in-process mutex as a second lock.
- Concurrent operator edits: loading, changing and saving callers takes no lock; edits are serial here, interleaved with requests.
- Key files placed or edited by hand: key files are created by the keystore and deleted by anybody, but their contents are the keystore's.
- Record fields with no part in a decision: creation times are carried along.
- Wording of deny reasons beyond which check gave them.
- Time-to-live parsing, flag parsing, initialising and opening a booth.
- White space beyond ASCII in trimming, and upper-casing beyond ASCII in size units.
- Int64 width outside `Sizes`: sizes, instants, counts and sequence numbers are unbounded elsewhere, where they are only compared and counted.
- Log entries that were torn by a machine crash rather than a process crash: bytes once written stay written.
