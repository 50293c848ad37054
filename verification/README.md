# Shyake: what the mail server and its client algorithms promise

A Dafny model of Shyake, a federated end-to-end encrypted mail system, with
proofs of what it promises:

- **The Go server as a state machine.** `Store` holds the tables and the database
  operations, `KeyCache` the cache of remote keys, `TtlSet` the generational sets
  behind replay protection, `Handlers` every request as one atomic step on an
  instance, and `Server` the handlers in their own form, updating live objects.
  `Server.Handle` ties the two together, so what is proved of steps and runs
  holds of the server. `Effects` says what each request changes, `Invariants` and
  `Lifecycle` what every run keeps, `MailHistory` and `CacheHistory` where mail rows
  and cached keys come from, `Blocklist` what the block table means,
  `CacheTransparency` what the key cache may change, `Delivery` and `Ordinary` when a
  mail is taken, `Refusals` what is told otherwise, and `Reading` who can read it.
  `ReplayRuns`, `SignedRequests` and `PowRuns` say when a signature, a signed text or
  a token is taken again, `Respelling` and `ReplayExamples` where that protection
  ends. `Federation` and `WorldCaches` say what instances that relay to each other
  agree on.
- **Bounded memory and rates.** `TtlSet`, `Replay` and `SetRuns` cover the
  generational set and its parameters, `Limiter` the swept table of token buckets.
- **Canonical encodings.** `Addresses`, `Signed`, `Pow`, `Text` and `Utf8`, for the Go
  server, the Worker and the client's minting loop.
- **Client text algorithms.** `Scissors` (reply editing) and `WordWrap` (UTF-8 word
  wrap), on buffers.
- **Import.** `Import` covers the import of a Worker database.

A handler is one atomic step with one reading of the clock. A mail relayed to
another instance is a nested step: while the sender's instance handles the
submission, the recipient's handles the same bytes, and each may read the
other's public keys; requests between them may be turned away or lost, and so may
replies. What the network answers, identifiers and random strings drawn, clock readings and rows
read from a dump are parameters. Cryptography and the calendar are arbitrary
functions (`Handlers.Env`, `Pow.Env`). A byte is the character with its code.

`Instance.origin` and `Instance.log` are history kept for the proofs: the signed
fields and the key behind each stored mail, and every mail ever stored. No
answer depends on them.

## Where the code and its documentation differ

The model follows the code. Each difference is a theorem.

- The comment of `ttlset.go` says a key is remembered for at most 2·ttl. Sparse
  calls exceed that; the bound is 3·ttl - 2 ticks (`RejectedAge`), and 2·ttl holds
  of all runs exactly when calls are at most 2 ticks apart or the ttl is at most 2
  ticks (`PromiseExact`, with the run in `PausedRunBreaks`).
- The set of seen signatures lasts 600 s, but a timestamp is accepted for 601 s less
  one tick, because `Unix()` drops fractions. One signature string can pass twice, in
  the first and the last second of its window (`SignatureOnce`, `ReplayWithinSecond`,
  with the run in `SameStringTwice`); 601 s would close that (`SignatureOnceWithMargin`).
- The set is keyed by the string, and `decodeB64` reads many strings as one signature.
  A signed request passes again at once in another spelling and with another token,
  whatever the set's ttl (`RespelledPasses`, with a run in `RespelledTwice`). With a
  verifier that reads one string at most it does not (`ClaimPassesOnce`).
- A token pays once if it is recorded at most one clock tick after its check
  (`TokenOnce`). With atomic handlers that is so (`TokenPaysOnce`); `sendMail`
  really records it after its key lookups.
- The limiter's sweep changes an answer exactly when burst > 600·rate
  (`SweepInvisibleExact`), and only up to there does the rate bound a client
  (`RateBoundExact`).
- `Blocked` compares the sender's bare domain with stored targets, so a sender on
  an instance whose domain has no dot is refused when a blocked local user is
  spelled like that domain (`RefusedExact`, `DotlessDomainMistaken`).
- When the second key fetch fails, `sendMail` compares the fingerprint of an empty
  key (`EmptyFingerprintPasses`, `RecentExactly`).
- The Worker reads a difficulty such as "20x" as 20, and measures a token in UTF-16
  units; the Go server refuses the one, and measures the other in bytes
  (`ServersDiffer`, `LongTokenDiffers`; `ServersAgree` says that is all).
- The Worker's normal form of "Bob.x@own" is not its own normal form
  (`WorkerNormalizeIdempotent`, `NotNormal`).
- The minting loop prints its counter into a buffer of 256 bytes. When more than 247
  stand before the counter, two rounds try the same header (`RoundsDiffer`).
- `utf8_next` accepts overlong encodings, so word wrap may break at an overlong
  space, which it does not drop (`BreaksAtOverlong`).

## Model

| member | source | states |
|---|---|---|
| Invariants.StepKeeps | server/go/internal/api/handlers.go:242-359 | Every request keeps the state in order, whatever other instances answer: names unique up to case with both keys or neither, blocks of live users in normal form, every mail row under the hash of its own signature with distinct identifiers, signed by its local sender's current key and encrypted to its local recipient's current key |
| Invariants.RunKeeps | server/go/internal/store/sqlite/sqlite.go:166-233 | The same in every state any run reaches from empty tables |
| Invariants.RegisterKeeps | server/go/internal/api/handlers.go:43-105 | Registration keeps the invariant: the new name is free in every spelling |
| Invariants.RotateKeeps | server/go/internal/store/sqlite/sqlite.go:166-181 | Rotation keeps it only because all mail the user is party to goes with the old keys |
| Invariants.DestroyKeeps | server/go/internal/store/sqlite/sqlite.go:183-201 | Destruction keeps it: mail and blocks naming the user, as a party, a blocker or a target, go with the keys |
| Invariants.BlockKeeps | server/go/internal/api/handlers.go:521-531 | Blocking keeps it: the stored target is in normal form |
| Invariants.UnblockKeeps | server/go/internal/api/handlers.go:533-544 | Unblocking keeps it |
| Invariants.BurnKeeps | server/go/internal/api/handlers.go:478-493 | Burning keeps it |
| Invariants.FrontAccepts | server/go/internal/api/handlers.go:242-336 | A submission that gets as far as being relayed or stored verified under its sender's key, carries the fingerprint of its local recipient's key, has a local party, and has a signature no row has |
| Invariants.SendKeeps | server/go/internal/api/handlers.go:182-360 | A submission keeps the invariant, stored or refused |
| Invariants.InsertedRow | server/go/internal/store/sqlite/sqlite.go:210-233 | However many identifiers are drawn, `InsertMail` adds one row with a free identifier under a new signature, or changes nothing and names the row that has the signature |
| Federation.SendCodes | server/go/internal/api/handlers.go:182-360 | A submission is answered 201 with an identifier, or with an error of 400 and up |
| Lifecycle.StoredMail | server/go/internal/api/handlers.go:242-359 | Read off for one row of any run: both addresses as stored, no other row with its signature or identifier, a local party, the local sender's key of today verifies the signed message, the local recipient's key of today has the signed fingerprint |
| Lifecycle.FailedSendStoresNothing | server/go/internal/api/handlers.go:333-359 | A submission not answered 201 changes no table |
| Lifecycle.SentIsStored | server/go/internal/api/handlers.go:322-359 | One answered 201 names the row with its signature; a repeat stores nothing again; every other row is untouched |
| Lifecycle.StepAccounts | server/go/internal/store/sqlite/sqlite.go:147-201 | No request removes an account row, and none changes the row of a destroyed account |
| Lifecycle.AccountsInRun | server/go/internal/api/auth.go:79-90 | The same over any stretch of any run: destroyed accounts never come back |
| Lifecycle.RegisteredOnce | server/go/internal/store/sqlite/migrations/0001_initial.sql:5-13 | No two registrations of a run succeed for names equal up to ASCII case |
| Effects.DeniedExactly | server/go/internal/api/auth.go:38-43 | A denied request gets 403 exactly for a bad token, a bad time or a replay, and 401 exactly for missing headers, or with good token and time for an unknown or destroyed account or a bad signature |
| Effects.RegisteredExactly | server/go/internal/api/handlers.go:43-105 | Registration succeeds if and only if it may, for a name free in every spelling; then there is exactly one account more, with the keys given; otherwise no table changes |
| Effects.RotatedExactly | server/go/internal/api/handlers.go:569-595 | Rotation succeeds if and only if it is authorized and both keys are good; then that account alone has the new keys, exactly the mail naming it is gone, and blocks stay; otherwise no table changes |
| Effects.DestroyedExactly | server/go/internal/api/handlers.go:597-607 | Destruction succeeds if and only if it is authorized; then that account alone has empty keys, and exactly the mail and blocks naming it are gone |
| Effects.BurnedExactly | server/go/internal/api/handlers.go:478-493 | Burning succeeds if and only if it is authorized and a row of that identifier names the caller; then exactly that row is gone |
| Effects.BlockedExactly | server/go/internal/api/handlers.go:521-531 | Blocking succeeds if and only if it is authorized and the target parses; then exactly its row is there as well, with the time |
| Effects.UnblockedExactly | server/go/internal/api/handlers.go:533-544 | Unblocking succeeds under the same condition; then exactly the target's row is gone, in whatever spelling it was named |
| Effects.StoredContent | server/go/internal/api/handlers.go:343-359 | The row it leaves, field by field, under the normal forms of its parties |
| MailHistory.MailKept | server/go/internal/store/sqlite/sqlite.go:166-291 | No mail is lost: over any stretch of any run a row stays as it was, unless a request in it burned it or rotated or destroyed one of its parties |
| MailHistory.RowHistory | server/go/internal/api/handlers.go:322-359 | What the mail table holds after any run: exactly the rows that a submission answered 201 put there and that no such request has removed since |
| MailHistory.RemovalIsSigned | server/go/internal/api/auth.go:60-106 | Whoever removes a row is a party to it and signed that very request with the key the account had at that time |
| MailHistory.DoneIsSigned | server/go/internal/api/auth.go:60-106 | Every header-signed request that is not refused, of any kind, reads included, was signed by the account it names |
| MailHistory.KeysChangeSigned | server/go/internal/api/handlers.go:569-607 | Over any stretch of any run an account has other keys only if a request in it rotated or destroyed it that the account itself signed with its key of then |
| Delivery.SentAfterRun | server/go/internal/api/handlers.go:182-360 | After any run a submission is answered 201 if and only if its fields are there and legible (nine not empty, a subject, a whole size from 0 to 2^53, a reply reference that is absent or not empty), its addresses parse and one is local, it is in time and paid for, the keys of its parties fit, the targets the recipient has blocked do not shut the sender out, and it is stored since an earlier request or can be stored now |
| Ordinary.OrdinaryMailIsSent | server/go/internal/api/handlers.go:182-360 | In literal fields: a complete mail between two live users of an instance, a reply or not, signed, sealed to the recipient's key, timely, paid and welcome, is answered 201 and stored field by field |
| Ordinary.RefusedLetter | server/go/internal/api/handlers.go:262-336 | Any other complete and timely one is told the first thing wrong: 401, 404, 410, 409 or 401 by the keys, 403 when blocked, the old identifier when stored before, 403 for a spent token |
| Refusals.FormRefused | server/go/internal/api/handlers.go:208-260 | A submission with a bad form changes nothing and is told 400, 401, 404 or 403 by what is wrong with it |
| Refusals.SenderRefused | server/go/internal/api/handlers.go:262-273 | 503 and 401 for a sender whose instance cannot be asked, or does not know the sender |
| Refusals.RecipientRefused | server/go/internal/api/handlers.go:275-293 | 502, 404 and 410 for a recipient whose instance cannot be asked, does not know the recipient, or has destroyed the account |
| Refusals.WithoutFederation | server/go/internal/api/handlers.go:158-171 | An instance that does not federate tells 401 for a remote sender and 404 for a remote recipient |
| Refusals.NetworkRefused | server/go/internal/federation/keys.go:54-79 | In a network, a recipient whose instance turns the key request away counts as unknown (404), one whose instance is silent is unreachable (502) |
| Refusals.RelayRefused | server/go/internal/api/handlers.go:328-398 | 502 and 422 for a reply to an instance that takes none; then the remote's own 4xx and text, except 408 and 429, and 502 for any other failure |
| Refusals.NetworkTold | server/go/internal/api/handlers.go:381-398 | In a network, the sender of a relayed mail is told what the other instance or whatever turned it away answered, and 502 when the relay or its reply is lost |
| Refusals.RegisterRefused | server/go/internal/api/handlers.go:43-105 | A refused registration gets 409 exactly for a taken name, 401 exactly for a bad signature, 400 exactly for a form or keys that cannot be read, and 403 exactly for the rest |
| Refusals.AuthorizedAnswer | server/go/internal/api/handlers.go:478-607 | An authorized request gets what it asked for, or 404 for a mail that is not the caller's, or 400 for a target or keys that cannot be read |
| Reading.ListedExactly | server/go/internal/api/handlers.go:440-457 | A list of mail is shown if and only if the request is authorized, and then it has exactly what the signer received, or sent |
| Reading.GottenExactly | server/go/internal/api/handlers.go:461-475 | One mail is shown if and only if the request is authorized and the mail with that identifier names the signer; that mail and no other |
| Reading.ListedBlocksExactly | server/go/internal/api/handlers.go:546-565 | The same for the signer's blocks: each target with its time |
| Reading.KeysShown | server/go/internal/api/handlers.go:114-149 | Anybody is shown a local account's keys as they are, and a remote one's as cached less than 60 s ago or as its instance answers now, kept under its stored form; the refusals are 404, 403 and 502 |
| Reading.TakenCanBeRead | server/go/internal/store/sqlite/sqlite.go:270-278 | A mail answered 201 can be read under that identifier at any later point of any run, by its parties and nobody else, unless one of them burned it, rotated or was destroyed since |
| Federation.WorldStepKeeps | server/go/internal/api/handlers.go:322-359 | One request to one instance of a network keeps every instance's invariant and the agreement of every row with its recipient's instance, when requests between them are turned away or lost too |
| Federation.WorldRunKeeps | server/go/internal/api/handlers.go:381-398 | The same in every state any run of the network reaches |
| Federation.FederationAgreement | server/go/internal/api/handlers.go:322-359 | In every run of any network, a row for a recipient on another instance means that instance has at some time stored a mail with the same signature; and, if signatures bind what they sign, under its own names for the same two parties |
| Federation.CreatedIsLogged | server/go/internal/api/handlers.go:322-359 | An instance that answers 201 has logged a mail with that signature, also when it answers for an earlier copy, and under its own names for the parties if signatures bind what they sign |
| Federation.RelayedIsKept | server/go/internal/api/handlers.go:338-359 | A mail that is relayed, taken by the other instance and answered is kept on both sides, and its sender told 201 |
| Federation.FailedWorldSend | server/go/internal/api/handlers.go:338-359 | A submission in the network that is not answered 201 leaves the tables of its instance unchanged, whatever became of the relay |
| WorldCaches.WorldCachesOk | server/go/internal/federation/keys.go:54-79 | In every run of a network, key look-ups by users included, keys that a cache knows as destroyed belong to accounts that are destroyed |
| WorldCaches.NetworkIsSteady | server/go/internal/federation/keys.go:54-79 | So what `KeysTransparent` asks of a remote account holds in every run, of every account on an instance that can be reached |
| Federation.TakenIsAnswered | server/go/internal/federation/relay.go:24-36 | A relay counts as accepted only when the other instance answered 201 |
| Blocklist.RawFormIsHarmless | server/go/internal/api/handlers.go:533-544 | The raw spelling passed to `RemoveBlock` beside the stored one removes no other target |
| Blocklist.StepRefines | server/go/internal/api/handlers.go:497-544 | Every request does to the table what it does to the set of parsed targets |
| Blocklist.RunRefines | server/go/internal/store/sqlite/sqlite.go:295-328 | After any run of block, unblock, destroy and everything else, in any spelling, the table is that set |
| Blocklist.RefusedExact | server/go/internal/api/handlers.go:310-320 | A mail to a local user is refused as blocked exactly when the set holds the sender or the sender's domain, or the sender's domain has no dot and is spelled like a local user in the set |
| Blocklist.RefusedForDotted | server/go/internal/protocol/address.go:106-128 | So the list is exact for every sender whose domain holds a dot |
| Blocklist.DotlessDomainMistaken | server/go/internal/protocol/address.go:119-128 | The exception is real: in an instance in order, whose one user blocks a local neighbour, a named sender of another instance is refused |
| Blocklist.SendRefusal | server/go/internal/api/handlers.go:310-320 | The 403 for a blocked sender is answered exactly then, once the other checks passed |
| KeyCache.Keys.Lookup | server/go/internal/federation/keys.go:54-79 | The cache and the answer after one lookup, against the specification `Looked` |
| KeyCache.Keys.Sweep | server/go/internal/federation/keys.go:100-109 | Old entries go, the rest stay |
| KeyCache.LookedIsKept | server/go/internal/federation/keys.go:54-79 | An answer is kept and serves every ordinary lookup of the next minute, a failure is not kept, and no other young entry is lost |
| KeyCache.AskedWhen | server/go/internal/federation/keys.go:54-79 | The network is asked exactly when a fresh answer is wanted or none is known from the last 60 s |
| KeyCache.OldGoTogether | server/go/internal/federation/keys.go:100-109 | Entries older than that stay until there are 4096, and then go at the next answer |
| CacheTransparency.KeysTransparent | server/go/internal/api/handlers.go:262-308 | Key checks that pass with an empty cache pass with any cache, as long as the remote answers and its destroyed accounts stay destroyed |
| CacheTransparency.SendTransparent | server/go/internal/api/handlers.go:158-171 | Such a submission gets the same answer and leaves the same tables |
| CacheTransparency.RecentExactly | server/go/internal/api/handlers.go:275-300 | Every acceptance of a fingerprint for a remote recipient, by any instance in any state, rests on a key fetched now or cached less than 60 s ago, if and only if it is not the fingerprint of the empty key |
| CacheTransparency.SentRests | server/go/internal/api/handlers.go:262-308 | A mail answered 201 rests on such keys of its remote party |
| CacheTransparency.KeysExactly | server/go/internal/api/handlers.go:262-308 | The key checks pass if and only if the sender's key, local or recent, verifies the signed fields and the recipient's key, local or recent, has the signed fingerprint, but for the empty key's fingerprint of an account that is cached and gone |
| CacheHistory.CacheProvenance | server/go/internal/federation/keys.go:54-79 | In any run each cache entry was answered by the instance of its account, during an earlier submission or key look-up, at the time it bears |
| CacheHistory.LookUpFollows | server/go/internal/api/handlers.go:114-127 | A request for a remote user's public keys enters in the cache only what that user's instance answers it now |
| CacheHistory.SentRestsOnAnswers | server/go/internal/api/handlers.go:262-308 | So a mail answered 201 after any run rests on keys its remote party's own instance gave within the last 60 s |
| CacheTransparency.SenderRecent | server/go/internal/api/handlers.go:302-308 | An accepted signature verifies under such a key of the sender |
| CacheTransparency.EmptyFingerprintPasses | server/go/internal/api/handlers.go:291-300 | The exception is real: when the second fetch fails, a mail with the fingerprint of the empty key passes |
| TtlSet.Set.constructor | server/go/internal/ttlset/ttlset.go:23-30 | A new set is empty |
| TtlSet.Set.Add | server/go/internal/ttlset/ttlset.go:33-55 | The generations, the rotation time and the answer after one call, against the specification `AddTo` |
| TtlSet.AlwaysBounded | server/go/internal/ttlset/ttlset.go:3-7 | In every run the two generations are disjoint and hold at most 2·max keys (one each when max is 0) |
| TtlSet.AcceptedAgain | server/go/internal/ttlset/ttlset.go:33-55 | A key accepted again was last accepted at least a ttl ago, or at least max other keys were accepted since |
| TtlSet.AcceptedAgainByTime | server/go/internal/ttlset/ttlset.go:40-46 | With no rotation for fullness it is more than a ttl: at exactly ttl the key is still remembered |
| TtlSet.RejectedAge | server/go/internal/ttlset/ttlset.go:3-7 | A rejected key was accepted at most 3·ttl - 2 ticks ago, and at most 2·ttl + g - 2 when calls are at most g ticks apart |
| TtlSet.PausedRunBreaks | server/go/internal/ttlset/ttlset.go:3-7 | A run that rejects a key more than 2·ttl after its acceptance |
| TtlSet.PromiseExact | server/go/internal/ttlset/ttlset.go:3-7 | The documented "at most 2·ttl" holds of all runs exactly when calls are at most 2 ticks apart or the ttl is at most 2 ticks |
| Replay.OnceOnlyExact | server/go/internal/api/server.go:46-49 | For any validity window, any delay between check and record and any ttl: no key passes twice in any run without a rotation for fullness, if and only if ttl >= window + delay |
| Replay.AgreesWithUnbounded | server/go/internal/ttlset/ttlset.go:3-7 | With ttl >= window + delay and no rotation for fullness the set answers like the unbounded set it replaces: a call is accepted if and only if no earlier call brought its key |
| Replay.InWindowSpan | server/go/internal/api/auth.go:17-24 | A timestamp is accepted for 601 whole seconds, less one tick of the clock |
| Replay.SignatureOnce | server/go/internal/api/server.go:46-49 | The ten-minute set takes each signature string once exactly on a clock of whole seconds with no delay |
| Replay.SignatureOnceWithMargin | server/go/internal/api/server.go:46-49 | 601 seconds would do for that, for delays up to one tick |
| Replay.FreshDaySpan | server/go/internal/protocol/pow.go:54-62 | A token's date is accepted for three days, less one tick |
| Replay.TokenOnce | server/go/internal/api/server.go:46-49 | The 72-hour set lets a token pay once exactly when it is recorded at most one tick after its check |
| SetRuns.TakenAgain | server/go/internal/ttlset/ttlset.go:33-55 | Over a run of requests some of which bring keys: a key is taken again only after the ttl, or after a generation of others |
| ReplayRuns.StepSeen | server/go/internal/api/auth.go:60-106 | A request, a read included, adds the signature it showed to the set of seen ones exactly when it passed every check; mail submissions and key look-ups add none |
| ReplayRuns.SeenIsCalls | server/go/internal/api/auth.go:30-36 | The instance's set after any run is the set its requests' calls make |
| ReplayRuns.UsedAgain | server/go/internal/api/auth.go:30-36 | A signature authenticates a second request of a run only after ten minutes, or after 250,000 other signatures |
| ReplayRuns.ServedUses | server/go/internal/api/auth.go:60-106 | Every registration and every header-signed request that is not refused, reads included, used its signature up |
| SignedRequests.ClaimsReadOneWay | server/go/internal/protocol/signed.go:19-68 | Registrations and signed requests of any kind: equal signed texts mean equal claims |
| SignedRequests.SameClaim | server/go/internal/api/auth.go:60-106 | In any run, a signature string that authenticates twice, reads included, stands for the same kind of request, path, name, timestamp and body digest both times, if no signature binds two messages |
| SignedRequests.ReplayWithinSecond | server/go/internal/api/auth.go:17-36 | Such a second use falls in the last second of the 601 in which the timestamp is accepted, and the first in the first, as long as no generation fills up |
| SignedRequests.ClaimPassesOnce | server/go/internal/api/auth.go:30-36 | If the verifier reads one string for a message at most, a signed text gets through once, but for that second, in whatever spelling |
| SignedRequests.MailSignsNoRequest | server/go/internal/protocol/signed.go:19-68 | If signatures bind what they sign, no signature that authenticated a request of a run is the signature of a mail stored at any point of it |
| Respelling.PaddedIsSame | server/go/internal/protocol/sig.go:43-56 | With one "=" more a signature is another string for the same bytes |
| Respelling.BlankIsNothing | server/go/internal/protocol/sig.go:43-56 | So is one with a space, tab, line feed or carriage return more anywhere |
| Respelling.UrlIsStandard | server/go/internal/protocol/sig.go:43-56 | And one in the URL alphabet |
| Respelling.RespelledPasses | server/go/internal/protocol/sig.go:30-56 | So the verifier reads many: an accepted request is accepted again at once, respelled and with a new token, whatever the set remembers of the first spelling |
| ReplayExamples.DemoIsProper | server/go/internal/protocol/sig.go:30-56 | There is an environment whose verifier reads signatures through that decoder and in which no signature binds two messages |
| ReplayExamples.RespelledTwice | server/go/internal/api/auth.go:30-36 | There a run in which one claim passes twice at the same time in two spellings |
| ReplayExamples.SameStringTwice | server/go/internal/api/auth.go:17-36 | And a run in which one signature string passes twice, ten minutes and a tick apart, with no generation full |
| PowRuns.StepSpent | server/go/internal/api/handlers.go:322-336 | A request, a read included, adds its token to the set of spent ones exactly when it got that far: a new signature for a signed request, every check and no earlier copy for a mail |
| PowRuns.PaidIsFresh | server/go/internal/protocol/pow.go:27-62 | Only a token of yesterday, today or tomorrow gets that far |
| PowRuns.PaysAgain | server/go/internal/api/server.go:46-50 | In every run a token pays again only after at least 250,000 other tokens were taken since, and within 72 hours |
| PowRuns.TokenPaysOnce | server/go/internal/api/auth.go:26-36 | In every run, as long as no generation fills up, no token pays for two requests of any kind, a read and a write among them |
| PowRuns.ChangesArePaid | server/go/internal/api/handlers.go:322-359 | Every request that changes a table paid with its token, and so did every read of a user's own rows that was answered |
| Limiter.Limiter.constructor | server/go/internal/api/server.go:181-183 | A new limiter has no buckets |
| Limiter.Limiter.Allow | server/go/internal/api/server.go:185-207 | The buckets, the sweep time and the answer after one request, against the specification `AllowStep` |
| Limiter.Limiter.Sweep | server/go/internal/api/server.go:188-195 | The sweep drops the buckets idle for more than ten minutes, and no other |
| Limiter.IdleIsNew | server/go/internal/api/server.go:185-207 | A bucket idle for ten minutes answers like a new one when burst <= 600·rate |
| Limiter.SweptMatchesPlain | server/go/internal/api/server.go:185-207 | Under that condition the swept table answers, and will answer, like one that is never swept |
| Limiter.SweepInvisibleExact | server/go/internal/api/server.go:185-207 | The sweep is invisible in all runs if and only if burst <= 600·rate |
| Limiter.OneClient | server/go/internal/api/server.go:185-189 | Two addresses share a bucket exactly when equal or in the same IPv6 /64 |
| Limiter.RateBound | server/go/internal/api/server.go:185-207 | With burst <= 600·rate, in any stretch of length t of any run one client gets at most burst + rate·t requests; hosts of one IPv6 /64 count as one client |
| Limiter.RateBoundExact | server/go/internal/api/server.go:185-207 | That bound holds of all runs, clients and stretches if and only if burst <= 600·rate: else two bursts a little over ten minutes apart get through |
| Limiter.Served | server/go/internal/api/server.go:185-207 | Whoever was let through by no request of the last 1/rate seconds is let through, in any run and whatever was refused meanwhile |
| Limiter.ForgottenAfter | server/go/internal/api/server.go:188-195 | Right after any request no bucket was used more than 660 seconds ago, and no tighter bound holds |
| Signed.AppendJSString | server/go/internal/protocol/signed.go:97-133 | The loop that steps over runes appends the bytewise JSON quotation of any byte string, valid UTF-8 or not |
| Signed.StepsByRunes | server/go/internal/protocol/signed.go:97-106 | Over well-formed UTF-8 the loop steps by whole code points |
| Signed.QuoteVerbatim | server/go/internal/protocol/signed.go:94-96 | Text without quotes, backslashes and control characters is written as it is between quotes, slashes and bytes from 128 up included |
| Signed.QuoteOne | server/go/internal/protocol/signed.go:107-131 | Quote, backslash and the control characters have the seven short escapes and lower-case hexadecimal, each written out |
| Signed.QuotePieces | server/go/internal/protocol/signed.go:97-133 | Longer text is quoted piece by piece, so these three determine every quotation |
| Signed.JsonObj.constructor | server/go/internal/protocol/signed.go:70-92 | An object with no members |
| Signed.JsonObj.Key | server/go/internal/protocol/signed.go:72-80 | A comma unless it is the first member, then the quoted key and a colon |
| Signed.JsonObj.AddStr | server/go/internal/protocol/signed.go:82-85 | One more string member |
| Signed.JsonObj.AddNum | server/go/internal/protocol/signed.go:87-90 | One more number member |
| Signed.JsonObj.Done | server/go/internal/protocol/signed.go:92-92 | The object's text |
| Signed.BuildRegisterMessage | server/go/internal/protocol/signed.go:19-26 | Builds the registration text of its four fields, in order |
| Signed.BuildMailMessage | server/go/internal/protocol/signed.go:30-44 | Builds the mail text of its fields, `enc_reply_to` only when there is one |
| Signed.UnquoteQuote | server/go/internal/protocol/signed.go:97-133 | Decoding (section 7 of RFC 8259) recovers any byte string from its quotation |
| Signed.ReadObjectOf | server/go/internal/protocol/signed.go:70-92 | Decoding recovers every member of an object, in order |
| Signed.MailMembers | server/go/internal/protocol/signed.go:30-44 | Decoding a mail text and looking members up by name gives every field, and `enc_reply_to` exactly for a reply |
| Signed.RegisterMembers | server/go/internal/protocol/signed.go:19-26 | The same for a registration text |
| Signed.MailMemberList | server/go/internal/protocol/signed.go:30-44 | Decoded, a mail text has exactly these members, in this order |
| Signed.RegisterMemberList | server/go/internal/protocol/signed.go:19-26 | The same for a registration text |
| Signed.MailText | server/go/internal/protocol/signed.go:30-44 | The mail text member by member as it stands, without blanks and with the size in plain digits |
| Signed.RegisterText | server/go/internal/protocol/signed.go:19-26 | The same for a registration text |
| Signed.MailMessageInjective | server/go/internal/protocol/signed.go:30-44 | Equal mail bytes mean equal fields, presence of `enc_reply_to` included |
| Signed.RegisterMessageInjective | server/go/internal/protocol/signed.go:19-26 | Equal registration bytes mean equal fields |
| Signed.HeaderParts | server/go/internal/protocol/signed.go:57-59 | Cut at its colons a header text has the method first, username and timestamp last, and the path, colons and all, between |
| Signed.HeaderMessageInjective | server/go/internal/protocol/signed.go:57-59 | Equal header bytes mean equal method, path (colons allowed), username and timestamp, of accepted headers |
| Signed.HeaderBodyMessageInjective | server/go/internal/protocol/signed.go:64-68 | The same with the body digest |
| Signed.HeaderKindsDisjoint | server/go/internal/protocol/signed.go:57-68 | A header text is never a header-with-body text: a username has a letter, an accepted timestamp none |
| Signed.KindsDisjoint | server/go/internal/protocol/signed.go:19-68 | No text of one of the four kinds is a text of another |
| Pow.SmallByBytes | client/src/lib/libshyake.c:289-308 | Whole zero bytes and then a short one is a big-endian value below 2^(160 - bits) |
| Pow.MintMatch | client/src/lib/libshyake.c:289-308 | The client's test decides that the hash is below 2^(160 - bits) |
| Pow.LeadingZeroBits | server/go/internal/protocol/pow.go:64-72 | So does the Go server's |
| Pow.WorkerMatch | server/cf/src/utils.ts:26-58 | So does the Worker's bit string |
| Pow.VerifyExact | server/go/internal/protocol/pow.go:27-50 | The server accepts a token exactly when it is six plain fields around the resource, with a difficulty, a fresh date, at most 256 bytes and a small hash |
| Pow.OneResource | server/go/internal/protocol/pow.go:27-50 | No token is accepted for two resources, on any two days |
| Pow.MintPow | client/src/lib/libshyake.c:256-312 | The loop returns the first counter below 0xFFFFFFFF whose header hashes small, cut to the buffer, or nothing when it runs through all of them |
| Pow.HexIsRead | client/src/lib/libshyake.c:286-288 | The counter is written in lower-case hexadecimal without leading zeros, and reads back |
| Pow.RoundsDiffer | client/src/lib/libshyake.c:281-308 | Every round of the loop tries another header if and only if the text before the counter has at most 247 characters |
| Pow.MintedVerifies | client/src/lib/libshyake.c:282-309 | A token that fits the buffer, minted with at least 20 bits, verifies for its resource, colons included, from a day before its date to a day after |
| Pow.ServersAgree | server/cf/src/utils.ts:26-58 | The Go server accepts exactly what the Worker accepts among tokens whose difficulty is a decimal integer and which have at most 256 bytes |
| Pow.UnitsOfCodePoint | server/cf/src/utils.ts:26-58 | The Worker's length counts two for a code point from 2^16 up and one for any other |
| Pow.WhiteIsSpace | server/cf/src/utils.ts:26-58 | Of well-formed text in front of a difficulty, exactly the white space of JavaScript is skipped |
| Pow.LongTokenDiffers | server/cf/src/utils.ts:26-58 | A token of 20 bits with 200 accented letters, which the Worker measures in UTF-16 units and takes, and the Go server measures in bytes and does not |
| Pow.ServersDiffer | server/cf/src/utils.ts:26-58 | A token with difficulty "20x", which the Worker takes and the Go server does not |
| Addresses.ScanUsername | server/go/internal/protocol/address.go:12-28 | The scan decides the documented form: 4 to 16 word characters, one of them a letter |
| Addresses.ScanDomain | server/go/internal/protocol/address.go:43-71 | The scan decides the documented form: lowercase host labels and an optional port |
| Addresses.NameForm | server/go/internal/protocol/address.go:12-28 | A name is 4 to 16 letters, digits and underscores with a letter among them, written out |
| Addresses.DomainForm | server/go/internal/protocol/address.go:43-71 | A domain is labels of 1 to 63 lower-case letters, digits and inner hyphens, joined by dots to at most 253 characters, and at most a colon and 1 to 5 digits |
| Addresses.DomainChars | server/go/internal/protocol/address.go:43-71 | A valid domain has no "@" and no upper case |
| Addresses.AddressForm | server/go/internal/protocol/address.go:88-102 | Parsing accepts exactly a name, or a name, an at sign and a domain in any case, and yields the address they spell |
| Addresses.TargetForm | server/go/internal/protocol/address.go:106-115 | A target to block may be a domain with a dot in it besides, and nothing else |
| Text.LowerFolds | server/go/internal/protocol/address.go:30-38 | Texts are equal in lower case exactly when they are equal but for the case of the 26 letters |
| Text.ParseIntExact | server/go/internal/api/auth.go:17-24 | Timestamps and difficulties are read exactly from an optional sign, zeros and the decimal digits of a 64-bit integer |
| Addresses.ParsedIsCanonical | server/go/internal/protocol/address.go:88-115 | What parsing yields, told without the parser |
| Addresses.ReparseCanonical | server/go/internal/protocol/address.go:119-128 | Re-parsing the stored form of any such address gives it back |
| Addresses.StoredReparses | server/go/internal/protocol/address.go:106-128 | Parsing, storing and parsing again changes nothing |
| Addresses.StoredInjective | server/go/internal/protocol/address.go:119-128 | No two targets share a stored form |
| Addresses.OneStoredForm | server/go/internal/protocol/address.go:88-128 | Two accepted spellings store alike exactly when they name the same user on the same domain up to case |
| Addresses.StoredIsBareName | server/go/internal/protocol/address.go:119-128 | A stored form is a bare name exactly for a local user |
| Addresses.OtherInstanceView | server/go/internal/protocol/address.go:88-102 | Another instance parses a qualified address to the same user and domain; only whose it is changes |
| Addresses.WorkerAgrees | server/cf/src/utils.ts:81-101 | The Worker stores the same string and sees the same domain for every target the Go parser accepts |
| Addresses.WorkerNormalizeIdempotent | server/cf/src/utils.ts:81-90 | On any text, normalizing twice is normalizing once, if and only if the text is not an own address whose local part looks like a domain in upper case |
| Addresses.NotNormal | server/cf/src/utils.ts:81-90 | Such a text: "Bob.x@own" becomes "Bob.x", and that "bob.x" |
| Store.DB.CreateUser | server/go/internal/store/sqlite/sqlite.go:147-156 | One new row, refused when the name is taken in any spelling |
| Store.DB.GetUser | server/go/internal/store/sqlite/sqlite.go:158-164 | The row of a name |
| Store.DB.RotateKeys | server/go/internal/store/sqlite/sqlite.go:166-181 | New keys for one row, and no mail it is party to |
| Store.DB.DestroyUser | server/go/internal/store/sqlite/sqlite.go:183-201 | Empty keys for one row, no mail it is party to, no block with it on either side |
| Store.DB.InsertMail | server/go/internal/store/sqlite/sqlite.go:210-233 | The retry loop computes `InsertFrom` |
| Store.DB.MailIDBySignature | server/go/internal/store/sqlite/sqlite.go:235-240 | The identifier of the row with a signature |
| Store.DB.DeleteMail | server/go/internal/store/sqlite/sqlite.go:280-291 | Without the rows of that identifier the user is party to |
| Store.DB.ListMail | server/go/internal/store/sqlite/sqlite.go:242-266 | The references of what a user received, or sent |
| Store.DB.GetMail | server/go/internal/store/sqlite/sqlite.go:268-278 | The reference of the row with an identifier, for its parties |
| Store.DB.ListBlocks | server/go/internal/store/sqlite/sqlite.go:330-347 | A blocker's targets with their times |
| Store.DB.Blocked | server/go/internal/store/sqlite/sqlite.go:295-311 | Whether any candidate is blocked |
| Store.DB.AddBlock | server/go/internal/store/sqlite/sqlite.go:313-318 | One row more, or a new time for it |
| Store.DB.RemoveBlock | server/go/internal/store/sqlite/sqlite.go:320-328 | Without the named rows, all others kept |
| Server.Server.constructor | server/go/internal/api/server.go:39-55 | A new server is the fresh instance |
| Server.Server.Fresh | server/go/internal/api/auth.go:30-36 | Marks the signature, then the token, and the token only when the signature was new |
| Server.Server.Auth | server/go/internal/api/auth.go:60-106 | The checks in order, on the live objects, do what `Authenticate` does to their values |
| Server.Server.Register | server/go/internal/api/handlers.go:43-105 | Updates the live objects as `Handlers.Register` does their values |
| Server.Server.KeysFor | server/go/internal/api/handlers.go:158-171 | Local keys from the table, remote ones through the cache |
| Server.Server.RecipientKeys | server/go/internal/api/handlers.go:275-300 | The recipient's keys, asked for again once on a mismatch |
| Server.Server.VerifySender | server/go/internal/api/handlers.go:302-308 | The signature, tried again once with the sender's keys fetched afresh |
| Server.Server.SenderAndRecipient | server/go/internal/api/handlers.go:262-308 | Both, in the order and with the errors of the code |
| Server.Server.Accepting | server/go/internal/api/handlers.go:208-336 | Everything before the relay, in place |
| Server.Server.SendMail | server/go/internal/api/handlers.go:182-360 | The submission handler, in place |
| Server.Server.BurnMail | server/go/internal/api/handlers.go:478-493 | The burn handler, in place |
| Server.Server.BlockTarget | server/go/internal/api/handlers.go:497-531 | The block handler, in place |
| Server.Server.UnblockTarget | server/go/internal/api/handlers.go:533-544 | The unblock handler, in place |
| Server.Server.RotateKeys | server/go/internal/api/handlers.go:569-595 | The rotate handler, in place |
| Server.Server.DestroyAccount | server/go/internal/api/handlers.go:597-607 | The destroy handler, in place |
| Server.Server.ListMail | server/go/internal/api/handlers.go:440-457 | The handler that lists mail, in place: it marks the signature and the token |
| Server.Server.GetMail | server/go/internal/api/handlers.go:461-475 | The handler that shows one mail, in place |
| Server.Server.ListBlocks | server/go/internal/api/handlers.go:546-565 | The handler that lists blocks, in place |
| Server.Server.Pubkey | server/go/internal/api/handlers.go:114-149 | The public-key handler, in place: for a remote user it goes through the cache |
| Server.Server.Handle | server/go/internal/api/handlers.go:43-607 | One request to the live server is one step of the model all run results are about |
| Scissors.CopyQuoted | client/src/cli/main.c:589-609 | The moving pointer writes the answered mail with every would-be scissors line pushed aside |
| Scissors.CountSize | client/src/cli/main.c:589-597 | The size that is allocated |
| Scissors.Fits | client/src/cli/main.c:589-613 | The text and its terminator fit that size |
| Scissors.WithScissors | client/src/cli/main.c:589-613 | The allocated buffer holds the whole text and its terminator; nothing is cut off, and the answered mail is at its start, line by line |
| Scissors.AfterScissors | client/src/cli/main.c:616-625 | The line walk finds what follows the first scissors line |
| Scissors.RoundTrip | client/src/cli/main.c:565-625 | Cutting what was joined gives the draft back for every answered mail, even one made of scissors lines |
| Scissors.EditorText | client/src/cli/main.c:589-613 | The text above the note has the lines of the answered mail in order, each as it was, with a space in front exactly when it starts like the scissors line |
| Scissors.PlainMailUnchanged | client/src/cli/main.c:600-613 | A mail of whole lines, none of which does, is there byte for byte |
| WordWrap.Utf8Next | client/src/cli/display.c:18-53 | The decoded code point and the next position, which is past this one and at most the terminator's |
| WordWrap.ReadsBytes | client/src/cli/display.c:18-53 | On any bytes: a first byte followed by all the continuation bytes it announces is read with the value of their bits, overlong or not, and anything else is one unreadable byte |
| WordWrap.ReadsUtf8 | client/src/cli/display.c:18-53 | Every code point of well-formed UTF-8 is read back, surrogates and NUL aside |
| WordWrap.WidthOf | client/src/cli/display.c:55-82 | Columns: none for what cannot be read, two for kana, ideographs, hangul, full-width forms and emoji, one for Latin and half-width text |
| WordWrap.SegmentWidth | client/src/cli/display.c:84-93 | The display width of a printed segment is the width counted while scanning |
| WordWrap.BreakAdvances | client/src/cli/display.c:215-263 | Every line takes at least one character |
| WordWrap.BreakIsGood | client/src/cli/display.c:215-263 | Every line fits the width, ends at the end of the text, at the last space that fits, or where the next character would not fit, and what is dropped after it is spaces |
| WordWrap.BreaksAtOverlong | client/src/cli/display.c:18-53 | The three bytes E0 80 A0 decode to a space, a line breaks there, and the next line starts with them |
| WordWrap.LinesAreGood | client/src/cli/display.c:215-263 | All lines of any text are such lines, each starting where the one before left off |
| WordWrap.WrapKeepsText | client/src/cli/display.c:215-263 | The lines with the spaces dropped at breaks, put together, are the text |
| WordWrap.ScanLine | client/src/cli/display.c:215-250 | The inner loop finds the break |
| WordWrap.PrintWordWrap | client/src/cli/display.c:215-263 | The outer loop ends on every byte string and prints those lines, indented |
| WordWrap.PrintedRows | client/src/cli/display.c:215-263 | Of text without newlines the terminal shows a row for each line, the first as it is and the others after the indent |
| Import.ImportUsers | server/go/internal/store/sqlite/import.go:117-144 | Imported plus skipped is everything read, and the first spelling of each name to be read keeps it |
| Import.SkippedNames | server/go/internal/store/sqlite/import.go:117-144 | The names it reports as skipped are, in order and as they were spelled, those of the rows with an earlier spelling |
| Import.EarliestKeepsName | server/go/internal/store/sqlite/import.go:117-144 | Read in the code's order, that is the earliest of its class by time and then name |
| Import.ImportMail | server/go/internal/store/sqlite/import.go:146-187 | Imported plus duplicate is everything read, and the first copy of each signature is kept as it was |
| Import.ImportBlocks | server/go/internal/store/sqlite/import.go:189-213 | Every row is counted and stored under its normalized target |
| Import.NormalizedIsNormal | server/go/internal/store/sqlite/import.go:189-213 | A normalized target is in normal form and parses to what it parsed to |
| Import.ImportedTargetsNormal | server/go/internal/store/sqlite/import.go:189-213 | So every imported target is, and exactly the normalized pairs are imported |
| Import.LastTimeStays | server/go/internal/store/sqlite/import.go:189-213 | Of the rows that normalize to one target, the last one read leaves its time |

## Left out

- Federation.FederationAgreement: that a mail with the same signature was stored holds outright; that the addresses agree is for signatures that bind what they sign (`Sound`: no signature string verifies over two messages, SHA-256 does not collide), because an instance answers a repeated signature with the row it has.
- Federation.WorldStepKeeps: the network is a map from domains to instance values, and a relay is handled while no other request is; interleavings inside one handler are not modelled.
- Blocklist.RefusedExact: for an instance whose own configured domain is valid, as its configuration must be.
- CacheTransparency.KeysTransparent: for submissions with a local party, the only ones that reach the key checks.
- CacheTransparency.KeysExactly: for remote instances that say the same when asked twice and nothing better of an account cached as destroyed; whether they answer at all does not matter.
- Delivery.SentAfterRun: refusals are told apart from success, not from each other, which `Refusals` and `Ordinary.RefusedLetter` do. That a token is new is told by `PowRuns.PaysAgain`.
- Limiter.RateBound: for burst <= 600·rate, the exact condition (`RateBoundExact`); token buckets over real numbers, not floating point, with a positive rate and burst as the configuration demands; buckets are values in the table, not shared objects.
- Limiter.SweepInvisibleExact: an address counts as its client (an IPv6 address by its /64 prefix); the client's address itself is taken from the request as it is.
- TtlSet.PromiseExact: for generations of two keys or more; with fewer, the second key of a generation already rotates the set.
- TtlSet.AcceptedAgain: for a clock that is past zero and does not run back.
- Replay.OnceOnlyExact: for runs without a rotation for fullness; `AcceptedAgain` says what a full generation does.
- Pow.ServersAgree: one function reads the date for both servers, while JavaScript rolls "260230" over to March and Go refuses it; the token is UTF-8 text, as a JSON string is (a header's bytes from 128 up are not modelled).
- Replay.AgreesWithUnbounded: for runs without a rotation for fullness.
- SignedRequests.SameClaim: for signatures that bind what they sign, and digests of 64 hexadecimal digits.
- Limiter.ForgottenAfter: for a clock that starts past the zero the last sweep is first set to.
- WordWrap.WidthOf: the ranges it names; the whole table of wide characters is `WordWrap.Wide`.
- WordWrap.PrintedRows: for text without newlines of its own, such as a subject.
- Pow.MintPow: the random part is a parameter, and the bits asked for are at most the 160 of the hash.
- Pow.MintedVerifies: for a token that fits the client's 256-byte buffer; a longer one is cut and need not verify.
- Signed.HeaderMessageInjective: for headers the server accepts (an HTTP method without a colon, a valid username, a decimal timestamp); the digest stands for the body.
- Addresses.WorkerAgrees: ASCII case folding only.
- Import.EarliestKeepsName: names are distinct in the source, where they are a primary key.
- Import.ImportMail: identifiers are distinct in the source, where they are a primary key.
- Store.DB.InsertMail: the three identifiers it may draw are given in advance, and a database failure other than a constraint is not modelled.
- Server.Server.SendMail: one clock reading for the whole handler; mutexes and shared lookups of the key cache do not appear.
- The size field of a submission is a real number, so the range and integrality checks are modelled and the decoding of a float is not.
- Interiors of ML-DSA, ML-KEM, SHA-1 and SHA-256, and the two-digit-year calendar: arbitrary functions.
- JSON parsing of request bodies, HTTP, SQL text, DNS, TLS, logging and configuration: I/O. The texts of remote errors are passed on as they come; their cleaning is not part of this model.
- Version and health: they change no state. Mail a read shows is named by its references, without the order of a list or the choice of columns.
- Secret-key, draft and `.enc` containers of the client: with cryptography abstracted they are simple offset round trips.
- Draft editor, pager and terminal handling around the two text algorithms; C strings are sequences without NUL.
- The dump loading and row ordering before import: rows come in the order the code reads them.
