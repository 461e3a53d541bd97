# llm-d-fleet: a verified model of its protocols

llm-d-fleet is a control plane for fleets of inference clusters. It admits operator *intents*, drives
each one as an *operation* through a governed lifecycle backed by ledger receipts, elects one leader,
limits the rate of its callers, publishes routing files for llm-d Router, and moves KV-cache blocks
between clusters. This project models those parts in Dafny and proves what they keep over every input
and every run, including the interleavings in which separate calls read and write at different times.

`dafny verify dfyconfig.toml` checks everything.

| module | models |
|---|---|
| `Utf8`, `Decimal`, `JsonText`, `JsonShortest`, `CanonicalJson`, `CanonicalWriter` | the canonical JSON whose bytes are signed, next to an independent parser of RFC 8259 |
| `Lifecycle`, `Ledger`, `Operations`, `IntentRepository`, `IntentService`, `IntentRuns`, `IntentAnswers`, `IntentRaces`, `IntentSuccess`, `IntentSubmission` | the intent service: the state table, the proof ledger, the repository with its idempotency index, the service, all interleavings of its calls, and the HTTP handler's compensation |
| `RateLimiter`, `RateWindows` | token buckets with eviction, against a limiter that never forgets and one that only counts |
| `LeaseElection`, `LeaderWorkers` | leader election over one Kubernetes lease, and the supervisor of the leader's workers |
| `KvFraming`, `TransferCoordinator` | the TCP framing of KV blocks, and the job table of the transfer coordinator |
| `RoutingPublication`, `RoutingRuns` | the endpoint files published for llm-d Router, one call and whole runs |
| `ProviderHealth`, `ProviderSelection` | probe hysteresis and round-robin selection |
| `Basics`, `ByteSort`, `GoText` | shared helpers: bytes and options, Go's string order and sorting, Go's string functions |

Code that updates state in place is a class or a method proved against a pure function; what the system
promises is then proved of those functions, over whole runs. Concurrent code is a state machine whose
steps are the points at which the real code takes its lock or sends a request.

## Where the code does less than it says

Some promises do not hold of the code as it stands. Each has the exact condition under which it does.

- Transitions are documented as append-only (pkg/intents/types.go:113-114). Every call reads an operation and
  writes it back under two separate locks, so a stale write drops entries and can bring a failed operation
  back (`IntentRaces.StaleWriteRevives`). `IntentRaces.WriteKeepsHistoryIff` and `IntentRaces.FirstLossIff`
  say exactly when a write does. The histories stay valid regardless.
- Operation IDs are twelve bytes of a digest of the key. The index and the operations mirror each other in
  every run exactly when no two submitted keys collide (`IntentRuns.MirrorsIffNoCollision`). All answers to one
  key name one operation exactly then, or where failed submissions are not compensated
  (`IntentAnswers.AgreeIffNoCollision`); otherwise the code can answer with an empty operation ID
  (`IntentAnswers.CollisionForgets`). Histories and their evidence do not depend on this.
- A caller that was answered with an operation, even by a replay, can rely on it exactly when the service has no
  ledger gateway to compensate for (`IntentAnswers.AnswersLastIff`).
- A failed submission is meant to leave nothing behind. It does so exactly when the operation it was answered
  with was not stored before; a failed replay deletes the operation that an earlier, successful call had created
  (`IntentSubmission.TakingBackRestoresIff`, `IntentSubmission.FleetController.SubmitIntent`).
- An intent whose kind is spelled `prewarm`, as its action class is, cannot have its admission proven
  (`IntentSubmission.EntryTypeExpected`).
- Dropping idle rate-limit buckets can be observed, and the configured rate exceeded, unless a bucket refills
  within its time to live (`RateLimiter.UnobservableIffRefills`, `RateLimiter.BoundedIffRefills`).
- A raised leader flag does not exclude a second raised flag (`LeaseElection.FlagsCanOverlap`). It can be
  trusted exactly while the elector's own last version of the lease is unexpired
  (`LeaseElection.FlagTrustedIffUnexpired`).
- An accepted cancellation of a transfer lasts exactly when the job was already in progress; a pending job's
  worker overwrites it (`TransferCoordinator.CancelLastsIffInProgress`).
- A block's length field wraps for payloads over 2^32 - 10 bytes (`KvFraming.BlockRoundTrip`).
- Model files are named by six bytes of a digest; two active models with one name leave one of them served
  with the other's endpoints (`RoutingRuns.AllServedIffDistinctNames`, `RoutingRuns.SharedNameMisserves`).
- A comment says the index is published last. The directory publisher walks a Go map, whose order is
  arbitrary. Readers are safe in every order exactly when every active model already had its file
  (`RoutingRuns.SafeInAnyOrderIff`).
- Empty files replace every *previously published* model file, but only those this process rendered: after
  a restart the others stay (`RoutingRuns.IdleFilesEmptyIff`, `RoutingRuns.LeftoverSurvives`).
- Round robin over consecutive calls that see the same candidates is even only while the 64-bit counter does not
  wrap, unless the number of candidates divides 2^64 (`ProviderSelection.AlwaysFairIffDivides`). All models share
  the counter: two models with two candidates each, asked for in turn, never leave the candidate they began with
  (`ProviderSelection.StuckIffDivides`).

## Model

| member | source | states |
|---|---|---|
| `Utf8.ByteOrderIsCodePointOrder` | pkg/intents/gcl_adapter.go:917-934 | Go's byte-wise string order, by which keys are sorted, is the order of code points |
| `Utf8.EncodeInjective` | pkg/intents/gcl_adapter.go:973-1003 | distinct texts have distinct bytes |
| `Utf8.DecodeEncode` | pkg/intents/gcl_adapter.go:973-1003 | a decoder written from the table of RFC 3629, which refuses overlong forms and surrogates, reads every written text back |
| `Decimal.IntRoundTrip` | pkg/intents/gcl_adapter.go:941-971 | a printed integer of any size is a grammatical token and reads back as the same integer |
| `JsonText.RoundTrip` | pkg/intents/gcl_adapter.go:867-1003 | an RFC 8259 parser run on a rendered document followed by any text that cannot extend a number returns exactly that document and exactly that text |
| `JsonText.StringRoundTrip` | pkg/intents/gcl_adapter.go:973-1003 | the escapes of any string read back as that string |
| `JsonText.NumberRoundTrip` | pkg/intents/gcl_adapter.go:941-971 | integers and float tokens read back as themselves and stay apart |
| `JsonText.ParseWellFormed` | pkg/intents/gcl_adapter.go:867-886 | whatever payload parses, with any white space and escapes, every float in it is a grammatical token |
| `JsonShortest.ShortestSpelling` | pkg/intents/gcl_adapter.go:973-1003 | of all ways to write a character between quotation marks the writer takes the shortest, and with lower-case hexadecimal digits it is the only one of that length |
| `JsonShortest.ShortestText` | pkg/intents/gcl_adapter.go:888-1003 | no text that parses to a document is shorter than its rendering: no white space, no needless escape, no sign before zero |
| `JsonShortest.IntTokenUnique` | pkg/intents/gcl_adapter.go:941-950 | an integer token is written back as it was, but for a minus sign before zero |
| `JsonShortest.HtmlEscapes` | pkg/intents/service.go:480-503 | Go's encoder, which writes the outcome evidence, escapes five more characters and no others |
| `CanonicalJson.KeysSortedByCodePoint` | pkg/intents/gcl_adapter.go:917-934 | members are written in code-point order of their keys |
| `CanonicalJson.LastMemberWins` | pkg/intents/gcl_adapter.go:867-886 | of several members with one key the decoder keeps the last, and it adds no keys |
| `CanonicalJson.CanonDecodes` | pkg/intents/gcl_adapter.go:888-939 | decoding a canonical document gives the value with its floats normalised |
| `CanonicalJson.FloatsDecide` | pkg/intents/gcl_adapter.go:888-971 | only floats can be refused: with a notation for every token every value is written |
| `CanonicalJson.CanonOfNormalized` | pkg/intents/gcl_adapter.go:888-971 | the canonical document depends on the normalised value only |
| `CanonicalJson.UniquelyDecodable` | pkg/intents/gcl_adapter.go:888-1003 | the canonical text, whatever follows it, parses to the normalised value and nothing else |
| `CanonicalJson.SameBytesIffSameValue` | pkg/intents/gcl_adapter.go:867-1003 | two values have the same signed bytes if and only if they are equal up to float notation |
| `CanonicalJson.CanonicalizeIdempotent` | pkg/intents/gcl_adapter.go:867-886 | for every payload that has a canonical text, canonicalising that text returns it unchanged |
| `CanonicalJson.CanonicalizeShortest` | pkg/intents/gcl_adapter.go:867-1003 | no text with the same members in the same order is shorter than the canonical text of a payload |
| `CanonicalJson.SameTextIffSameValue` | pkg/intents/gcl_adapter.go:867-1003 | two payloads have the same canonical text if and only if their values are equal up to float notation |
| `CanonicalJson.MemberOrderIrrelevant` | pkg/intents/gcl_adapter.go:867-939 | any two payloads that parse to the same members in any order at any depth, whatever their white space and escapes, have the same canonical text or both have none |
| `CanonicalWriter.WriteCanonicalString` | pkg/intents/gcl_adapter.go:973-1003 | appends the UTF-8 bytes of the quotation marks and, for each character, the only shortest spelling in lower-case hexadecimal (`JsonShortest.ShortestSpelling`) |
| `CanonicalWriter.WriteCanonicalJson` | pkg/intents/gcl_adapter.go:888-939 | whatever order the map yields its keys in, the bytes appended are the canonical bytes; it fails exactly on a float with no finite double |
| `CanonicalWriter.WriteObject` | pkg/intents/gcl_adapter.go:917-934 | collecting, sorting and writing the members appends the canonical bytes of the object |
| `CanonicalWriter.WriteArray` | pkg/intents/gcl_adapter.go:906-916 | the item loop appends the canonical bytes of the array |
| `CanonicalWriter.CanonicalGclJson` | pkg/intents/gcl_adapter.go:867-886 | returns the bytes of the canonical text exactly when the payload is one JSON value whose floats have a finite double; that text is the shortest (`CanonicalJson.CanonicalizeShortest`) |
| `Lifecycle.AppendKeepsHistory` | pkg/intents/service.go:324-364 | appending an allowed transition keeps a history that starts at RECEIVED, is numbered from 1 without gaps, has allowed pairs and ends in the current state |
| `Lifecycle.EndsFrom` | pkg/intents/service.go:349-364 | the table read by its targets: from where an operation can fail, be rejected, expire, be quarantined or be rolled back |
| `Lifecycle.TurnsFrom` | pkg/intents/service.go:349-364 | from where it can be rolled back, deferred and accepted; nothing is received twice |
| `Lifecycle.FinalIffRankZero` | pkg/intents/service.go:349-364 | which states are final |
| `Lifecycle.SucceededHistory` | pkg/intents/service.go:349-364 | a SUCCEEDED history ends in the nine stages from ACCEPTED to SUCCEEDED, in order, with nothing between |
| `Lifecycle.RankDrops` | pkg/intents/service.go:349-364 | every allowed transition lowers the rank, except governance deferring again, which raises it by three |
| `Lifecycle.RankIsTight` | pkg/intents/service.go:349-364 | from every state that is not final some allowed step lowers the rank by exactly one, so the bound is reached |
| `Lifecycle.HistoryLength` | pkg/intents/service.go:290-364 | a history has at most 12 - rank + 4 per re-deferral entries |
| `Lifecycle.BoundedAfterActuating` | pkg/intents/service.go:349-364 | at most five transitions follow ACTUATING |
| `Ledger.FreshKey` | pkg/ledger/client.go:122-208 | a new entry never reuses the key of an old proof |
| `Ledger.AppendExtends` | pkg/ledger/client.go:122-208 | appending keeps every entry and proof and the ledger's invariant |
| `Ledger.ProofsArePermanent` | pkg/ledger/client.go:122-219 | a proof that verified once verifies with the same content after any further writes |
| `Ledger.ProofIsOfItsEntry` | pkg/ledger/client.go:210-219 | a proof found by hash and type is that of the entry written under them |
| `Ledger.ProofKeyInjective` | pkg/ledger/client.go:122-219 | hash and type can be read back from a proof key |
| `Ledger.InMemoryLedgerClient.RecordDecision` | pkg/ledger/client.go:122-148 | the new ledger is the old one extended, the returned hash verifies to the recorded content, and the receipt's fields are those of the new entry |
| `Ledger.InMemoryLedgerClient.IssueProofReceipt` | pkg/ledger/client.go:180-208 | the same for issued receipts, with the receipt's fields tied to the entry |
| `Ledger.InMemoryLedgerClient.VerifyProof` | pkg/ledger/client.go:210-219 | the answer is the proof of the entry at its chain position, which was written under this hash and type |
| `Operations.EvidenceBindsOperation` | pkg/intents/service.go:480-530 | equal outcome evidence names the same operation, object, key, plan and observed digest |
| `Operations.EvidenceReads` | pkg/intents/service.go:480-503 | a reader of UTF-8 and JSON finds the schema, both identifiers, both digests and the key in the evidence, each under its name |
| `Operations.VerifiedReceiptMeans` | pkg/intents/service.go:411-475 | a verified receipt is complete and names an entry of the ledger with the type its purpose demands, the operation's correlation, its input hash and, for an outcome, its evidence |
| `Operations.AuthorizationLapses` | pkg/intents/service.go:601-603 | an authorization that was good once is good exactly until it expires |
| `Operations.AuthorizationBindsOperation` | pkg/intents/service.go:560-608 | one authorization serves operations of one key, class, object and plan only |
| `Operations.OutcomeKey` | pkg/intents/service.go:391-463 | a proven outcome rests on a ledger key whose committed content is the operation's own evidence |
| `IntentRepository.CreateMirrors` | pkg/intents/service.go:53-68 | creation keeps the idempotency index and the keyed operations exact inverses |
| `IntentRepository.DeleteMirrors` | pkg/intents/service.go:70-84 | so does deletion |
| `IntentRepository.UpdateMirrors` | pkg/intents/service.go:116-124 | so does an update that keeps the key |
| `IntentRepository.DeleteUndoesCreate` | pkg/intents/service.go:53-84 | deleting a submission restores the repository if and only if it displaced no operation |
| `IntentRepository.MemoryRepository.Create` | pkg/intents/service.go:53-68 | the new contents, or the error and no change |
| `IntentRepository.MemoryRepository.Delete` | pkg/intents/service.go:70-84 | the new contents, or not-found and no change |
| `IntentRepository.MemoryRepository.FindByIdempotencyKey` | pkg/intents/service.go:106-114 | found exactly for an indexed key; the answer is a stored operation or, where the indexed one is gone, Go's empty operation; while index and operations mirror each other it carries the key |
| `IntentRepository.MemoryRepository.UpdateOperation` | pkg/intents/service.go:116-124 | the new contents, or not-found and no change |
| `IntentService.AdmittedOperation` | pkg/intents/service.go:196-234 | an admitted operation starts with a valid history and carries its intent's key |
| `IntentService.DefaultsFilled` | pkg/intents/service.go:185-194 | what a submission leaves open is filled in and what it says is kept |
| `IntentService.NewOperation` | pkg/intents/service.go:196-234 | a new operation belongs to its intent, is its own object, and has been received and then decided upon |
| `IntentService.AdmissionVerdict` | pkg/intents/evaluator.go:26-64 | an intent is accepted if and only if it is unexpired, confident enough, within the replica limit and not behind the human gate; likewise when it is rejected or expired |
| `IntentService.TransitionChanges` | pkg/intents/service.go:290-336 | a transition changes the state, the time of update and the end of the history, and nothing else |
| `IntentService.GovernedUntilDeadline` | pkg/intents/service.go:290-306 | with an authorization for its own plan an operation goes on to AUTHORIZED and to ACTUATING if and only if the deadline has not passed |
| `IntentService.AttachChanges` | pkg/intents/service.go:278-283 | attaching adds the receipt, stamps its entry and the time, and changes nothing else |
| `IntentService.AttachedOnce` | pkg/intents/service.go:262-288 | an attached receipt is accepted again without a change, and another receipt for its entry is refused |
| `IntentService.FindClash` | pkg/intents/service.go:270-277 | the loop finds the first receipt for the same entry, or that there is none |
| `IntentService.Service.CreateOrReplay` | pkg/intents/service.go:235-244 | a lost creation race is answered with the winner's operation and changes nothing |
| `IntentService.Service.Submit` | pkg/intents/service.go:176-244 | a known key is answered with its operation and nothing changes; a new one is stored under the state that the policy demands, exactly; a taken intent ID is an error |
| `IntentService.Service.VerifyLedgerReceipt` | pkg/intents/service.go:411-463 | accepts exactly the receipts the ledger proves for this operation and purpose |
| `IntentService.Service.VerifyOutcome` | pkg/intents/service.go:391-409 | accepts exactly when some attached outcome receipt verifies |
| `IntentService.Service.ValidateTransitionEvidence` | pkg/intents/service.go:366-389 | accepts exactly when the evidence for the next state is present; for AUTHORIZED and ACTUATING what that means is stated by `Operations.AuthorizationForIsValid` and, over all runs, by `IntentRuns.StoredHistories` |
| `IntentService.Service.Transition` | pkg/intents/service.go:290-306 | stores the operation with one entry appended exactly when the table and the evidence allow it, otherwise changes nothing; see `IntentService.GovernedUntilDeadline` and `IntentService.TransitionChanges` for what that means |
| `IntentService.Service.Approve` | pkg/intents/service.go:308-310 | only RECEIVED or DEFERRED operations are accepted by approval |
| `IntentService.Service.Cancel` | pkg/intents/service.go:312-322 | cancelling fails exactly the five stages before actuation, rolls back exactly the four from it on, and changes nothing otherwise |
| `IntentService.Service.AttachLedgerReceipt` | pkg/intents/service.go:262-288 | a repeated receipt is a no-op, a conflicting one an error, a new one is attached to the last transition |
| `IntentRuns.StepKeeps` | pkg/intents/service.go:176-322 | every read or commit step of every call keeps the evidence behind every stored and pending history, collisions or not, and where submitted keys do not collide also the mirrored index and the ownership of IDs |
| `IntentRuns.StoredHistories` | pkg/intents/service.go:290-389 | in every reachable state, collisions or not, every stored history is valid; each AUTHORIZED or ACTUATING entry was decided by an earlier step that read the operation with an authorization whose expiry lay after that step's clock and whose class, object, plan, key and audience are the operation's own; each PLANNED entry by one that found a plan digest and a named provider; each SUCCEEDED entry by one that found its outcome proven by the ledger of that moment |
| `IntentRuns.IndexMirrorsAlways` | pkg/intents/service.go:53-124 | where no two submitted keys collide, the index and the keyed operations are exact inverses in every reachable state |
| `IntentRuns.MirrorsIffNoCollision` | pkg/intents/service.go:53-68 | they are so in every run if and only if no two submitted keys share a truncated digest |
| `IntentRuns.CollisionBreaks` | pkg/intents/service.go:627-633 | two keys that do share one have a run in which the second takes over the operation the index gives the first |
| `IntentAnswers.OneOperationPerKey` | pkg/intents/service.go:176-244 | under any interleaving, if no two submitted keys collide, all answers to one key that is not blank name one operation |
| `IntentAnswers.AgreeIffNoCollision` | pkg/intents/service.go:106-114 | all answers to each key that is not blank agree in every run if and only if no two submitted keys share a truncated digest or failed submissions are not compensated |
| `IntentAnswers.CollisionForgets` | pkg/intents/service.go:70-114 | where failed submissions are compensated, any two submitted keys with one digest have a run in which the second takes over the first one's operation and is withdrawn, and the first is then answered with an empty operation ID |
| `IntentAnswers.NoForeignAnswer` | pkg/intents/service.go:176-244 | collisions or not, an answer to a key that is not blank is the ID derived from it or empty |
| `IntentAnswers.AnsweredStaysIff` | pkg/server/handlers_intents.go:62-70 | within one run, where keys do not collide, an answered operation stays stored if and only if no submitter takes it back after the answer |
| `IntentAnswers.AnswersLastIff` | pkg/server/handlers_intents.go:59-70 | where some submitted key is not blank, collisions or not: every answered operation stays stored however the run goes on if and only if the service is not configured with a recorder and a ledger gateway |
| `IntentAnswers.ReplayLosesOperation` | pkg/server/handlers_intents.go:62-70 | where failed submissions are compensated, for every submitted key there is a run in which a replay is answered with an operation that its first submitter then takes back |
| `IntentRuns.OneProofPerOperation` | pkg/intents/service.go:383-463 | collisions or not, every SUCCEEDED operation rests on a ledger entry that holds the outcome evidence of the operation exactly as the deciding step read it, and two of them on two entries |
| `IntentSuccess.SucceedsIff` | pkg/intents/service.go:262-475 | a submitted key has a run in which its operation succeeds if and only if the key is not blank and receipts can be verified |
| `IntentRuns.EntryProvesOneOperation` | pkg/intents/service.go:480-530 | no ledger position holds the evidence of two operations with different identifiers |
| `IntentRaces.WriteKeepsHistoryIff` | pkg/intents/types.go:113-122 | of every write that lands in any run: it keeps the stored history if and only if that history holds nothing beyond what was stored when the call read the operation, or only the very entry the call writes |
| `IntentRaces.UndisturbedWriteKeeps` | pkg/intents/service.go:262-306 | a write keeps the history if nobody added an entry, or deleted and recreated the operation, since its call read it |
| `IntentRaces.FirstLossIff` | pkg/intents/service.go:262-306 | where nothing was dropped since the read, the write drops an entry if and only if some step since the read added one other than the very entry the call writes |
| `IntentRaces.StaleWriteRevives` | pkg/intents/service.go:290-306 | for every submitted key there is a run from the initial state that ends with a stale write over a FAILED operation, which drops its entry and makes it ACCEPTED again |
| `IntentSubmission.ReachableNoClash` | pkg/intents/service.go:627-633 | where no two submitted keys collide, in every reachable state a submission's operation ID is free or already this key's |
| `IntentSubmission.FirstTimeIdIsFree` | pkg/intents/service.go:627-633 | a new key's operation ID is not in use |
| `IntentSubmission.FleetController.Compensate` | pkg/server/handlers_intents.go:54-152 | with a gateway the submission is deleted and the call fails; without one it succeeds unchanged |
| `IntentSubmission.FleetController.RecordAdmission` | pkg/server/handlers_intents.go:54-152 | any fault makes it fail, and a failure leaves the repository as it was; a success leaves an admission receipt that the ledger proves on this operation and changes nothing else; for an operation just admitted it succeeds without a fault if and only if the kind is not spelled prewarm |
| `IntentSubmission.FleetController.Admit` | pkg/server/handlers_intents.go:55-58 | what the call to Submit leaves behind and answers with, in any state, and that a new operation can be proven |
| `IntentSubmission.TakingBackRestoresIff` | pkg/intents/service.go:53-84 | taking a submission back restores the repository if and only if the operation it was answered with was not stored before, neither for this key nor, after a collision, for another |
| `IntentSubmission.SubmittedMirrors` | pkg/intents/service.go:53-84 | with a mirrored index and no clash the submission is about this key's own operation, and the index stays mirrored when it is taken back |
| `IntentSubmission.FleetController.Settle` | pkg/server/handlers_intents.go:59-152 | with a gateway every fault takes the submission back and is an error; a success carries a proven admission receipt |
| `IntentSubmission.EntryTypeExpected` | pkg/intents/service.go:543-558 | the entry type the handler records is the one the service expects if and only if the kind is not spelled prewarm |
| `IntentSubmission.FleetController.SubmitIntent` | pkg/server/handlers_intents.go:54-152 | in any state, collisions included: with a recorder and a gateway every fault is an error; an error restores intents, operations and index if and only if the operation answered with was not stored before, and that operation is gone; a success with both carries a proven admission receipt; without either it succeeds exactly when Submit does; with a recorder that can prove it, a new key without a fault that Submit accepts succeeds if and only if its kind is not spelled prewarm; a mirrored index without a clash stays mirrored |
| `RateLimiter.StepValid` | pkg/auth/ratelimit.go:130-170 | a call or sweep keeps tokens between zero and the burst and the map within its cap |
| `RateLimiter.RunValid` | pkg/auth/ratelimit.go:77-170 | so does every run |
| `RateLimiter.Simulation` | pkg/auth/ratelimit.go:77-170 | if idle buckets refill within the time to live, every answered call gets the answer of a limiter that never evicts, over any run of calls and sweeps |
| `RateLimiter.UnobservableIffRefills` | pkg/auth/ratelimit.go:22-83 | eviction can never be observed if and only if the burst is at least one and rate times time-to-live is at least the burst |
| `RateLimiter.SlowRefillObservable` | pkg/auth/ratelimit.go:77-83 | otherwise a run exists in which an evicted key gets a second burst too early |
| `RateLimiter.NoBurstObservable` | pkg/auth/ratelimit.go:130-170 | a burst below one still grants a new key's first call, and again after each eviction |
| `RateLimiter.RateBound` | pkg/auth/ratelimit.go:130-170 | where idle buckets refill within the time to live, in every window of every run each key is granted at most burst + rate times length calls |
| `RateLimiter.BoundedIffRefills` | pkg/auth/ratelimit.go:77-170 | for a rate that is not negative and a positive time to live, that bound holds in every window of every run if and only if the burst is at least one and idle buckets refill within the time to live |
| `RateLimiter.SaturatedIff` | pkg/auth/ratelimit.go:137-153 | the same on the pure step: a new key is granted unless as many keys as there is room for asked within the time to live |
| `RateWindows.GrantsExactlyWhatFits` | pkg/auth/ratelimit.go:130-170 | where idle buckets refill, each key's calls that find room are granted exactly when they keep every window of that key's calls within the burst and what the rate earns: the token bucket is the greedy limiter that only counts |
| `RateWindows.CountsIffRefills` | pkg/auth/ratelimit.go:77-170 | that holds in all runs if and only if the burst is at least one and idle buckets refill within the time to live |
| `RateLimiter.Limiter.EvictExpired` | pkg/auth/ratelimit.go:77-83 | the loop drops exactly the idle buckets |
| `RateLimiter.Limiter.Allow` | pkg/auth/ratelimit.go:130-170 | the answer and the new buckets; a new key is refused if and only if there is a cap and at least that many stored keys asked within the time to live; another key's bucket is dropped only then and only when idle, and never changed |
| `LeaseElection.StepKeeps` | pkg/controller/leader.go:121-356 | every request, answer, timeout, late landing and clock tick of every elector keeps the election's invariant |
| `LeaseElection.WritesFormAChain` | pkg/controller/leader.go:301-344 | every accepted write is based on the version directly before it |
| `LeaseElection.OneSuccessor` | pkg/controller/leader.go:301-344 | at most one of the electors that read a version overwrites it |
| `LeaseElection.TakenOnlyWhenExpired` | pkg/controller/leader.go:141-187 | the holder changes only by a write over a version that had no readable renew time or was older than its duration in seconds, both when the new holder looked and when its write landed |
| `LeaseElection.LiveHolderStays` | pkg/controller/leader.go:198-217 | a holder whose lease is at every moment no older than its duration in seconds is never displaced, under any interleaving of requests, late requests and timeouts |
| `LeaseElection.StampsFollowTheChain` | pkg/controller/leader.go:283-318 | every version an elector wrote was stamped after the version it read was stored and before it landed; the duration never changes |
| `LeaseElection.HolderHasItsTime` | pkg/controller/leader.go:350-356 | between the version a holder wrote over and a takeover of its own lies more than the whole duration |
| `LeaseElection.ReadingDecides` | pkg/controller/leader.go:142-195 | what an elector does with the lease it read is forced: create, keep, take exactly past the duration, or wait |
| `LeaseElection.SecondLeads` | pkg/controller/leader.go:301-307 | an elector that finds another's lease past its duration can take it and lead, with the lease renewed at that moment |
| `LeaseElection.HolderRenews` | pkg/controller/leader.go:197-217 | a leader that still holds the lease can renew it and goes on leading |
| `LeaseElection.DisplacedWithdraws` | pkg/controller/leader.go:197-217 | a leader that finds the lease gone or another's can only withdraw |
| `LeaseElection.RefusedWrite` | pkg/controller/leader.go:144-217 | a refused write ends a renewing leader's term and sends a candidate back to look |
| `LeaseElection.FlagIffPublished` | pkg/controller/leader.go:142-217 | in every run the flag is up exactly when a publication succeeded and was not withdrawn since |
| `LeaseElection.TwoFlagsNeedAnExpiry` | pkg/controller/leader.go:82-110 | of two electors with raised flags one let the last version it held expire before another wrote the next, and has not held the lease since |
| `LeaseElection.FlagTrustedIffUnexpired` | pkg/controller/leader.go:76-110 | in every run, the last version a flagged elector held is unexpired if and only if it is the holder of a live lease |
| `LeaseElection.UnexpiredFlagIsAlone` | pkg/controller/leader.go:76-110 | two flagged electors whose own last versions are both unexpired are one |
| `LeaseElection.FlagsCanOverlap` | pkg/controller/leader.go:82-217 | any two electors have a run at whose end both flags are raised |
| `LeaderWorkers.StepKeeps` | pkg/server/run.go:245-329 | every sample, signal, deadline and cancellation keeps the supervisor's invariant |
| `LeaderWorkers.AtMostOneGroup` | pkg/server/run.go:227-329 | in every run at most one watcher group has workers left |
| `LeaderWorkers.RestartDiscipline` | pkg/server/run.go:245-329 | a group starts only directly after leadership was sampled and after every earlier group's done signal was consumed |
| `LeaderWorkers.LossBeforeRestart` | pkg/server/run.go:245-329 | a sample of lost leadership ends the running group before any later start |
| `LeaderWorkers.StartsIffDone` | pkg/server/run.go:279-289 | a sample of leadership is followed by a start if and only if the done signal of every earlier group was consumed before it |
| `LeaderWorkers.StoppedOnlyOnLoss` | pkg/server/run.go:267-299 | workers are told to stop only after a sample of lost leadership, or as the loop's last act |
| `LeaderWorkers.LateStopBlocks` | pkg/server/run.go:267-323 | a group that outlives its stop deadline is reported once and goes on blocking the next start |
| `LeaderWorkers.FinishedGroupIsReplaced` | pkg/server/run.go:280-325 | a finished group is replaced as soon as its done signal and leadership are seen |
| `LeaderWorkers.ExitIsFinal` | pkg/server/run.go:291-311 | once the context has ended every group is finished or cancelled and nothing is started any more |
| `LeaderWorkers.RunLeaderScopedWorkers` | pkg/server/run.go:245-329 | the loop does what the state machine says for any sequence of samples, signals and deadlines; when it must start a group is `LeaderWorkers.StartsIffDone` |
| `KvFraming.BigEndianRoundTrip` | crates/kv-transfer/src/tcp_transport.rs:21-60 | a number that fits its width reads back from its big-endian bytes |
| `KvFraming.BigEndianByte` | crates/kv-transfer/src/tcp_transport.rs:21-30 | byte i of a field of any width is the number divided by 256 to the power of the bytes after it, modulo 256 |
| `KvFraming.WireLayout` | crates/kv-transfer/src/tcp_transport.rs:21-30 | every byte of a frame: four of length and eight of sequence number with the highest first, the flag, the payload |
| `KvFraming.BlockRoundTrip` | crates/kv-transfer/src/tcp_transport.rs:21-60 | a frame reads back as its block and leaves the rest if and only if the payload is at most 2^32 - 10 bytes |
| `KvFraming.TransferRoundTrip` | crates/kv-transfer/src/tcp_transport.rs:112-150 | from the frames of any sendable blocks and any suffix exactly the blocks up to the first final one are received and the rest stays unread; without a final block the blocks are followed by what the suffix gives |
| `KvFraming.NoFinalIsAnError` | crates/kv-transfer/src/tcp_transport.rs:133-150 | blocks sent without a final one are an error on their own |
| `KvFraming.CutFrame` | crates/kv-transfer/src/tcp_transport.rs:32-60 | every strict prefix of a frame is an error |
| `KvFraming.CutTransfer` | crates/kv-transfer/src/tcp_transport.rs:133-150 | every strict prefix of a transfer is an error |
| `KvFraming.ReportedBytes` | crates/kv-transfer/src/tcp_transport.rs:112-131 | the reported bytes are the wire length less thirteen per block |
| `KvFraming.TcpTransferProtocol.SendBlocks` | crates/kv-transfer/src/tcp_transport.rs:112-131 | the loop writes exactly the frames and reports the payload bytes; where a write fails, the wire holds the frames cut at that byte and the call fails; it fails without a connection |
| `KvFraming.TcpTransferProtocol.DecodeBlock` | crates/kv-transfer/src/tcp_transport.rs:32-60 | one frame is consumed exactly when the stream decodes |
| `KvFraming.TcpTransferProtocol.ReceiveBlocks` | crates/kv-transfer/src/tcp_transport.rs:133-150 | the loop receives what the stream specification says and leaves what it leaves |
| `TransferCoordinator.Coordinator.InitiateTransfer` | crates/kv-transfer/src/coordinator.rs:92-122 | the new job is cancellable, unfinished and without bytes, its worker may start, every other job is untouched and the table's invariant is kept |
| `TransferCoordinator.Coordinator.StartWorker` | crates/kv-transfer/src/coordinator.rs:124-130 | the job runs again even if it was cancelled, in which case and only then it carries a finish time; its bytes and start time and every other job are untouched, and the invariant is kept |
| `TransferCoordinator.Coordinator.FinishWorker` | crates/kv-transfer/src/coordinator.rs:132-161 | the job ends terminal with a finish time; one cancelled meanwhile stays exactly as it was, one in progress completes exactly when the blocks were sent, with their bytes |
| `TransferCoordinator.Coordinator.CancelTransfer` | crates/kv-transfer/src/coordinator.rs:168-186 | accepted exactly for jobs that are not terminal; accepted it leaves the job cancelled and finished and every other job untouched, refused it changes nothing |
| `TransferCoordinator.RunKeeps` | crates/kv-transfer/src/coordinator.rs:92-186 | in every interleaving terminal jobs carry a finish time and only completed jobs carry bytes |
| `TransferCoordinator.JobsRestOnSteps` | crates/kv-transfer/src/coordinator.rs:92-190 | in every reachable state each job's start, end, bytes and error message are those reported by its own worker or canceller |
| `TransferCoordinator.FinishDecides` | crates/kv-transfer/src/coordinator.rs:154-162 | a worker that ends settles its job unless it was cancelled meanwhile, and then leaves it alone |
| `TransferCoordinator.TerminalIsFinal` | crates/kv-transfer/src/coordinator.rs:120-186 | after the worker's first write a terminal job never changes again |
| `TransferCoordinator.CancelLastsIffWorkerStarted` | crates/kv-transfer/src/coordinator.rs:120-186 | within one run an accepted cancellation lasts if and only if the worker does not make its first write after it |
| `TransferCoordinator.CancelLastsIffInProgress` | crates/kv-transfer/src/coordinator.rs:120-186 | an accepted cancellation lasts in every continuation of the run if and only if the job was in progress, and not still pending, when it was accepted |
| `TransferCoordinator.CancelOverwritten` | crates/kv-transfer/src/coordinator.rs:124-130 | every run with a pending job continues with an accepted cancellation that the worker then overwrites |
| `ProviderHealth.CountersAreRuns` | pkg/server/provider_health.go:125-169 | the two counters are the lengths of the trailing runs of successes and failures |
| `ProviderHealth.FlagMeaning` | pkg/server/provider_health.go:125-169 | for every probe history the flag is true if and only if two successes in a row are followed by no three failures in a row |
| `ProviderHealth.DecidedMeaning` | pkg/server/provider_health.go:46-59 | a provider is decided if and only if its last two results succeeded or its last three failed, and then the flag says which |
| `ProviderHealth.ProviderHealthCache.Probe` | pkg/server/provider_health.go:125-169 | the stored flag has its meaning for the extended history; other providers are untouched |
| `ProviderHealth.ProviderHealthCache.Ready` | pkg/server/provider_health.go:46-59 | ready if and only if every configured provider's latest run has reached its threshold |
| `ProviderHealth.ProviderHealthCache.Healthy` | pkg/server/provider_health.go:85-103 | a fresh entry answers without a probe, a stale one is probed, and the answer has the flag's meaning |
| `ProviderHealth.ProviderHealthCache.Snapshot` | pkg/server/provider_health.go:109-123 | the last state without probing |
| `ProviderSelection.CandidatesMean` | pkg/server/model_providers.go:28-38 | the candidates are exactly the allowed, healthy clusters other than the excluded one |
| `ProviderSelection.SelectionSound` | pkg/server/model_providers.go:28-45 | a selected provider is allowed, healthy and not excluded; none is selected if and only if there is no candidate |
| `ProviderSelection.FleetController.HealthyProviders` | pkg/server/model_providers.go:29-38 | the two loops collect exactly the candidates |
| `ProviderSelection.FleetController.Advance` | pkg/server/model_providers.go:43 | the draw is the counter before the wrapping increment |
| `ProviderSelection.FleetController.NextHealthyProviderExcluding` | pkg/server/model_providers.go:28-45 | the selection for the current counter, which is advanced when something is selected; a selected provider is healthy, not excluded and listed for the model, and none is selected only if no listed cluster but the excluded one is healthy |
| `ProviderSelection.FairWithoutWrap` | pkg/server/model_providers.go:42-44 | in any window of calls in which the counter does not wrap every candidate is drawn the floor or the ceiling of calls / n times |
| `ProviderSelection.AlwaysFairIffDivides` | pkg/server/model_providers.go:42-44 | every window is fair, wrapping or not, if and only if n divides 2^64 |
| `ProviderSelection.SelectionsArePicks` | pkg/server/model_providers.go:28-45 | the i-th of consecutive selections is the i-th round-robin pick from the sorted candidates |
| `ProviderSelection.SharesAreEven` | pkg/server/model_providers.go:28-45 | over consecutive selections from one report each candidate is returned the floor or ceiling of calls / n times, as long as the counter does not wrap or n divides 2^64 |
| `ProviderSelection.StuckIffDivides` | pkg/server/model_providers.go:43-44 | a model whose calls take every m-th draw of the shared counter always gets the same of its n candidates, while the counter does not wrap, if and only if n divides m |
| `ProviderSelection.SharedCounterSticks` | pkg/server/model_providers.go:28-45 | then each of its selections is the provider of the first |
| `RoutingPublication.LatestWins` | pkg/routing/llmd_router_provider.go:89-92 | of several entries with one identifier the last one counts |
| `RoutingPublication.IndexClusters` | pkg/routing/llmd_router_provider.go:89-92 | the loop builds that map |
| `RoutingPublication.EndpointFor` | pkg/routing/llmd_router_provider.go:193-242 | a rendered endpoint carries its model as a label |
| `RoutingPublication.EndpointRouted` | pkg/routing/llmd_router_provider.go:193-242 | address and port come from the routing URL, or the egress address without one, over TLS where that is required |
| `RoutingPublication.NotRenderedIff` | pkg/routing/llmd_router_provider.go:194-214 | rendering fails exactly when one of the two URLs does not parse or, where TLS is required, does not use it |
| `RoutingPublication.EndpointMeasured` | pkg/routing/llmd_router_provider.go:201-224 | the metrics labels come from the metrics URL, or the first other source, and at last from the routing URL |
| `RoutingPublication.EndpointDescribed` | pkg/routing/llmd_router_provider.go:216-241 | name, cluster, health and failure domain |
| `RoutingPublication.EndpointSecured` | pkg/routing/llmd_router_provider.go:226-234 | server name, trust and credential references are passed on if and only if they are given |
| `RoutingPublication.PassedOverIff` | pkg/routing/llmd_router_provider.go:160-191 | an occurrence is passed over exactly when its model, cluster or address is missing, the cluster is refused, draining, down or stale, or it lists other models |
| `RoutingPublication.SameFileIffSameDigest` | pkg/routing/llmd_router_provider.go:290-293 | two models share a file exactly when they share the digest |
| `RoutingPublication.Emit` | pkg/routing/llmd_router_provider.go:95-114 | an occurrence is passed over exactly when its model is empty, or its cluster is unknown, not eligible or does not list that exact model |
| `RoutingPublication.OneEndpointPerOccurrence` | pkg/routing/llmd_router_provider.go:94-114 | a model's list has one endpoint per serving occurrence and nothing else, and is empty exactly when no occurrence serves it |
| `RoutingPublication.LLMDProvider.Gather` | pkg/routing/llmd_router_provider.go:94-114 | the nested loops collect exactly those lists, and fail if and only if some occurrence cannot be rendered |
| `RoutingPublication.LLMDProvider.WriteModels` | pkg/routing/llmd_router_provider.go:116-134 | one sorted file per model, the later model winning a shared name, an exact index, and every name remembered |
| `RoutingPublication.LLMDProvider.AddTombstones` | pkg/routing/llmd_router_provider.go:138-146 | exactly the remembered names without a file get an empty one |
| `RoutingPublication.LLMDProvider.Publish` | pkg/routing/llmd_router_provider.go:305-315 | in any map order the files are written over the directory: all of them on success, some of them on failure, nothing else touched |
| `RoutingPublication.LLMDProvider.Synchronise` | pkg/routing/llmd_router_provider.go:86-158 | a render error changes nothing; otherwise the files are a complete rendering of the occurrences, installed as the publisher's outcome says; it reports success exactly when nothing failed to render and every write was taken |
| `RoutingPublication.LLMDProvider.constructor` | pkg/routing/llmd_router_provider.go:64-78 | the defaults, and nothing remembered over whatever is on disk |
| `GoText.SplitJoin` | pkg/routing/llmd_router_provider.go:168-172 | the parts of the label hold no comma and join back to it |
| `GoText.TrimSpaceMeans` | pkg/intents/service.go:560-582 | trimming takes all the spaces at both ends and nothing else |
| `GoText.EqualFoldMeans` | pkg/intents/service.go:594-596 | folding compares letter by letter without regard to case |
| `RoutingRuns.ServedIffOwner` | pkg/routing/llmd_router_provider.go:123-134 | a model's file holds exactly its endpoints if and only if no later model shares its file name |
| `RoutingRuns.AllServedIffDistinctNames` | pkg/routing/llmd_router_provider.go:290-293 | every model is served from its file if and only if the active models' file names are distinct |
| `RoutingRuns.SharedNameMisserves` | pkg/routing/llmd_router_provider.go:123-134 | for any two models with one file name there is a synchronisation without an error after which not every model is served from its file |
| `RoutingRuns.RenderingExists` | pkg/routing/llmd_router_provider.go:116-153 | whatever was emitted, there is a complete set of files for it |
| `RoutingRuns.SeenIsWritten` | pkg/routing/llmd_router_provider.go:123-134 | over any run the process remembers exactly the names it rendered |
| `RoutingRuns.Tombstones` | pkg/routing/llmd_router_provider.go:135-158 | after a successful call every name ever rendered is on disk, empty once no model uses it, whatever failed before |
| `RoutingRuns.IndexExact` | pkg/routing/llmd_router_provider.go:117-158 | after a successful call the index names exactly the models with endpoints |
| `RoutingRuns.UnwrittenFilesStay` | pkg/routing/llmd_router_provider.go:135-158 | over any run a file the process never rendered keeps what was in it |
| `RoutingRuns.IdleFilesEmptyIff` | pkg/routing/llmd_router_provider.go:135-158 | after a successful call every file without a model is empty if and only if a restart left no other endpoints behind |
| `RoutingRuns.LeftoverSurvives` | pkg/routing/llmd_router_provider.go:135-158 | after a restart a successful publication leaves the endpoints of an unknown file in place |
| `RoutingRuns.SafeIffIndexLast` | pkg/routing/llmd_router_provider.go:147-158 | for one order of writes, no index naming a missing file is visible during a publication if and only if the index is written after the new files it names |
| `RoutingRuns.SafeInAnyOrderIff` | pkg/routing/llmd_router_provider.go:147-158 | whatever order the map yields, no such index is visible if and only if every active model's file was on disk before |
| `RoutingRuns.IndexFirstDangles` | pkg/routing/llmd_router_provider.go:305-315 | a first publication that writes the index first shows it naming missing files |

## Left out

- HTTP and gRPC handlers, clients, TLS, the CLI, the simulator and the dashboard: input and output around the modelled logic.
- The Kubernetes repository of intents and the cost, model-pack and webhook code are not modelled.
- The routing policy evaluator, placement, quota and rollout code are not part of this model.
- SHA-256, random identifiers and clocks are parameters. Lemmas that need it name the assumption: submitted keys do not collide, digests are hexadecimal, and a random identifier is not yet in use.
- Formatting a float is a parameter whose laws are that its output is a float token and that formatting is stable; the shortest-digits algorithm is not modelled.
- Text is a sequence of Unicode scalar values: the decoder's replacement of invalid UTF-8 and its nesting limit are not modelled.
- Case folding and lower-casing cover ASCII letters.
- Digests in receipts are compared as the service compares them; the decoding of outcome evidence is folded into equality of its bytes.
- The admission evaluator (pkg/intents/evaluator.go:26-64) is modelled as a decision; the figures in its reason texts are not.
- Electors share one clock, and nobody but an elector deletes or edits the lease.
- The serving-state hooks of the elector are modelled by the flag alone.
- Lease election is a state machine over values, because its steps are separate requests to an API server.
- The rate limiter's arithmetic is over reals, not doubles.
- Transfer jobs carry the fields that change; source, target and model are constant and omitted.
- One clock reading serves a whole synchronisation of the router files; the source reads the clock for each cluster.
- Router files are values, not JSON text, and one file is replaced atomically; the URL parser is a parameter.
- The provider's check that its directory is an absolute path is not modelled.
- Selection returns an option; the source returns the empty string, which a cluster with an empty identifier could not be told from.
- A nil health cache, which is always ready, is not modelled.
- The flush after sending, which does nothing on a TCP stream, is not modelled.
- KvFraming.TcpTransferProtocol.SendBlocks: the reported total is unbounded; the source's 64-bit sum could wrap only beyond 2^64 bytes.
- KvFraming.TcpTransferProtocol.DecodeBlock: how much of a broken frame was consumed before the error is not specified.
- IntentService.Service.Submit: one call without others in between; the interleavings are in `IntentRuns`.
- IntentSubmission.FleetController.SubmitIntent: one call without others in between; the interleavings are in `IntentRuns` and `IntentAnswers`.
