# Verification of remote-access

remote-access lets a client reach a GameStream host by a nine-digit id and a
password. Three parts of it are modelled here and proved, separately and
together:

* the **rendezvous server** (`crates/ra-rendezvous`): registrations, liveness,
  single-use challenges with a sliding-window limit, a queue of pair requests
  drained by long polls, and result slots;
* the **GameStream pairing handshake** (`crates/ra-gamestream`): the client state
  machine, the simulated host that stands for Apollo, the bytes they exchange, and the
  driver that runs a pairing over a network;
* the **password and PIN exchange** (`crates/ra-proto`, `crates/ra-host`,
  `crates/ra-client`): sealing and opening the PIN, the agent that judges,
  delivers, backs off and reports, and the endpoints a host advertises and a
  client picks.

## How it is put together

| files | content |
|---|---|
| `ByteStrings`, `Proto` | bytes, hexadecimal text, UTF-8; wire types, the password scheme and its laws |
| `Rendezvous` | each locked section as a function of state, clock and request, and the mutable `Store` proved to compute it |
| `Histories` | whole runs: binding and single use of challenges, conservation of requests |
| `RateLimit`, `Slots`, `GcTransparency` | counting over windows; result slots and id ownership; runs with and without collections |
| `Observed` | what the server answers, told from the requests and answers of a run alone |
| `LongPoll` | pollers as processes that wait after releasing the lock |
| `Handshake`, `SymbolicHandshake` | the handshake over any cryptography within stated laws, and over an ideal one |
| `Query`, `PairingWire`, `PairingRuns` | query strings and bodies; conversations on the wire; arbitrary responses |
| `Transcripts`, `HostSide` | the texts of a pairing written out; client and host against anything |
| `Crypto`, `Pairing`, `PairDriver` | the in-place block loops, the two objects, the driver loop |
| `Agent`, `Discovery` | the agent's loops; ids and endpoints |
| `EndToEnd` | clients, server and agent in one run |

A history of the server is any sequence of locked sections with clock readings
that do not decrease; anybody may make any request at any time. Request ids drawn
at random are taken never to have been issued before, which the code does not
check. What is counted in a run (challenges issued, submissions accepted,
requests delivered, results posted) is defined from the requests and the answers
alone, so the theorems are about what an observer sees. `Observed.EveryAnswerIsDue`
goes all the way: a reference that knows no state says what every request is to be
answered, and the server answers that. `Transcripts` and `HostSide` do the same for
the two sides of a pairing, down to the texts on the wire, and `Agent.HandledExactly`
for the agent.

The handshake is written once, generic in the symbols its messages are made of.
On bytes it is what the code does. On the terms of `SymbolicHandshake` hashes and
signatures are free and the block function is a bijection that shows nothing
through a wrong key; there a wrong PIN is always caught, while on bytes the exact
digest condition for `WrongPin` is proved instead. SHA-256, the AES block
function, signatures, certificate fields and the AEAD are function parameters,
restricted only by the laws in `Proto.Primitives.Laws`, `Handshake.BlockLaws` and
`Handshake.Laws`; `Proto.PrimitivesExist`, `SymbolicHandshake.IdealLaws` and
`PairingRuns.HonestPartiesExist` give instances, so the laws are consistent, and
`EndToEnd.PairingHappens` a run in which everything assumed holds at once.

Code that updates objects is imperative here too: `Store`, `Pairing`, `FakeHost`
and `HostAgent` are classes with the fields of the source, and each method is
proved to move its object exactly as the specification function does;
`Histories.Live` puts a store through a whole history. A panic of the simulated
host is an absent reply.

Two expectations do not hold of the code as they stand, and their exact
conditions are proved, each with an input that shows it. Collections are not
quite invisible: a request for an entry past its time is answered differently
exactly when one run has collected the entry and the other has not, which is when
a collection ran after its time and before it was consumed (`ForgottenExactly`,
`RefusalCodeMayDiffer`). And a wrong passphrase is caught except exactly when the
PIN is 9999, which the simulated host falls back on (`FallbackPinPairs`).

## Model

| member | source | states |
|---|---|---|
| `RateLimit.AttemptBound` | crates/ra-rendezvous/src/lib.rs:350-416 | over every run and for every host and k >= 0, any closed window of k minutes sees at most 20 (k + 2) pair requests queued, whatever anybody does |
| `RateLimit.RefusesExactlyOnFullMinute` | crates/ra-rendezvous/src/lib.rs:357-363 | a challenge for a known host is refused for rate exactly when 20 were issued for it in the closed minute ending now, counted over the full history and not the pruned queue; there are never more than 20 |
| `RateLimit.LimiterTracks` | crates/ra-rendezvous/src/lib.rs:356-364 | after every run the queue in memory is sorted, at most 20 long, and the end of the full history of issues, whose dropped part is over a minute old; any 21 issues in a row span more than a minute |
| `RateLimit.PruneSorted` | crates/ra-rendezvous/src/lib.rs:358-360 | on a sorted queue the pruning loop drops exactly the readings over a minute old and keeps the rest as a suffix |
| `RateLimit.IssueBound` | crates/ra-rendezvous/src/lib.rs:356-364 | for k >= 1, any closed window of k minutes holds at most 20 k challenges issued for one host |
| `RateLimit.AcceptancesInject` | crates/ra-rendezvous/src/lib.rs:383-389 | accepted submissions map one to one to challenges issued for the same host under the same request id less than 120 s before |
| `Observed.EveryAnswerIsDue` | crates/ra-rendezvous/src/lib.rs:187-440 | every answer of every run, to every request, is the one that follows from the requests and answers before it: registrations, heartbeats, what is told of a host, polls, results, challenges and submissions, each refusal with its code; the reference is written over these records alone and names none of the server's steps |
| `Observed.RecordIsShown` | crates/ra-rendezvous/src/lib.rs:187-270 | a host is known exactly if a registration of it was answered, and its record holds the fields of the last registration, the fingerprint of the first token, the endpoints last given and the time it was last heard from |
| `Observed.LivenessDecides` | crates/ra-rendezvous/src/lib.rs:390-398 | a well-formed submission of a live challenge at its own host is queued if the host registered, sent an admitted heartbeat or looked at its queue under 90 s before, and refused as offline otherwise |
| `Observed.AdmitDecides` | crates/ra-rendezvous/src/lib.rs:161-168 | a caller is let through exactly if it brings a token that SHA-256 maps where it maps the token the id was first registered with; otherwise the code says whether the token was missing, the id unknown or the token wrong |
| `Histories.LastSeenIsLogged` | crates/ra-rendezvous/src/lib.rs:231-318 | the time of last contact in a host's record is that of its last answered registration, admitted heartbeat or admitted look |
| `Histories.Conservation` | crates/ra-rendezvous/src/lib.rs:319-321 | over every run, what a host's pollers were given, in lock order, followed by what is still queued, is exactly the accepted submissions for that host in order of acceptance, each with all its fields and the challenge issued for it: nothing lost, duplicated, reordered, misrouted or changed |
| `Histories.AcceptanceIsBound` | crates/ra-rendezvous/src/lib.rs:383-389 | an accepted submission answers a challenge issued for that very host under that request id less than 120 s before, and the challenge is gone from then on |
| `Histories.AcceptedOnce` | crates/ra-rendezvous/src/lib.rs:383-383 | no request id is accepted twice in a run, at one host or at two |
| `Histories.SubmissionConsumes` | crates/ra-rendezvous/src/lib.rs:376-398 | a submission past the format checks uses its challenge up even when refused: every later one under that id, at any host, is answered unknown (or malformed) |
| `Histories.LiveChallengesWereMinted` | crates/ra-rendezvous/src/lib.rs:365-367 | a challenge in memory is the one issued under that request id, unchanged |
| `Histories.DeliveredIsBound` | crates/ra-rendezvous/src/lib.rs:371-416 | every request ever delivered repeats an accepted submission in all its fields, with the text of the challenge issued under its id for that host, submitted under 120 s after the issue, the host having been heard from under 90 s before that |
| `Histories.DeliveredOnce` | crates/ra-rendezvous/src/lib.rs:319-321 | no request is delivered twice, to one host or to two |
| `LongPoll.LongPollConservation` | crates/ra-rendezvous/src/lib.rs:303-331 | for every interleaving of pollers with the other handlers, the batches answered to a host's pollers, in lock order, followed by its queue are exactly the requests accepted for it |
| `LongPoll.LockOrderIsValid` | crates/ra-rendezvous/src/lib.rs:303-331 | the locked sections of any legal interleaving form a valid history, so every theorem about histories holds of it |
| `LongPoll.BatchIsTheAnswer` | crates/ra-rendezvous/src/lib.rs:319-321 | a batch that left a queue is the final answer of the poller that took it, for that poller's host |
| `LongPoll.OneBatchPerPoller` | crates/ra-rendezvous/src/lib.rs:319-321 | no poller takes two batches |
| `LongPoll.AnswerIsLogged` | crates/ra-rendezvous/src/lib.rs:319-321 | every non-empty answer is one of the batches taken from the queue of that poller's host |
| `LongPoll.PollersAreSound` | crates/ra-rendezvous/src/lib.rs:311-330 | the invariant of a poller at each point of its loop, kept by every act of anybody |
| `LongPoll.EmptyAnswerMissesNothing` | crates/ra-rendezvous/src/lib.rs:325-330 | an empty answer is given only after a last look, later than the last wait, at which everything accepted for the host so far had been handed out |
| `LongPoll.EmptyAnswerIsNotEarly` | crates/ra-rendezvous/src/lib.rs:309-328 | a poller is told that there is nothing only when it has waited as long as it asked to, up to thirty seconds |
| `LongPoll.DeadlinesAreSound` | crates/ra-rendezvous/src/lib.rs:309-310 | a poller's deadline is its arrival and what it asked for, none if nothing, at most thirty seconds |
| `LongPoll.UnnotifiedSleptThroughNothing` | crates/ra-rendezvous/src/lib.rs:412-414 | a waiter that was not notified has had no request accepted for its host since its wait began |
| `LongPoll.WaiterTakesTheQueue` | crates/ra-rendezvous/src/lib.rs:325-330 | a notification missed between the release of the lock and the start of the wait only delays: when notified, or at its deadline, the waiter can wake, is not refused and takes everything queued |
| `GcTransparency.GcTransparent` | crates/ra-rendezvous/src/lib.rs:109-114 | two runs that differ only in when, or whether, garbage is collected issue the same challenges, accept the same submissions, deliver the same requests in order, and end with equal hosts and queues |
| `GcTransparency.SameAnswersWhateverTheCollections` | crates/ra-rendezvous/src/lib.rs:382-389 | in two such runs the next request is answered differently if and only if exactly one of them has forgotten what it asks for, which is past its time then; acceptances and refusals for rate never differ, and a submission answered differently is refused by both |
| `GcTransparency.ForgottenExactly` | crates/ra-rendezvous/src/lib.rs:109-114 | a run has forgotten what a request asks for exactly if that is an unconsumed challenge, or the slot of an accepted request, and a collection ran when it had reached its time to live |
| `GcTransparency.ChallengesOfRun` | crates/ra-rendezvous/src/lib.rs:112-112 | a challenge is in memory if and only if it was issued, no submission past the format checks has named it since, and no collection ran when it was 120 s old or older |
| `GcTransparency.SlotsOfRun` | crates/ra-rendezvous/src/lib.rs:113-113 | a result slot is in memory, created when its request was accepted, if and only if one was accepted and no collection ran when it was 300 s old or older |
| `GcTransparency.StrippedIsValid` | crates/ra-rendezvous/src/lib.rs:109-114 | a run without its collections is itself a run, with the same challenges issued and consumed and the same requests accepted at the same times |
| `GcTransparency.AnswersAlike` | crates/ra-rendezvous/src/lib.rs:382-389 | against the run without collections, the answer differs exactly on an entry that was collected, and is then the one for an unknown id |
| `GcTransparency.RefusalCodeMayDiffer` | crates/ra-rendezvous/src/lib.rs:383-389 | two runs in which the same late submission is told gone, and unknown: the refusal code of an expired challenge does depend on collections |
| `GcTransparency.StrippedRunAlike` | crates/ra-rendezvous/src/lib.rs:109-114 | the simulation: a run and the same run without collections stay equal up to entries past their time |
| `GcTransparency.CollectionsLeaveLogs` | crates/ra-rendezvous/src/lib.rs:109-114 | taking the collections out of a run leaves its issues, acceptances and deliveries as they were |
| `Slots.SlotLives` | crates/ra-rendezvous/src/lib.rs:408-411 | the result slot of an accepted request is there until it is 300 s old, whatever any handler does in between |
| `Slots.SlotHoldsLastPosted` | crates/ra-rendezvous/src/lib.rs:341-345 | a slot always holds the last result posted for it over the whole run, and that result names the id the slot is filed under |
| `Slots.SlotsAreOfUsedChallenges` | crates/ra-rendezvous/src/lib.rs:383-411 | a slot or an accepted result belongs to an issued request id whose challenge is used up, so no slot is ever overwritten by a new one |
| `Slots.PollReturnsLastPosted` | crates/ra-rendezvous/src/lib.rs:426-431 | a client polling an accepted request under 300 s old is told the last result posted for it |
| `Slots.ResultsDoNotRevert` | crates/ra-rendezvous/src/lib.rs:426-436 | once a result has been told, no later poll answers none yet |
| `Slots.RecordsAreSound` | crates/ra-rendezvous/src/lib.rs:187-235 | over every run from an empty store: each id is a valid 9-digit one equal to its record's, names are 1 to 64 bytes, endpoints at most 16, runtime keys equal host keys, and the token fingerprint is the first one registered |
| `Slots.OwnerNeverChanges` | crates/ra-rendezvous/src/lib.rs:204-215 | a registered id stays registered for the rest of the run, and the token fingerprint stored for it never changes |
| `Slots.AuthorizedExactlyForOwner` | crates/ra-rendezvous/src/lib.rs:161-168 | at every moment of a run a token is let through for exactly the ids whose first registration had a token of that fingerprint |
| `Slots.PollerStaysAuthorized` | crates/ra-rendezvous/src/lib.rs:312-314 | a poller that got past its first look is never refused afterwards |
| `Rendezvous.Store.constructor` | crates/ra-rendezvous/src/lib.rs:65-71 | a new store is the empty state from which every run starts |
| `Rendezvous.Store.Gc` | crates/ra-rendezvous/src/lib.rs:109-114 | the new state keeps exactly the challenges under 120 s and the slots under 300 s old |
| `Rendezvous.Store.CheckToken` | crates/ra-rendezvous/src/lib.rs:161-168 | lets a caller through if and only if it brings a token, the id is known, and the stored fingerprint equals that of the token; else says which of the three failed |
| `Rendezvous.Store.Touch` | crates/ra-rendezvous/src/lib.rs:235-235 | the entry of an id, made empty if it was missing; all other entries as they were |
| `Rendezvous.Store.RegisterHost` | crates/ra-rendezvous/src/lib.rs:193-235 | new state and answer are those of the registration step with the first draw that was not taken, which the search loop finds |
| `Rendezvous.Store.KeepAlive` | crates/ra-rendezvous/src/lib.rs:259-270 | new state and answer are those of the heartbeat step |
| `Rendezvous.Store.Describe` | crates/ra-rendezvous/src/lib.rs:282-295 | answers what is told of a host if and only if the host is known; changes nothing |
| `Rendezvous.Store.LookAtQueue` | crates/ra-rendezvous/src/lib.rs:312-324 | new state and answer are those of one locked look: the whole queue handed out and left empty |
| `Rendezvous.Store.Post` | crates/ra-rendezvous/src/lib.rs:339-347 | new state and answer are those of the result step |
| `Rendezvous.Store.Issue` | crates/ra-rendezvous/src/lib.rs:352-368 | new state and answer are those of the challenge step; the queue loop computes the pruned queue |
| `Rendezvous.Store.Submit` | crates/ra-rendezvous/src/lib.rs:376-415 | new state and answer are those of the submission step; past the format checks the challenge is gone whatever the answer |
| `Rendezvous.Store.LookAtResult` | crates/ra-rendezvous/src/lib.rs:426-432 | answers a result if and only if the slot exists and holds one; changes nothing |
| `Histories.Perform` | crates/ra-rendezvous/src/lib.rs:66-71 | any locked section run on the store moves it and answers as the step does |
| `Histories.Live` | crates/ra-rendezvous/src/lib.rs:66-71 | a new store put through any history ends in the state of that history, having given its answers, so what is proved of histories is proved of the store |
| `EndToEnd.PinAgreement` | crates/ra-host/src/agent.rs:207-215 | over every run of clients, server and anybody else: for a request delivered under the id of a client's accepted submission, an agent with the client's password hash opens and submits only the PIN that client sealed; with another hash, unless SHA-256 collides on the two strings compared, it submits none and reports Rejected |
| `EndToEnd.PasswordDecides` | crates/ra-proto/src/lib.rs:179-186 | the same in terms of passwords under one salt, with the two collisions that would matter named |
| `EndToEnd.PairingFollows` | crates/ra-client/src/session.rs:147-149 | the PIN an agent submitted completes the GameStream pairing, on the wire, of the client that sealed it |
| `EndToEnd.PairingHappens` | crates/ra-client/src/session.rs:147-178 | whatever names, password hash, PIN and nonce a client brings there is a run, from registration through challenge, submission and poll, in which the host submits that PIN, reports Paired, and the pairing completes |
| `EndToEnd.DeliveredIsTheClients` | crates/ra-rendezvous/src/lib.rs:399-413 | a request delivered under the id a client was given went to that client's host and is, field by field, what the client chose: its names, its response to the challenge and its PIN sealed under the key hashed from password hash and challenge, all written out |
| `EndToEnd.SubmissionIsOnItsWay` | crates/ra-rendezvous/src/lib.rs:408-413 | what a client chose to send, once accepted, is in its host's hands or in its queue at every later moment, unchanged |
| `EndToEnd.PartiesAreSound` | crates/ra-client/src/session.rs:155-178 | the invariant of a client on its way, kept by every act of every party: its challenge was issued for its host, and what it sent is what it chose, response and sealed PIN written out |
| `EndToEnd.BuiltAsChosen` | crates/ra-client/src/session.rs:164-173 | a client builds a request exactly if its PIN has four digits, and it is the one written out |
| `EndToEnd.JudgedByPassword` | crates/ra-host/src/agent.rs:209-215 | a request as chosen by a client is judged by an agent with the same hash to carry the client's PIN, and rejected by one with another exactly when SHA-256 does not collide on the strings compared |
| `Agent.MismatchesBackOff` | crates/ra-host/src/agent.rs:150-154 | n mismatches in a row from any counter f leave it at f + n and sleep B(f + n) - B(f) seconds in all, where B(n) is 2^(n+1) - 2 for n <= 5 and 62 + 60 (n - 5) beyond |
| `Agent.BackoffAfterMatch` | crates/ra-host/src/agent.rs:146-212 | from any counter and after any requests the last of which matched and was not rejected, the next n mismatches sleep exactly B(n) seconds on top of what was slept; after a match rejected for its seal, B(n + 1) - B(1) |
| `Agent.RunBatchAppends` | crates/ra-host/src/agent.rs:135-170 | results, sleeps and counter of two lists of requests are those of the first followed by those of the second from the counter the first left, so it does not matter how requests fall into polls |
| `Agent.MatchResets` | crates/ra-host/src/agent.rs:209-212 | after any requests the last of which matched, the counter is 1 if that one was reported Rejected and 0 if not, whatever it was before |
| `Agent.BatchReports` | crates/ra-host/src/agent.rs:146-161 | every batch yields one result per request, in order, under the same id, never Accepted; Rejected whenever the response did not match or the seal did not open, and with the fixed message exactly then; Paired exactly when handling succeeded, and then the response matched, that PIN was delivered and a client updated; Failed with the error it failed with |
| `Agent.HandleGuarantees` | crates/ra-host/src/agent.rs:207-259 | a PIN is submitted only if the response matched and the seal opened, and it is that PIN; at most 31 deliveries, 5 s apart; a client is updated only if its uuid is none of those listed before, and it is the first such in a listing taken in time and after every delivery; it is changed in its permissions and, if it was empty, its name |
| `Agent.HandledExactly` | crates/ra-host/src/agent.rs:207-259 | what handling does, told from outside: a response or seal that is wrong, both written out, ends it with the fixed message; otherwise the listing, the loop's turns to their end, and the update decide result, submissions, deliveries and the record sent back |
| `Agent.LoopFrom` | crates/ra-host/src/agent.rs:226-250 | the loop ends, and at the first turn that is over 150 s late, or whose PIN or listing fails, or that lists after a delivery a client not listed before; in every earlier turn a PIN was submitted exactly if none had been delivered for 5 s |
| `Agent.OneTurn` | crates/ra-host/src/agent.rs:230-249 | a turn either leaves the loop as told and comes closer to the time limit, or ends it as told |
| `Agent.DeliveryBounds` | crates/ra-host/src/agent.rs:226-250 | the delivery loop from any of its turns: at most 31 deliveries, at least 5 s apart, and success only with the first new client of a listing taken in time and after every delivery |
| `Agent.FoundIsNew` | crates/ra-host/src/agent.rs:245-247 | the client found is the first listed one whose uuid was not known, and none is found only if every listed uuid was known |
| `Agent.HostAgent.constructor` | crates/ra-host/src/agent.rs:27-31 | a new agent has no failures on its count |
| `Agent.HostAgent.Deliver` | crates/ra-host/src/agent.rs:226-250 | the loop, which ends for every paced clock, has the result, submissions and deliveries of the delivery specification |
| `Agent.HostAgent.HandlePair` | crates/ra-host/src/agent.rs:207-259 | result, submissions, deliveries and update are those of handling, which the rows above tell from outside; the counter is reset exactly when the response matched |
| `Agent.HostAgent.ProcessOne` | crates/ra-host/src/agent.rs:147-161 | one request appends its result and, if rejected, its sleep, and moves the counter as specified |
| `Agent.HostAgent.ProcessBatch` | crates/ra-host/src/agent.rs:146-169 | results, sleeps and the counter after a batch are those of its requests one after the other |
| `Agent.HostAgent.ProcessPolls` | crates/ra-host/src/agent.rs:135-170 | results, sleeps and counter after several polls are those of all their requests one after the other, the counter living on between polls |
| `Handshake.PairEndsExactly` | crates/ra-gamestream/src/pairing.rs:130-208 | for any cryptography within the laws and any salts, challenges and secrets: the conversation ends in WrongPin on the third response if and only if the client's digest test fails, the pairing secret then unsent; else in NotPaired on the fourth exactly when the host's test fails; else completed on the fifth with each side on the other's certificate. It never panics |
| `Handshake.HonestPairingCompletes` | crates/ra-gamestream/src/pairing.rs:275-287 | when the host settles on the client's PIN the handshake completes in exactly five requests, both sides on one key, the client holding the host's certificate |
| `Handshake.SameKeySucceeds` | crates/ra-gamestream/src/testing.rs:53-82 | on equal keys the digest test of the client and the hash test of the host both succeed |
| `Handshake.Round1` | crates/ra-gamestream/src/pairing.rs:115-148 | the first round: the host takes the client's certificate and derives its key from the PIN it settles on; the client takes the host's certificate and seals its challenge |
| `Handshake.Round2` | crates/ra-gamestream/src/pairing.rs:149-168 | the second round: the client reads 48 bytes, keeps the first 32 and commits to the host's challenge in the other 16 |
| `Handshake.Round3` | crates/ra-gamestream/src/pairing.rs:169-192 | the third round: the host's signature verifies, and the client stops in WrongPin if and only if the digest it kept is not the one it computes |
| `Handshake.Round4` | crates/ra-gamestream/src/testing.rs:72-82 | the fourth round: the host answers paired if and only if the hash it opened is the one it computes |
| `Handshake.EcbRoundTrip` | crates/ra-gamestream/src/crypto.rs:36-54 | for every key and message, encryption and decryption refuse exactly the empty and the non-multiples of 16, and decryption undoes encryption, given only an invertible block function |
| `Handshake.EcbIsBlockwise` | crates/ra-gamestream/src/crypto.rs:36-54 | each block of the result is the block function of the block in the same place, for encryption and for decryption |
| `SymbolicHandshake.PairsExactlyOnEqualPins` | crates/ra-gamestream/src/pairing.rs:296-302 | under ideal cryptography a pairing completes if and only if the PIN the host settled on is the client's; otherwise the client stops in WrongPin on its third response, for all salts, challenges and secrets, and never sends its pairing secret |
| `SymbolicHandshake.WrongPassphraseIsCaught` | crates/ra-gamestream/src/pairing.rs:304-315 | the right one-time PIN with a wrong passphrase ends in WrongPin, except exactly when the client's PIN is the fallback 9999 |
| `SymbolicHandshake.FallbackPinPairs` | crates/ra-gamestream/src/testing.rs:48-48 | two parties that disagree on the passphrase and yet pair, the one-time PIN being 9999 |
| `SymbolicHandshake.OtpPinChosen` | crates/ra-gamestream/src/testing.rs:44-49 | the host settles on the one-time PIN if and only if both sides hash the same PIN, salt text and passphrase, and else on 9999 |
| `SymbolicHandshake.DifferentKeysReject` | crates/ra-gamestream/src/pairing.rs:184-187 | on different PINs the client's digest test fails |
| `SymbolicHandshake.KeysDiffer` | crates/ra-gamestream/src/crypto.rs:22-27 | different PINs give different keys under one salt |
| `PairingRuns.HonestPairingOnTheWire` | crates/ra-gamestream/src/pairing.rs:275-294 | through hexadecimal fields, query strings and response bodies the honest handshake goes through in exactly five requests, only the last over HTTPS, one key on both sides and the host's certificate at the client, for all identities, salts, challenges and secrets |
| `PairingRuns.OtpPairingOnTheWire` | crates/ra-gamestream/src/pairing.rs:304-310 | with the same one-time PIN and passphrase on both sides the handshake goes through on the wire, whatever PIN the host holds |
| `PairingRuns.OtpPinOnBytes` | crates/ra-gamestream/src/testing.rs:44-49 | on bytes the host settles on the one-time PIN if and only if the hash agrees on the two strings PIN, salt text and passphrase, and else on 9999, though what it compares is upper-case text |
| `PairingRuns.ClientSafety` | crates/ra-gamestream/src/pairing.rs:130-208 | for every sequence of bodies fed to a fresh client: past phase 0 it heard the certificate it holds, past phase 1 afterwards the digest it holds, past phase 2 afterwards a secret that verifies under the key of that certificate and whose hash with its own challenge and that certificate's signature is that digest; and it keeps its own secrets |
| `PairingRuns.WireIsFaithful` | crates/ra-gamestream/src/pairing.rs:275-287 | every conversation on the wire is the conversation of the decoded messages: same end, same parties, and the requests are the written messages in order |
| `Transcripts.HonestRequests` | crates/ra-gamestream/src/pairing.rs:115-198 | the five query strings of an honest pairing, written out as texts: names, order and separators, the salt, certificate and one-time text, the challenge sealed under the first 16 bytes of SHA-256 of salt and PIN, the sealed commitment, the signed secret, the closing phrase |
| `Transcripts.HonestBodies` | crates/ra-gamestream/src/testing.rs:34-84 | the five bodies of an honest pairing, written out: the host's certificate, the digest and challenge sealed under the same key, the signed secret, consent twice; and what the host holds after each |
| `Transcripts.AcceptsExactly` | crates/ra-gamestream/src/pairing.rs:130-208 | a client in any state goes on with any response if and only if it says paired and carries the evidence of its phase: a certificate; something that decrypts to 48 bytes; a secret that verifies and matches the digest |
| `Transcripts.SendsExactly` | crates/ra-gamestream/src/pairing.rs:146-204 | what a client sends when it goes on, whatever it was told, written out as texts with what is sealed, hashed and signed |
| `Transcripts.RefusesTruly` | crates/ra-gamestream/src/pairing.rs:130-208 | a client reports not paired, another pairing in progress, a bad signature or a wrong PIN if and only if that is what the response shows, the signature being judged before the digest |
| `Transcripts.ReportsDamage` | crates/ra-gamestream/src/pairing.rs:131-176 | every kind of broken response is reported as what it is, and only then: no document, another status, a field missing or not hexadecimal, a certificate that is no text, an answer under 48 bytes, a secret without signature |
| `Transcripts.WrittenAsSpelled` | crates/ra-gamestream/src/pairing.rs:115-198 | each message is written as that one text, the last alone for HTTPS |
| `HostSide.BodyIsDue` | crates/ra-gamestream/src/testing.rs:34-84 | whatever steps a host was handed before, in any order, its answer to any step is the one that follows from them; it consents to a pairing secret if and only if the secret matches the commitment it opened last and is signed under the key of the certificate it was handed last |
| `HostSide.HostHolds` | crates/ra-gamestream/src/testing.rs:39-67 | after any steps a host holds the certificate of the last first message, the key of the last PIN settled on, and what the last commitment opened to; nothing else of it changes |
| `HostSide.ConsentGiven` | crates/ra-gamestream/src/testing.rs:72-82 | consent in terms of the steps handed: the hash of the host's challenge, the certificate's signature and the secret equals the commitment, and the secret's signature verifies |
| `PairingRuns.RejectionOnTheWire` | crates/ra-gamestream/src/pairing.rs:184-187 | on the wire too, the pairing ends in WrongPin if and only if the client's digest test fails, then after three requests, none of which carries clientpairingsecret |
| `PairingRuns.OnlySecretsCarry` | crates/ra-gamestream/src/testing.rs:72-72 | of the query strings a client writes, exactly that of the fourth request has a clientpairingsecret parameter |
| `PairingRuns.ReadWritten` | crates/ra-gamestream/src/testing.rs:34-84 | the host reads back from the query string of every request exactly the message the client wrote |
| `PairingRuns.ReadReplied` | crates/ra-gamestream/src/pairing.rs:130-173 | the client reads back from every body exactly the flag and the field the host wrote |
| `PairingRuns.WireRound` | crates/ra-gamestream/src/testing.rs:34-84 | one request and its response on the wire are one round of the handshake |
| `PairingRuns.SentInOrder` | crates/ra-gamestream/src/pairing.rs:130-208 | the i-th request of any conversation is the one of phase i |
| `PairingWire.Feed` | crates/ra-gamestream/src/pairing.rs:130-208 | on any body whatsoever the phase moves up by one on success and stays on an error, the certificate survives errors, and from phase 1 on it is there, so neither unwrap of it can fail; a next request exists exactly below phase 4, over HTTPS exactly for the last |
| `Query.ParamOfFormat` | crates/ra-gamestream/src/testing.rs:29-31 | looking a name up in a formatted query string gives its value, the first one if it is there at all |
| `Query.SplitJoin` | crates/ra-gamestream/src/testing.rs:29-31 | splitting at the separator undoes joining pieces that do not contain it |
| `Query.PrefixDecides` | crates/ra-gamestream/src/testing.rs:29-31 | of two names without an equals sign, one followed by it is a prefix of the other's pair only if they are equal, so no name shadows another |
| `ByteStrings.UnhexHex` | crates/ra-proto/src/lib.rs:263-269 | decoding lower-case hexadecimal text gives the bytes back |
| `ByteStrings.UnhexHexUpper` | crates/ra-gamestream/src/pairing.rs:108-112 | decoding upper-case text gives the bytes back, so two digests have one text only if they are equal |
| `ByteStrings.HexSpellsOut` | crates/ra-proto/src/lib.rs:263-263 | the text of bytes is two digits each, high half first, out of 0123456789abcdef, or its capitals |
| `ByteStrings.UnhexExactly` | crates/ra-proto/src/lib.rs:269-269 | exactly the texts of an even number of hexadecimal digits, of either case, are decoded |
| `ByteStrings.HexUnhex` | crates/ra-proto/src/lib.rs:269-269 | a text without capitals is the text of what it decodes to |
| `ByteStrings.Utf8Exactly` | crates/ra-gamestream/src/pairing.rs:142-143 | the certificates accepted as text are exactly the encodings of sequences of code points (section 4 of RFC 3629) |
| `ByteStrings.TrimExactly` | crates/ra-gamestream/src/pairing.rs:138-138 | trimming takes the white space off both ends, all of it, and nothing else |
| `Crypto.TurnsDoBlocks` | crates/ra-gamestream/src/crypto.rs:40-42 | after i turns of the in-place loop the first i blocks are done, one after the other, and the rest untouched |
| `Crypto.ReplaceChunk` | crates/ra-gamestream/src/crypto.rs:40-42 | one turn overwrites one chunk of the buffer and nothing else |
| `Crypto.ReplaceChunks` | crates/ra-gamestream/src/crypto.rs:40-42 | the loop over the buffer ends in the state of all its turns |
| `Crypto.AesEcbEncrypt` | crates/ra-gamestream/src/crypto.rs:36-44 | the in-place loop computes block-by-block encryption, with the same length refusals |
| `Crypto.AesEcbDecrypt` | crates/ra-gamestream/src/crypto.rs:46-54 | the in-place loop computes block-by-block decryption, with the same length refusals |
| `Pairing.Pairing.constructor` | crates/ra-gamestream/src/pairing.rs:81-102 | a new client is in phase 0 with its key derived from its salt and PIN |
| `Pairing.Pairing.OtpAuthText` | crates/ra-gamestream/src/pairing.rs:108-112 | the one-time text of the first message, if there are one-time credentials |
| `Pairing.Pairing.Begin` | crates/ra-gamestream/src/pairing.rs:115-126 | the first step is the written form of the first message, with the one-time text last if there is one |
| `Pairing.Pairing.Next` | crates/ra-gamestream/src/pairing.rs:130-208 | object and result after any body are those of the client specification, about which client safety and the handshake theorems are proved |
| `Pairing.Pairing.TakeCert` | crates/ra-gamestream/src/pairing.rs:134-148 | phase 0: state and result as specified, including the three ways the certificate may be refused |
| `Pairing.Pairing.TakeChallenge` | crates/ra-gamestream/src/pairing.rs:149-168 | phase 1: state and result as specified, the digest being kept even when a later step fails |
| `Pairing.Pairing.TakeSecret` | crates/ra-gamestream/src/pairing.rs:169-192 | phase 2: state and result as specified, the signature being checked before the digest |
| `Pairing.FakeHost.constructor` | crates/ra-gamestream/src/testing.rs:22-27 | a new host has no key, no client certificate and no hash |
| `Pairing.FakeHost.Handle` | crates/ra-gamestream/src/testing.rs:34-84 | object and body after any step are those of the host specification; no body stands for a panic |
| `Pairing.FakeHost.HandleCert` | crates/ra-gamestream/src/testing.rs:39-52 | the first request: the PIN is settled on, the key derived, the client's certificate kept |
| `Pairing.FakeHost.HandleChallenge` | crates/ra-gamestream/src/testing.rs:53-64 | the second request, answered without a change of state |
| `Pairing.FakeHost.HandleHash` | crates/ra-gamestream/src/testing.rs:65-71 | the third request: the client's hash is kept |
| `Pairing.FakeHost.HandleSecret` | crates/ra-gamestream/src/testing.rs:72-82 | the fourth request, answered without a change of state |
| `Pairing.RunAgainst` | crates/ra-gamestream/src/pairing.rs:275-287 | the loop that feeds client and host to each other ends, and as the specified conversation does |
| `PairDriver.DriveShape` | crates/ra-gamestream/src/pairing.rs:242-265 | whatever the network answers, a pairing makes at most five requests, exactly the fifth over HTTPS, the short timeout on all plain ones but the first, and one unpair at the end exactly if it failed |
| `PairDriver.DriveSucceedsExactly` | crates/ra-gamestream/src/pairing.rs:242-266 | the driver succeeds if and only if the network answers five times and the client accepts all five; it then returns the certificate of the client, which client safety is about |
| `PairDriver.DriveCarries` | crates/ra-gamestream/src/pairing.rs:242-264 | for every network the k-th request carries the step the client made of the first k answers (the written first message for k = 0), the first with the given timeout, the next three with five seconds, the fifth over HTTPS pinned to the certificate the first answer delivered |
| `PairDriver.CertIsFirstHeard` | crates/ra-gamestream/src/pairing.rs:244-244 | the certificate a client holds in any later phase is the one its first answer delivered |
| `PairDriver.Exchange` | crates/ra-gamestream/src/pairing.rs:243-264 | one request and its answer: the rest of the drive, from the state the client is now in |
| `PairDriver.DriveLoop` | crates/ra-gamestream/src/pairing.rs:239-266 | the loop ends, with the result and the calls of the specified drive |
| `PairDriver.PairOver` | crates/ra-gamestream/src/pairing.rs:232-267 | no call but the version query when that fails or the version is below 7; else calls of the shape above, each carrying what is due, the HTTPS one pinned to the certificate of the first answer, and on success that client's certificate, backed by five accepted answers |
| `Proto.CtEqIsEquality` | crates/ra-proto/src/lib.rs:189-194 | the branch-free fold of exclusive ors is string equality, on all strings |
| `Proto.SealOpen` | crates/ra-proto/src/lib.rs:248-281 | opening undoes sealing for every valid PIN, key and nonce, and the sealed form has 64 characters |
| `Proto.OpenPinExactly` | crates/ra-proto/src/lib.rs:266-281 | opening gives a PIN exactly for hexadecimal text of 28 bytes or more that decrypts, under the key and its first twelve bytes as nonce, to that PIN of four digits; the errors tell bad text, short text and failed decryption apart |
| `Proto.SealPinRefuses` | crates/ra-proto/src/lib.rs:252-254 | exactly what is not four digits is not sealed |
| `Proto.IdsAndPinsAreNumbers` | crates/ra-proto/src/lib.rs:212-233 | the valid ids are exactly the numbers of nine digits, the valid PINs the numbers below 10000 with leading zeros, which is what is drawn at random |
| `Proto.PasswordDecidesH1` | crates/ra-proto/src/lib.rs:179-181 | under one salt two passwords have equal hashes exactly when SHA-256 agrees on the two strings hashed, and these are equal only for equal passwords |
| `Proto.ResponseMatches` | crates/ra-proto/src/lib.rs:184-194 | a response is accepted exactly when SHA-256 agrees on the two strings hashed, and these are equal only for equal password hashes |
| `Proto.KeyMatches` | crates/ra-proto/src/lib.rs:243-245 | two keys for one challenge are equal exactly when SHA-256 agrees on the two labelled strings hashed, which are equal only for equal password hashes; and the response, which the server sees, shows the key only if SHA-256 agrees on two strings of different length |
| `Proto.TextsAreDigests` | crates/ra-proto/src/lib.rs:179-186 | password hash, response and token fingerprint are the 64 hexadecimal digits of SHA-256 of password and salt, of hash and challenge, and of the token |
| `Discovery.Resolve` | crates/ra-client/src/session.rs:112-133 | the endpoint chosen is reachable and preferred to every reachable one: lan before vpn before manual before public before anything else, then by original position; none is chosen exactly when none answered |
| `Discovery.BeforeIsPreferred` | crates/ra-client/src/session.rs:59-67 | the order of ranks is that order of kinds |
| `Discovery.StableOrder` | crates/ra-client/src/session.rs:113-113 | the sorted order holds every position once, by rank and at equal rank by position |
| `Discovery.InsertKeepsOrder` | crates/ra-client/src/session.rs:113-113 | inserting the next position keeps the order and the positions |
| `Discovery.Endpoints` | crates/ra-host/src/agent.rs:37-79 | for every interface list: the first candidate of each host, in order, cut at sixteen, no host twice |
| `Discovery.CandidatesInOrder` | crates/ra-host/src/agent.rs:41-76 | what is considered: the machine's own addresses if they are to be advertised, then the configured endpoints, then the observed address if it is to be |
| `Discovery.OneInterface` | crates/ra-host/src/agent.rs:44-61 | what one interface contributes: nothing if loopback or IPv6 link-local, else its address under the configured port, as vpn if its name begins with tailscale, utun, wg or zt and as lan otherwise |
| `Discovery.InterfacesConcat` | crates/ra-host/src/agent.rs:43-63 | interfaces contribute one by one, in order |
| `Discovery.FirstOfEachHostIsSound` | crates/ra-host/src/agent.rs:59-75 | keeping first occurrences loses no host, repeats none, and keeps for each the first endpoint offered |
| `Discovery.FirstsPush` | crates/ra-host/src/agent.rs:59-75 | an endpoint more goes to the end of the list, or nowhere if its host is there |
| `Discovery.Offer` | crates/ra-host/src/agent.rs:59-61 | a guarded push keeps list and seen set the first endpoints and the hosts of what was offered |
| `Discovery.OfferInterfaces` | crates/ra-host/src/agent.rs:43-62 | the interface loop offers exactly the usable interfaces, in order |
| `Discovery.OfferExtra` | crates/ra-host/src/agent.rs:65-69 | the loop over the configured endpoints offers each of them, in order |
| `Discovery.PrettyIdReadsBack` | crates/ra-host/src/agent.rs:277-279 | a valid id is written in three groups of three with a space between and is read back as itself, and whatever is read at all is a valid id |
| `Discovery.SeparatorsDoNotMatter` | crates/ra-client/src/session.rs:89-95 | whatever is not a digit may be left out of what is typed, and digits alone are read exactly if they are a valid id |

## Left out

- Clock readings: each locked section reads the clock once; `submit_pair` reads it up to three times under the lock (`crates/ra-rendezvous/src/lib.rs:387-410`).
- The wait of `poll_pair_result`: its locked look is modelled, its waiting loop is not; it has the shape of the one in `LongPoll`.
- A batch answered to a poller whose connection then fails: the queue is drained before the response is sent, so that batch is lost to the agent; here it counts as delivered. A poller may be dropped at any point before it has its answer.
- Persistence and restarts: the state file is written outside the lock, so nothing is claimed across a restart; runs start from an empty store.
- HTTP routing, JSON, bearer-header parsing, observed addresses, wall-clock `last_seen_unix`: handlers take parsed records.
- Randomness: what is drawn is a parameter; neither its strength nor the end of the free-id search is claimed, some draw being taken to be free.
- Which host posts a result, and that a stored result stays: slots carry no host id and a later post overwrites, so neither holds of the code.
- That a queued request has a result slot: a slot goes at 300 s while the request may still be queued.
- Injectivity of the password hash in password and salt together: it is claimed in the password for a fixed salt only.
- SHA-256, AES, RSA, ChaCha20-Poly1305 and X.509 are laws, not algorithms; parsing certificates is two partial functions.
- XML: bodies come in as the first child of each name; TLS pinning and sockets are not part of this model.
- White space trimmed by the client is ASCII white space; the source trims Unicode white space.
- The failure counter of the agent is unbounded here and 32 bits wide in the source.
- Device names: `sanitize_name` is not modelled, the sanitised name is a parameter; of a client record, the fields the agent hands back untouched are one opaque field.
- The agent's registration, heartbeats and the error branches of its poll loop, between the polls that succeed; that its results reach the server, since the source ignores a failed post.
- The part of `pair_with` after the request is accepted: the local pairing and the host's result race, and success does not mean that the local pairing has finished.
- Probing is a vector of answers; the sort is the documented result of a stable sort, not its algorithm.
- `ra-desk`, the Moonlight driver, the Apollo web client, the command lines, configuration files, the `ra-fakehost` sockets and the `serverinfo` and `apps` fields: plumbing that would add only easy members.
