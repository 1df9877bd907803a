# Verification of the cheget signing core

This project models the parts of cheget that hold state and keep promises across it, and proves those
promises for all inputs, all runs and all crash points. It is written in Dafny 4.11; `dafny verify
dfyconfig.toml` checks all of it.

| module | models |
|---|---|
| `Envelopes`, `Transport` | envelopes, their 64-bit FNV ids, filters, and the board on which the first envelope under an id wins |
| `Session` | the two-round signing session: functions that say what each step does to the board, the randomness and the event log, and a class whose methods and loops are proved to do exactly that |
| `SessionLaws`, `Completeness`, `Collecting` | soundness for any board and any primitives; completeness for honest ones; which envelopes are used |
| `NonceHistory`, `GateHistory` | every nonce signs at most once and every share passes the gate, over every history of calls |
| `NonInterference`, `SessionScripts`, `Isolation` | sessions on one board do not disturb each other, in every interleaving; the run as a script of single steps |
| `Keygen`, `Ceremonies` | the parallel key-generation driver against a sequential reference, and that reference as a transcript of calls |
| `Field`, `FieldFrost`, `FieldDkg`, `AnyThreshold` | the FROST primitives over a prime-order group, and any t seats signing |
| `FileSystem` | a disk that can fault and lose power at every operation, and the atomic write on it |
| `Manifests`, `StorePaths`, `ParticipantStores`, `Checkpoints` | the share index, the file layout, the share store and the ceremony checkpoints |
| `SeatNames`, `PersistLoad`, `EndToEnd` | persisting a ceremony, loading t seats of it, and signing with them |
| `Text`, `Ordered`, `Frost`, `Wrappers` | bytes, decimals and hex; ascending order; transactions and the primitive interface; Option and Result |

How the outside world appears:

- The FROST, sighash and encoding calls are function values of the records `Primitives`, `Dkg` and `Codec`.
  Results that do not mention the group hold for every choice of them, failing and inconsistent ones included.
- `FieldFrost` and `FieldDkg` fill these records for a group of prime order: a point is represented by its
  exponent, nonces and polynomials come from an arbitrary stream, and the hashes are arbitrary functions.
  The formulas are those of RFC 9591 (sections 4 and 5, appendix C.1), BIP340 parity and the BIP341 tweak
  with an absent script tree.
- Randomness is a position in a stream; each draw is numbered, so that "signed with twice" can be said.
- A file's contents are symbolic documents: parsing inverts printing, and decrypting inverts encrypting
  under the same passphrase only. Contents that were not synced are arbitrary after a crash; directory
  entries that were not synced survive or vanish one by one; directories are durable once created, and a
  removed one may come back. One process writes at a time. Whether faults and power losses can happen at
  all is a property of the disk (`calm`), so that success can be promised where nothing goes wrong.
- Id collisions are possible and are part of the model. Properties that need their absence say so through
  `CollisionFree`; acks of one session are proved not to collide.

What the code does where its comments say something else (the model follows the code):

- The session module says a session that aborts cannot be reused; `run` marks the session spent only after
  success, so a failed run leaves it usable (`SpentExactly`).
- Calling round 1 again on the same topic leaves the earlier commitments on the board, and which of two
  envelopes of a seat is used is decided by their ids, not by their age (`PairingExactly`).
- An error of the last directory sync of an atomic write leaves the new contents visible, so an error does
  not mean the old contents (`WriteAtomic`).
- A wipe is not synced, so a crash may bring a wiped round back (`WipedRoundMayReturn`).
- Seats of one key id and epoch share one public envelope, so a later put with another group changes the
  group of all of them, even if that put fails right after (`TwoPuts`, `EntryLeadsToItsPut`).
- The command line accepts a threshold of one; key generation then refuses it (`CeremonyCompletesExactly`).
- The first `t` roots by name are the `t` smallest seats only while four digits suffice, or few enough seats
  are selected (`FirstRoots`).
- With 65536 seats the seat number wraps and a member takes the coordinator's seat 0 (`CoordinatorSeatFree`).
- The hex decoders accept upper case and a plus sign, which encoding does not give back (`HexUnhex`).

## Model

| member | source | states |
|---|---|---|
| EndToEnd.PersistedSharesSign | src/cli/sign.rs:122-173 | the t seats loaded from a persisted ceremony sign, even when persisting was interrupted: every input of the returned transaction carries a signature that verifies under Q |
| AnyThreshold.AnyThresholdSigns | src/session/mod.rs:404-422 | for the prime-order group, a ready session over any set of at least t seats of a completed ceremony returns its transaction with a verifying 64-byte signature on every input |
| AnyThreshold.FieldIsHonest | src/crypto/sign.rs:63-87 | over the group the primitives are honest at a round if and only if neither the group commitment nor Q is the identity |
| AnyThreshold.SessionSigns | src/session/mod.rs:404-422 | shares on one polynomial of length at most the number of selected seats make the whole run succeed |
| AnyThreshold.WrongShareStops | src/session/mod.rs:375-390 | if the shares collected in an honest round differ from the signed ones in one seat, the round ends with the error that names exactly this seat |
| AnyThreshold.SignsExactly | src/crypto/nonce.rs:66-72 | a seat signs if and only if the package has enough signers, holds the commitments of the nonces it is given, and nothing degenerates |
| FieldFrost.AggregateVerifies | src/crypto/sign.rs:63-87 | shares made with the None tweak by any signers at least as many as the polynomial has coefficients aggregate to a signature that verifies under Q = P + H(P)G |
| FieldFrost.AggregatesExactly | src/crypto/sign.rs:63-77 | whatever shares arrive under the package of an honest round: aggregation succeeds if and only if they sum up to the honest sum modulo the order, and otherwise names the first seat whose share is not the one it signed |
| FieldFrost.WrongShareIsNamed | src/crypto/sign.rs:63-77 | one wrong share is refused and its seat named |
| FieldFrost.WrongSeatsRefused | src/crypto/sign.rs:63-77 | shares of other seats than the package's, or fewer than the threshold, are refused |
| FieldFrost.OneNumberVerifies | src/crypto/sign.rs:80-87 | for each key, commitment and message exactly one number verifies, and none if key or commitment is the identity |
| FieldFrost.SignatureBindsChallenge | src/crypto/sign.rs:80-87 | a signature that verifies for two messages forces their challenges to be congruent |
| FieldFrost.SignatureTravels | src/crypto/sign.rs:91-95 | the 64 bytes are the even commitment and the number, and are read back |
| FieldFrost.FactorBinds | src/crypto/nonce.rs:66-72 | with an injective hash, equal binding factors come from the same signer, key and package |
| FieldFrost.DrawsCommitAlike | src/crypto/nonce.rs:51-57 | two draws of a seat give equal nonces if and only if they hash alike, and equal commitments come from equal nonces |
| FieldFrost.OutputKeyIsTweaked | src/bridge/taproot.rs:117-120 | Q is the even internal key plus its tweak |
| FieldFrost.EvenRepIsEven | src/crypto/keygen.rs:182-183 | normalizing yields the element or its negation, and an even one |
| FieldFrost.EquationHolds | src/crypto/sign.rs:63-73 | the sum of those shares satisfies zG = R + eQ for the even representatives |
| FieldFrost.SigningKeyFacts | src/crypto/nonce.rs:66-72 | normalizing, tweaking with None and normalizing again moves each key share onto one polynomial whose constant term is the key of Q |
| FieldDkg.CeremonyDelivers | src/crypto/keygen.rs:81-210 | all n even-normalized shares of a ceremony with 2 <= t <= n lie on one polynomial of length t whose constant term is the group key |
| FieldDkg.CeremonyCompletesExactly | src/crypto/keygen.rs:81-210 | over the group a ceremony completes if and only if 2 <= t <= n; otherwise the first round of the first seat refuses the parameters and nothing was drawn |
| FieldDkg.CeremonyUsesStream | src/crypto/keygen.rs:112-124 | over the group a ceremony leaves the random stream n * t draws further, so the next one shares none |
| FieldDkg.SeatTakesStretch | src/crypto/keygen.rs:112-124 | each seat takes its t coefficients from its own stretch of the stream |
| FieldDkg.GroupKeyIsEven | src/crypto/keygen.rs:182-183 | the key of a completed ceremony is even |
| FieldDkg.Part3Judges | src/crypto/keygen.rs:171-186 | round 3 accepts the received shares if and only if each is what its sender committed to, and otherwise names the smallest sender of a wrong one |
| FieldDkg.WrongPackagesRefused | src/crypto/keygen.rs:138-186 | rounds 2 and 3 refuse anything but one package of the right length from each other seat |
| Field.Interpolation | src/crypto/sign.rs:63-73 | Lagrange coefficients at zero recover the constant term of any polynomial no longer than the number of distinct points, modulo a prime |
| Completeness.RunComplete | src/session/mod.rs:404-422 | with fresh topics, no id collision, 1 <= t <= n, every prevout present and honest primitives, an acknowledged run returns Ok |
| Completeness.Round1Exact | src/session/mod.rs:268-314 | on a fresh topic the package maps exactly the selected seats to the public images of the nonces held for them and its message is the input's sighash |
| Completeness.Round2Exact | src/session/mod.rs:328-390 | the collected shares are exactly those of the holders, and their aggregate is returned |
| Completeness.CommitMapExact | src/session/mod.rs:301-312 | the package has exactly the selected seats, each with the commitments of its own draw |
| Completeness.NonceMapExact | src/session/mod.rs:277-291 | the held nonces are exactly those of the selected seats, seat k holding draw from + k |
| Completeness.PairingExactly | src/session/mod.rs:295-310 | on any topic, fresh or not, the package gets a seat's fresh commitments if and only if their envelope has the largest id of that seat's envelopes |
| Collecting.CommitmentsExactly | src/session/mod.rs:301-310 | round 1 takes, of each selected seat and of nobody else, the last commitments heard; it fails if and only if some that count do not decode, with the first such error |
| Collecting.SharesExactly | src/session/mod.rs:375-382 | round 2 does the same for the shares of the roster |
| Collecting.FiltersExactly | src/session/mod.rs:295-374 | what each of the three subscriptions of a session lets through |
| SessionLaws.RunSound | src/session/mod.rs:404-422 | for any board contents and any primitives, a run that returns Ok returns the unsigned transaction up to witnesses, and every witness is one 64-byte signature that verifies under Q on that input's sighash over the prevouts of all inputs in input order |
| SessionLaws.SignInputSound | src/session/mod.rs:411-417 | the bytes returned for one input are such a signature |
| SessionLaws.PrevoutsExact | src/session/mod.rs:197-209 | the prevouts are the known outputs in input order; if one is missing, the first missing input is reported |
| SessionLaws.SighashExact | src/session/mod.rs:215-219 | the message is the sighash of the unsigned transaction at the input over exactly these prevouts |
| SessionLaws.CulpritsSurface | src/crypto/sign.rs:63-77 | a failing aggregation ends the round with the culprits it names, or with its own error if it names none |
| SessionLaws.TotalOfAdds | src/session/display.rs:92-114 | totals are sums of the outputs' values |
| SessionLaws.GateShows | src/session/display.rs:121-150 | a cleared gate has shown the input total, every output and the fee; without a sighash it fails with its reason |
| SessionLaws.LivenessSound | src/session/mod.rs:234-259 | for any board contents a successful poll selects exactly t distinct members of the roster in ascending order |
| SessionLaws.LivenessOnEmptyBoard | src/session/mod.rs:234-259 | on an empty board with at most 65535 seats no ack is lost: the t smallest identifiers in order if t <= n, otherwise the error with got = n |
| SessionLaws.LivenessAbsentCollisions | src/session/mod.rs:234-259 | the same on any board whose envelopes do not collide with the acks |
| SessionLaws.SeatsInverseExactly | src/session/mod.rs:163-169 | the seat and identifier maps are inverse to each other if and only if the roster has at most 65536 members (the seat number wraps at 16 bits) |
| SessionLaws.CoordinatorSeatFree | src/session/mod.rs:163-169 | no member gets the coordinator's seat 0 if and only if the roster has fewer than 65536 members |
| SessionLaws.TopicInjective | src/session/mod.rs:223-225 | equal topics have equal session ids and equal inputs, even when ids contain # |
| SessionLaws.OwnedByOne | src/session/mod.rs:295-310 | no envelope belongs to two sessions, even when one session's liveness id is a topic of the other |
| NonInterference.SessionsDoNotInterfere | src/transport/inmemory.rs:46-67 | for every interleaving of any number of sessions that publish and subscribe to their own envelopes only, each has gone through exactly the steps it goes through alone; only what is published on that schedule must be free of id collisions |
| NonInterference.SessionFiltersSeeOwn | src/session/mod.rs:295-374 | the three filters of a session show it only its own envelopes |
| SessionScripts.RunIsUndisturbed | src/session/mod.rs:404-422 | on every schedule of any number of sessions, a run that has returned has returned the transaction or error it returns alone, and left the same envelopes of its own |
| SessionScripts.RunFinishes | src/session/mod.rs:404-422 | there is a number of own turns after which the run has returned that, whatever the others do between them |
| SessionScripts.RunScriptReaches | src/session/mod.rs:404-422 | cut at every publication and subscription, the run alone on any board leads to the board and the result of the uncut run |
| SessionScripts.RunScriptBehaves | src/session/mod.rs:234-390 | whatever it hears, the run publishes only envelopes of its own session and subscribes only to those |
| Isolation.RunIgnoresOthers | src/session/mod.rs:404-422 | a whole run returns the same result, draws the same nonces and sends the same envelopes whatever other sessions have left on the board |
| NonceHistory.EveryNonceSignsOnce | src/crypto/nonce.rs:66-72 | over every history of round-1, round-2 and run calls of any sessions, each draw of randomness is signed with at most once |
| NonceHistory.SpentExactly | src/session/mod.rs:404-421 | over every history of calls a session becomes spent if and only if one of its runs returned Ok |
| NonceHistory.SpentForever | src/session/mod.rs:404-407 | once spent, a session stays spent over every further history and running it changes nothing |
| NonceHistory.FreshWorld | src/session/mod.rs:170-181 | a world without history satisfies the nonce invariant |
| GateHistory.RunGated | src/session/mod.rs:339-365 | in every run, however it ends, a share is sent only right after its signer's gate recomputed the package's message as the sighash and had the ack; whatever is sent belongs to the session |
| GateHistory.Round2Gated | src/session/mod.rs:339-365 | the same for every round-2 call with any round-1 value |
| GateHistory.NoAckNoShare | src/session/display.rs:121-150 | without the ack a run uses no nonce and sends no share |
| GateHistory.WithoutAckIsAsked | src/session/display.rs:121-150 | a run that would sign with the ack ends, without it, with exactly the error that asks for it |
| Session.SigningSession.constructor | src/session/mod.rs:150-182 | a new session numbers its roster both ways and is not spent |
| Session.SigningSession.LivenessSelect | src/session/mod.rs:234-259 | refines the poll: same selection, same envelopes |
| Session.SigningSession.RunRound1 | src/session/mod.rs:268-314 | refines round 1, error paths included |
| Session.SigningSession.RunRound2 | src/session/mod.rs:328-390 | refines round 2, error paths included |
| Session.SigningSession.Run | src/session/mod.rs:404-422 | refines the whole run and sets spent exactly on success |
| Session.SigningSession.NewSessionOnAbort | src/session/mod.rs:431-441 | a new unspent session over the same roster, transaction and threshold under the new id |
| Session.AssignSeats | src/session/mod.rs:163-169 | the loop that numbers the roster computes both maps |
| Session.ReadCommitments | src/session/mod.rs:301-310 | the loop over collected envelopes: unknown and unselected seats are skipped, a later envelope of a seat wins, the first undecodable one ends it |
| Session.ReadShares | src/session/mod.rs:375-382 | the loop over collected shares, unknown seats skipped |
| Session.Summarize | src/session/display.rs:92-114 | the inputs are the total of the prevouts and the outputs those of the transaction; inputs equal outputs plus fee if and only if the outputs do not exceed the inputs, otherwise the fee is zero |
| Session.DisplayAndAck | src/session/display.rs:121-150 | succeeds if and only if the input's recomputed sighash equals the package message and the ack was given; a mismatch is reported before a missing ack |
| Session.OverProvisionedPollSize | src/session/liveness.rs:49-52 | the least size above t that has at least one spare seat and a tenth of t spare, or all n seats if n is smaller |
| Transport.FetchExact | src/transport/inmemory.rs:59-67 | a subscription returns exactly the stored envelopes its filter matches, in ascending id order and without duplicates |
| Transport.FilterFields | src/transport/mod.rs:84-111 | a filter is the conjunction of its fields, and a directed envelope also needs its recipient named |
| Transport.FetchDependsOnMatches | src/transport/mod.rs:84-111 | two boards that agree on the matching envelopes answer a subscription alike |
| Transport.DirectedOnlyToRecipient | src/transport/mod.rs:84-111 | a directed envelope is matched only by a filter naming its recipient |
| Transport.PostAllExact | src/transport/inmemory.rs:47-57 | absent collisions, publishing a sequence adds exactly its envelopes |
| Transport.OrderAndRepetitionInvisible | src/transport/inmemory.rs:47-57 | absent collisions, two publish sequences with the same elements give the same answer to every subscription |
| Transport.CollisionDropsTheSecond | src/transport/inmemory.rs:47-57 | under a colliding id the first envelope stays and the second is dropped |
| Transport.InMemoryTransport.Publish | src/transport/inmemory.rs:47-57 | returns the id and inserts under it only if the id is free |
| Transport.InMemoryTransport.Subscribe | src/transport/inmemory.rs:59-67 | the filter chain over the map computes the subscription and changes nothing |
| Envelopes.EncodeInjective | src/transport/envelope.rs:160-174 | equal byte encodings come from equal envelopes: class, id, round, seat, recipient and payload |
| Envelopes.SeatsNeverCollide | src/transport/envelope.rs:148-177 | two envelopes that differ in the seat only never share a 64-bit id |
| Envelopes.TwoBytesInjective | src/transport/envelope.rs:152-157 | from every hash state, two different byte pairs lead to different states, and so after every common suffix |
| Envelopes.FnvInjective | src/transport/envelope.rs:152-157 | a hashing step over common bytes is injective in the state |
| Envelopes.ComputeId | src/transport/envelope.rs:148-177 | the byte loops compute the hash of the length-prefixed encoding |
| Envelopes.KnownHash | src/transport/envelope.rs:148-157 | the hash has the published value on a one-byte text |
| Keygen.RunInprocessDkg | src/crypto/keygen.rs:81-210 | for every split of the seats into jobs in rounds 2 and 3, the driver returns what the sequential ceremony with fresh maps of all others returns: packages, error and position in the random stream |
| Ceremonies.Transcript | src/crypto/keygen.rs:81-210 | a completed ceremony as its calls: seat after seat draws from where the one before stopped, every seat gets the packages of all others and what they sent it, and ends with its own normalized package under the first seat's group |
| Ceremonies.StreamPosition | src/crypto/keygen.rs:112-124 | however a ceremony ends, the random stream is left where the last of its at most n draws left it, and a failed draw ends it with its own error |
| Ceremonies.ConfirmStopsAtFirst | src/crypto/keygen.rs:188-208 | an unconfirmed ceremony reports the first seat that failed or disagrees, with its error |
| Keygen.PooledRound2 | src/crypto/keygen.rs:138-146 | one job's remove, call, re-insert loop agrees with the fresh-map results up to and including the first error of the job; no removal misses its entry |
| Keygen.PooledRound3 | src/crypto/keygen.rs:171-186 | the same for round 3 |
| Keygen.ResolveAgree | src/crypto/keygen.rs:148-161 | results that agree up to the first error resolve alike, whatever a short pool made of the rest |
| Keygen.ConfirmAgree | src/crypto/keygen.rs:188-208 | the same for the group-key walk |
| Keygen.ResolveIsFirstError | src/crypto/keygen.rs:155-161 | resolving yields all values, or the error of the smallest failing seat |
| Keygen.InboxIsTranspose | src/crypto/keygen.rs:153-161 | recipient r holds under s precisely what s sent to r, and nothing else |
| Keygen.ResolveAndFanOut | src/crypto/keygen.rs:151-161 | the loop resolves in order and files every directed package under its recipient |
| Keygen.CompletedCeremony | src/crypto/keygen.rs:193-209 | a completed ceremony has exactly the seats 1..=n, n > 0, and if every part-3 pair agrees on its key every package carries the group key |
| Keygen.ConfirmSucceeds | src/crypto/keygen.rs:193-208 | results that all succeed with one key are accepted |
| Keygen.ConfirmGroupKey | src/crypto/keygen.rs:216-226 | accepts if and only if every package carries the group key, otherwise names the smallest seat that does not |
| FileSystem.Disk.WriteAtomic | src/store/atomic.rs:63-102 | however it ends, other final names are untouched and the final name shows the old or the complete new contents; Ok means durably the new contents; nothing outside the directory changes; without faults, in an existing directory without temporary files, it is Ok |
| FileSystem.EveryRunIsAtomic | src/store/atomic.rs:63-102 | over every run of writes with any outcomes and power losses anywhere, a final name shows its old contents or the complete contents of one of the writes to it |
| FileSystem.AcknowledgedSurvives | src/store/atomic.rs:98-101 | an Ok write survives everything that follows, crashes included, until the same name is written again |
| FileSystem.WroteAdds | src/store/atomic.rs:63-102 | a write adds at most its own complete contents to what a crash may bring back |
| FileSystem.CrashShrinks | src/store/atomic.rs:6-20 | a crash only decides between what was possible, and final names stay complete |
| FileSystem.Disk.RemoveTree | src/store/checkpoint.rs:198-205 | files and then directories below a directory go, nothing else does; it may stop half way, is not durable, and does nothing if nothing is there; without faults it succeeds |
| ParticipantStores.ParticipantStore.PutShare | src/store/participant.rs:85-117 | envelope, share, manifest last: on success all three are durable and the index, as a map, has the given state at the tag and is unchanged elsewhere; in every outcome only these files change and the store invariant is kept; without faults, with a readable index and packages that serialize, it succeeds |
| ParticipantStores.PutInactive | src/store/participant.rs:129-142 | after puts into an empty root of which none is active, no share is handed out |
| ParticipantStores.ActivateAfter | src/store/participant.rs:129-142 | after such puts and one active put, exactly its share is handed out |
| ParticipantStores.OnlyActiveExactly | src/store/participant.rs:129-142 | the share of the first active entry is handed out, if its key id is safe and its seat is one |
| ParticipantStores.ShareFailsWith | src/store/participant.rs:149-156 | which error each obstacle to loading a share gives |
| ParticipantStores.VersionGate | src/store/manifest.rs:136-149 | a manifest is read if and only if its version is between 1 and the current one |
| ParticipantStores.RunStore | src/store/participant.rs:85-117 | over every sequence of puts under any passphrases, with power losses inside and restarts between, the store invariant holds for what was put and what was acknowledged |
| ParticipantStores.StoreRecovers | src/store/participant.rs:129-203 | from the invariant: the manifest parses, has no tag twice, and every entry leads to a package put under exactly its tag and to the group of some put under the same key id and epoch |
| ParticipantStores.EntryLeadsToItsPut | src/store/participant.rs:129-203 | if all puts under one key id and epoch carry one group, every entry leads to the package and the group of one and the same put |
| ParticipantStores.LastEnvelopeDecides | src/store/participant.rs:92-99 | seats of one key id and epoch share one envelope: the group read for any of them is its own exactly if it equals the one written last |
| ParticipantStores.TwoPuts | src/store/participant.rs:85-117 | after a put of one seat and then of another under the same key id and epoch, or only the first step of that, the first seat keeps its index entry and its share, and leads to its own group if and only if both were put with the same |
| ParticipantStores.AcknowledgedLoads | src/store/participant.rs:149-156 | an acknowledged share is indexed and loads with its passphrase until its tag is put again; any other passphrase is refused |
| ParticipantStores.WriteKeeps | src/store/participant.rs:92-116 | a write that respects the order keeps the store invariant, however it ends and even if power is lost |
| ParticipantStores.CrashKeeps | src/store/participant.rs:79-84 | a power loss keeps the store invariant |
| ParticipantStores.MayWriteManifest | src/store/participant.rs:105-116 | the new manifest respects the invariant once both files of the new share are there |
| ParticipantStores.ParticipantStore.ReadManifest | src/store/participant.rs:193-199 | an absent manifest is empty, a version 0 or newer than this build is refused |
| ParticipantStores.FirstActive | src/store/participant.rs:129-135 | the first active entry of the list, or nothing if none is active |
| Manifests.Manifest.AddEntry | src/store/manifest.rs:154-164 | the object's list is the old one with the entry added, distinct tags kept |
| Manifests.Manifest.Lookup | src/store/manifest.rs:167-169 | finds the first entry with the tag |
| Manifests.Manifest.RemoveEntry | src/store/manifest.rs:173-177 | drops every entry with the tag and says whether there was one |
| Manifests.LookupAfterAdd | src/store/manifest.rs:154-169 | adding refines a map update for every list, parsed duplicates included |
| Manifests.LookupAfterRemove | src/store/manifest.rs:167-177 | removing refines a map deletion, duplicates included |
| Manifests.AddKeepsOthers | src/store/manifest.rs:154-164 | every tag and every other entry stays at its position; a new position only for a new tag |
| Manifests.AddKeepsDistinct | src/store/manifest.rs:152-164 | adding keeps tags unique |
| Manifests.AddMembers | src/store/manifest.rs:154-164 | with unique tags, the list afterwards holds the entry and the others with other tags |
| Manifests.RemoveKeepsOthers | src/store/manifest.rs:173-177 | removing keeps exactly the other entries and keeps tags unique |
| Manifests.SeatRoundTrip | src/store/participant.rs:254-269 | every seat spelled into the manifest is read back |
| Manifests.SeatReadsExactly | src/store/participant.rs:254-269 | a text is read as a seat if and only if it decodes to the seat's own 32 bytes |
| Manifests.SeatHexInjective | src/store/manifest.rs:93-100 | different seats have different spellings |
| StorePaths.PathOfInjective | src/store/participant.rs:214-231 | different keys, of one kind or of different kinds, have different files under one root |
| StorePaths.CeremonyOwnsItsFiles | src/store/checkpoint.rs:240-249 | the files below a ceremony's directory are exactly that ceremony's rounds |
| StorePaths.PathOfIsFinal | src/store/atomic.rs:71 | no file of a store has the name of a temporary file, and all lie below the root |
| StorePaths.JoinSafeId | src/crypto/types.rs:39-49 | a validated id is exactly one path component |
| StorePaths.JoinExactly | src/crypto/types.rs:39-49 | a text becomes one component below the base if and only if it is neither empty nor a dot and has no separator; validated ids do and are never the parent reference |
| Checkpoints.WriteIsMapUpdate | src/store/checkpoint.rs:212-224 | seen as a map from keys, a successful write is an update of one key across all kinds; a failed one changes at most that key |
| Checkpoints.SweepIsMapRemoval | src/store/checkpoint.rs:198-205 | a completed wipe removes exactly one ceremony's keys |
| Checkpoints.SweepKeeps | src/store/checkpoint.rs:198-205 | wiping, even half way, leaves shares, envelopes and index as sound as before |
| Checkpoints.CheckpointKeeps | src/store/checkpoint.rs:212-224 | writing a checkpoint leaves them as sound as before, however it ends |
| Checkpoints.CheckpointStore.PutRound | src/store/checkpoint.rs:212-236 | at most new directories and an atomic write at one key; on success the round is read back under its passphrase, and no other passphrase opens it; without faults it succeeds |
| Checkpoints.RoundReadsExactly | src/store/checkpoint.rs:228-237 | a round is read if and only if it was encrypted under the passphrase; an absent one is an error |
| Checkpoints.WipedRoundsAreGone | src/store/checkpoint.rs:198-205 | after a wipe no passphrase opens a round of the ceremony, and the rounds of others load as before |
| Checkpoints.OtherRoundsAreKept | src/store/checkpoint.rs:212-224 | storing a round leaves every other round loading as before |
| Checkpoints.CheckpointStore.Wipe | src/store/checkpoint.rs:198-205 | only the ceremony's files and directories go, and after a success none of its rounds loads; if it has none, the wipe is not refused and changes nothing; without faults it succeeds |
| Checkpoints.WipeTwice | src/store/checkpoint.rs:190-205 | after a successful wipe a second one is not refused and leaves what the first left, also when power is lost in it |
| Checkpoints.WipedRoundMayReturn | src/store/checkpoint.rs:194-205 | a wipe is not synced: a crash right after it may bring any visible round back |
| PersistLoad.PersistDkgShares | src/cli/keygen.rs:104-122 | on success from an empty base, the base durably holds exactly one root per seat with that seat's share of the sequential ceremony; after every other outcome, a power loss included, each root satisfies the store invariant for its own put; without faults it succeeds if the ceremony does |
| PersistLoad.LoadPersistedShares | src/cli/sign.rs:122-173 | whatever order the directory is listed in, the result is determined by the files and by the directory entries that could not be read, unless the listing or the read of a file fails; without faults by the files alone |
| PersistLoad.PersistedLoads | src/cli/sign.rs:122-173 | if at least t seats are listed, exactly t seats with their own packages and the group are loaded, otherwise their number is reported; if all are listed, they are the t smallest if and only if n <= 9999, or t <= 1000, or t = n |
| PersistLoad.SoundLoads | src/cli/sign.rs:122-173 | whatever became of a persist and whichever passphrase is tried, loading is an error or yields the group and exactly t seats with their own packages, under the right passphrase |
| PersistLoad.SoundSurvives | src/cli/keygen.rs:104-122 | what an interrupted persist left stays sound over power losses |
| PersistLoad.PersistThenLoad | src/cli/sign.rs:122-173 | persist with any outcome, lose power, load: an error or genuine shares of the reference ceremony; after a successful persist only failing reads stand in the way, and without faults the shares are loaded |
| PersistLoad.PersistedSurvives | src/cli/keygen.rs:112-119 | a persisted base survives power losses |
| PersistLoad.TooFewSeats | src/cli/sign.rs:139-146 | fewer listed roots than t are refused with their number |
| PersistLoad.ForeignNamesIgnored | src/cli/sign.rs:129-137 | files below the base whose name does not start like a seat root have no influence |
| PersistLoad.GroupFailsWith | src/cli/sign.rs:166-170 | which error each obstacle to reading the group gives |
| PersistLoad.SeatLoads | src/store/participant.rs:129-142 | a stored seat is loaded as the only active share of its root |
| SeatNames.FirstRoots | src/cli/sign.rs:137-147 | sorting puts the seats 1..=t first if and only if n <= 9999, or t <= 1000, or t = n |
| SeatNames.NameOrder | src/cli/keygen.rs:116 | zero-padded names compare like their numbers, a five-digit one right behind its first four digits |
| SeatNames.SortInPlace | src/cli/sign.rs:137 | the array is sorted and is a permutation of what it was |
| Text.UnhexHex | src/cli/address.rs:156-172 | decoding inverts encoding for all byte sequences |
| Text.PairExactly | src/cli/address.rs:164-172 | a pair is accepted if and only if it is two hex digits of either case, or a plus sign and one |
| Text.UnhexPair | src/cli/address.rs:164-172 | a decoded text has even length and each byte is its pair |
| Text.UnhexRefused | src/cli/address.rs:164-172 | a refused text of even length has a pair that is not accepted |
| Text.HexUnhex | src/cli/address.rs:164-172 | encoding inverts decoding of a text if and only if all its characters are lower-case hex digits |
| Text.HexEncode | src/cli/address.rs:156-162 | the pushing loop computes the encoding, which is read back |
| Text.HexDecode | src/store/participant.rs:254-269 | the loop over pairs computes the decoding; an odd length or one bad pair rejects the text |

## Left out

- Elliptic-curve and hash arithmetic, sighash layout, PSBT and consensus encoding, byte formats of FROST types: function values, see above.
- Proofs of knowledge in key generation: the group instance carries none. Its aggregation stops at the first cheater, as the library's default does; the general results allow primitives that name any culprits.
- Identity points: the group instance represents them by exponent 0 and refuses to sign with them, as `FieldIsHonest` says.
- The address rendering and the parity check of the internal key (src/bridge/taproot.rs:72-110): library conversions; key generation normalizes every key before they are reached.
- The error for a seat number that is no identifier (src/crypto/keygen.rs:116): every number from 1 to 65535 is one.
- age, scrypt, zeroizing and prompts: only the symbolic law of decryption is used; encryption may fail.
- The transport identity, the coordinator database, chain backends, command parsing, printing and file permissions: no state shared with the modelled parts.
- Concurrent writers to one store: `put_share` reads and writes the manifest without a lock, so one writer is assumed.
- Reads of files are modelled as one step that either fails or sees the current state; reading does not change the disk. `LoadSpec`, `LoadManifest` and `LoadShare` say what is read when no read fails.
- Network parameter of the display summary: it only selects how addresses are rendered.
- A text with multi-byte characters in a hex field (src/cli/address.rs:164-172): slicing it may panic; texts are byte sequences here.
- Refresh, enrolment, sweep and policy: described in the specification, no code exists.
- PersistLoad.LoadPersistedShares: requires t >= 1, because the code indexes the first selected root and would panic on t = 0; names that are not valid text are not listed. Which read failed is not said, only that one did.
- Session.Summarize: outputs are kept as amounts and scripts, without their rendered addresses.
- AnyThreshold.AnyThresholdSigns: assumes that neither the group commitment nor Q is the identity, which has negligible probability but no proof; `FieldIsHonest` shows that this is exactly what is needed.
- SessionScripts.RunIsUndisturbed: each session draws from a stream of its own, as each process does; the draws of different sessions are not numbered together.
- Durability of new directories: they are taken to be durable once created. The code syncs the directory of a file but not the parents of a directory it has just made (src/store/atomic.rs:43-56), so `AcknowledgedSurvives` and `AcknowledgedLoads` rest on this for first writes into new directories.
- Permissions and modes of directories, and the order in which a removal takes directories away: any of them may be left when it fails.
