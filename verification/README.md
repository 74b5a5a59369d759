# PhoneBridge: a verified model

PhoneBridge pairs Android phones (Kotlin) with a desktop broker, the message-center (Rust), over
an envelope protocol, and shows phone events on desktop displays. This project models its
stateful core in Dafny and proves what holds over every run.

`dafny verify dfyconfig.toml` checks everything.

| file | subject |
|---|---|
| `Wrappers`, `Text`, `Protocol` | results, string lengths and splitting, envelopes |
| `Sessions` | the center's two pairing state machines |
| `WsHandler`, `Center` | the shared maps, frame dispatch and the pairing REST calls, on mutable objects |
| `PairingMachine` | the phone's state machine and service |
| `PairingSystem` | center and phone composed for one device, cut at every lock |
| `PairingSafety` | invariants and theorems over every run |
| `PairingOrigins` | which certificate, phone pairing and session each pairing comes from |
| `PairingAgreement` | whether an acceptance pairs the session whose code the user saw |
| `PairingEndToEnd` | from the accepted code to the session the center spends |
| `PairingAttempt` | one `pair_start` in every lossless interleaving: exactly when it pairs |
| `PairingEdges` | runs at the edges of that theorem |
| `PairingRefusal` | what such a `pair_start` leaves in the map, above all after a refusal |
| `RestCalls` | the REST handlers as steps of the composed system, and what the phone makes of them |
| `PairingProgress` | termination, freedom from deadlock, and runs that reach or miss their end |
| `Projection` | many devices on one center, reduced to the single-device system |
| `Registry`, `DisplayActions` | bounded queues per device; display actions and their answers |
| `Fingerprint`, `Hkdf`, `PairingCode`, `DisplayToken`, `ToastXml`, `Template` | codecs and text transformations |
| `DeviceTable`, `NotificationTable` | the SQLite tables and their statements |
| `Heartbeat`, `HeartbeatExchange` | the miss counter; heartbeats and replies with their ids |

Code that updates objects in place is a class whose methods are proved against a function on
its view; the theorems are about those functions, their runs, and their composition. Clock
readings, fresh keys and ids, full queues, database refusals and failing file operations are
inputs, so each theorem holds for all of them. HMAC and SHA-256 are parameters of which only the
output length is known; an ECDH result enters as the code it leads to.

## What the code turns out to do

These are consequences of the code as it is. The member in brackets is the theorem or the run;
where it is a method, its contract says so.

- `pair_accept` and `pair_reject` always answer 409: the snapshot they read turns every unpaired
  session into a responder (`PostPairAccept`, `PostPairReject`).
- A pairing that the phone starts never completes on its own: the parked responder has no verdict
  and refuses the certificate (`NoPairingWithoutPairStart`). Comments in `ws_handler.rs` describe
  that path as complete.
- Whether a `pair_start` pairs does not depend on the center's own expiry check: a rejected session
  can still pair (`RejectedSessionStillPairs`). It does depend on the insertion, which comes after
  the send and can come too late or be lost (`LateInsertNeverPairs`, `InsertUnderSessionIsLost`). A code
  that nobody decides on, and a refusal that comes before the insertion, leave the session in the map
  (`AttemptLeavesSessionIff`).
- `Initiator::on_complete` asks for no earlier challenge, so a certificate from an older session
  pairs a newer one exactly when a `pair_start` came in between (`PairingSpendsItsSessionIff`,
  `StaleCertificatePairsNewSession`); and when the phone asked and the console agreed, the center
  can be paired while the phone never was (`CenterCanPairAlone`).
- Nothing ties an acceptance to a session: it is answered by whichever initiator is in the map. It
  pairs the session whose code the user saw exactly when no `pair_start` put another in place
  meanwhile (`AnswersAcceptedSessionIff`, `PhoneStoresAcceptedSessionIff`,
  `AcceptedSessionIsPairedIff`); with ordinary keys and everything in time, accepting an older code
  can pair a session whose code nobody accepted (`OldCodePairsNewSession`).
- Heartbeat replies are new envelopes, so the phone, which waits for its own id, misses every
  round and forces a reconnect every third (`MintedRepliesForceReconnects`);
  `HeartbeatController.kt` expects the same id.
- `render` encodes bytes outside ASCII a second time, which garbles the built-in Chinese texts
  (`RenderIsSubstitution`, `IdeographIsGarbled`).
- A `device.hello` with a known hardware id overwrites `paired` (`HelloUnpairsByHardwareOnly`); and
  its UPDATE is refused while child rows refer to the old device id, because no foreign key
  cascades updates (`UpsertRefusedIff`).
- `verify_pin` compares spellings: a pin in lower case parses but refuses its own certificate
  (`ParseablePinNeedsCanonicalSpelling`).
- Mark-all ignores the package filter and stops at 100000 (`MarkAllRead`); the dashboard total stops
  at 10000 (`Stats`).
- An empty HKDF salt is refused by the Java key specification (`HkdfSha256`). `docs/protocol-v1.md`
  gives 21 bytes for salt and info; both strings have 19 (`ConstantLengths`).

## Model

| member | source | states |
|---|---|---|
| `PairingSafety.PairingsArePaidFor` | crates/phonebridge-net/src/ws_handler.rs:811-885 | In every interleaving of REST calls, frames, users, losses and disconnects, the center stores a paired session no more often than the phone user accepted plus the console accepted, and no more often than the phone user accepted plus the phone requested; the phone pairs no more often than its user accepted |
| `PairingSafety.PhonePairsFirst` | android/app/src/main/kotlin/im/zyx/phonebridge/pairing/PairingMachine.kt:245-385 | The center pairs no more often than the phone but for certificates sent on the console's word, each of which takes a phone request and a console acceptance |
| `PairingOrigins.PairingHasItsPhonePairingIff` | android/app/src/main/kotlin/im/zyx/phonebridge/pairing/PairingMachine.kt:245-385 | In every run, each center pairing takes a phone certificate of its own, and the phone paired when sending it exactly if it was not sent on the console's word; the two kinds number the phone's pairings and the console's words |
| `PairingOrigins.PhoneFirstBudget` | crates/message-center/src/rest.rs:630-699 | In all runs with at most a phone requests and b console acceptances the phone pairs first, exactly if a or b is zero |
| `PairingSafety.PairedFingerprintsAreGenuine` | crates/phonebridge-net/src/ws_handler.rs:836-885 | A paired center holds the phone's long-term fingerprint; a paired phone holds the center's id and the fingerprint of an identity made by `pair_start`, the only one if there was one |
| `PairingSafety.EachPairingSpendsAPairStart` | crates/phonebridge-net/src/ws_handler.rs:811-885 | Over any run, pairings plus the session still in the map plus those still to be inserted never exceed the `pair_start` calls that sent their request |
| `PairingSafety.NoPairingWithoutPairStart` | crates/phonebridge-net/src/pairing.rs:398-404 | With no `pair_start`, nothing is ever paired on either side, and every session is a responder |
| `PairingOrigins.PairingSpendsItsSessionIff` | crates/phonebridge-net/src/pairing.rs:229-247 | For every pairing of every run with new identities: the session spent is the one whose fingerprint the phone stored when it sent the certificate, exactly if no `pair_start` put another session in place between that session's certificate being ready and the phone's being taken |
| `PairingAgreement.AnswersAcceptedSessionIff` | crates/phonebridge-net/src/ws_handler.rs:811-834 | In every run, the center answers an acceptance with the session whose code the user accepted, exactly if no `pair_start` put another session in place after that one |
| `PairingAgreement.PhoneStoresAcceptedSessionIff` | android/app/src/main/kotlin/im/zyx/phonebridge/pairing/PairingMachine.kt:182-291 | For every phone pairing of every run with new keys and identities: the fingerprint stored is that of the session whose code the user accepted, exactly if none was put in place after that session when the center answered |
| `PairingEndToEnd.AcceptedSessionIsPairedIff` | crates/phonebridge-net/src/ws_handler.rs:811-885 | For every center pairing on a certificate with which the phone paired, in every run with new keys and identities: the phone stored and the center spent the session whose code the user accepted, exactly if no `pair_start` put another in place between its insertion and the answer, nor between the answer and the taking of the certificate |
| `PairingSafety.RespondersStayBlank` | crates/phonebridge-net/src/ws_handler.rs:721-739 | Every responder in the map, or out of it between two locks, has no code and no verdict |
| `PairingSafety.PairedIsStable` | crates/phonebridge-net/src/ws_handler.rs:178-241 | A paired entry is changed by no step other than the insertion of `pair_start` and `remove_device` |
| `PairingSafety.RunKeepsLedger` | crates/phonebridge-net/src/ws_handler.rs:718-892 | The joint invariant: acceptances, certificates and confirmations in flight or half handled are each paid for, in every run from any state that satisfies it |
| `PairingSafety.RunKeepsProvenance` | crates/phonebridge-net/src/ws_handler.rs:718-892 | The joint invariant on whose certificate and fingerprint each session, message and phone state can hold |
| `PairingAttempt.AttemptPairsIff` | android/app/src/main/kotlin/im/zyx/phonebridge/pairing/PairingMachine.kt:123-291 | One `pair_start` from a quiet state whose phone shows no code, among accepts and refusals by the phone's user, deliveries, lock steps, heartbeats and hellos in any order: once nothing is in flight both sides are paired exactly if the user accepted a shown code in time, and the session was inserted before the center took the confirmation and not under another session about to be put back |
| `PairingRefusal.AttemptLeavesSessionIff` | android/app/src/main/kotlin/im/zyx/phonebridge/pairing/PairingMachine.kt:206-216 | In the same attempts, once nothing is in flight: unless the user accepted in time, the initiator is still in the map exactly if it was not inserted under another session, and the user did not refuse or the center heard the refusal before the insertion; so a refusal that finds the session takes it out |
| `PairingEdges.RejectedSessionStillPairs` | crates/phonebridge-net/src/ws_handler.rs:811-834 | A run in which the center rejects the challenge as expired, the phone reports failure, and then both sides pair |
| `PairingEdges.LateInsertNeverPairs` | crates/message-center/src/rest.rs:351-371 | A run with every time kept that never pairs, because sending comes before inserting |
| `PairingEdges.InsertUnderSessionIsLost` | crates/phonebridge-net/src/ws_handler.rs:774-885 | Whatever steps come before the session that is out of the map is put back, no frame meets one inserted meanwhile, and the put-back replaces it |
| `PairingEdges.OldCodePairsNewSession` | android/app/src/main/kotlin/im/zyx/phonebridge/pairing/PairingMachine.kt:182-204 | From every quiet state whose phone shows an unexpired code, with an ordinary key and everything in time, a run in which only that older code is accepted and the new session pairs |
| `PairingProgress.PairsIffInTime` | android/app/src/main/kotlin/im/zyx/phonebridge/pairing/PairingMachine.kt:123-291 | In the schedule that inserts at once and drains the queues before the user decides: both sides pair exactly if challenge and acceptance are within 30 seconds, otherwise the phone reports failure and the initiator stays |
| `PairingProgress.UsableCertificatePassesCenter` | crates/phonebridge-net/src/pairing.rs:229-247 | A certificate whose fingerprint the phone's validator takes is never refused by the center's parser |
| `PairingProgress.InternalStepDecreases` | crates/phonebridge-net/src/ws_handler.rs:718-892 | Each delivery, lock step or reply consumes something, sends or prepares at most one message of smaller rank, and decreases the measure |
| `PairingProgress.InternalRunsEnd` | android/app/src/main/kotlin/im/zyx/phonebridge/network/BridgeService.kt:188-215 | No run without user, REST or timer steps is longer than the measure of its first state |
| `PairingProgress.StuckIffQuiet` | crates/phonebridge-net/src/ws_handler.rs:718-892 | No deadlock: such steps run out exactly when nothing is in flight or half done |
| `PairingProgress.StaleCertificatePairsNewSession` | crates/phonebridge-net/src/pairing.rs:229-247 | A run in which one acceptance pairs the second of two sessions with the first session's certificate, because the initiator asks for no earlier challenge |
| `PairingProgress.CenterCanPairAlone` | crates/message-center/src/rest.rs:630-699 | A run in which the center is paired while the phone never was, so the condition of `PhonePairsFirst` cannot be dropped |
| `Projection.RunsProject` | crates/phonebridge-net/src/ws_handler.rs:127-241 | For every interleaving over many devices, one device's session, parked request and replies are those of a machine run on only its frames and calls |
| `Projection.EventIsLocal` | crates/phonebridge-net/src/ws_handler.rs:718-892 | One frame or call changes only the entries of its own device, as the single-device machine does |
| `Projection.RestCallsAreEvents` | crates/message-center/src/rest.rs:307-382 | The REST handlers act on the two maps as those events, whatever the registry holds |
| `Projection.FrameIsFineRun` | crates/phonebridge-net/src/ws_handler.rs:718-892 | Handling a frame without interruption is a run of the lock-level steps |
| `Projection.ActIsFineRun` | crates/phonebridge-net/src/ws_handler.rs:718-892 | A whole operation on the shared maps is a run of its device's lock-level steps there and nothing elsewhere |
| `Projection.MapsStepLocally` | crates/phonebridge-net/src/ws_handler.rs:127-241 | A lock step, written as lookups, insertions and removals on the shared maps, changes the stepping device's entry as its single-device machine does and no other |
| `Projection.WorldRunsProject` | crates/phonebridge-net/src/ws_handler.rs:127-241 | However the lock-level steps of any number of devices interleave on the shared maps, each device's share of the outcome is the run of its own steps |
| `Projection.EveryDeviceIsSafe` | crates/phonebridge-net/src/ws_handler.rs:811-885 | In every such run each device keeps all budgets, one `pair_start` per pairing, phone-first, and genuine fingerprints and ids on both sides |
| `WsHandler.PairingMap.Insert` | crates/phonebridge-net/src/ws_handler.rs:173-176 | The map gains or replaces one entry and owns no session twice |
| `WsHandler.PairingMap.Get` | crates/phonebridge-net/src/ws_handler.rs:179-182 | A snapshot returns a paired session as it is and any unpaired one as a blank responder for the nil device |
| `WsHandler.PairingMap.TakeUnpairedInitiator` | crates/phonebridge-net/src/ws_handler.rs:189-200 | Returns and removes exactly an initiator, otherwise leaves the map alone |
| `WsHandler.PairingMap.TakeUnpairedResponder` | crates/phonebridge-net/src/ws_handler.rs:204-215 | Returns and removes exactly a responder, otherwise leaves the map alone |
| `WsHandler.PendingIncomingMap.Remove` | crates/phonebridge-net/src/ws_handler.rs:145-147 | Returns and removes the parked request of one device |
| `Center.MessageCenter.Dispatch` | crates/phonebridge-net/src/ws_handler.rs:718-892 | One frame, on shared mutable sessions, changes the maps and answers as the frame specification says |
| `WsHandler.FrameDecides` | crates/phonebridge-net/src/ws_handler.rs:718-892 | A frame pairs its device exactly when a good certificate meets an initiator or a responder with a positive verdict; exactly when it drops the session, starts a responder, parks a request, and answers, and with what |
| `Center.MessageCenter.HandleFrame` | crates/phonebridge-net/src/ws_handler.rs:501-567 | A hello binds the device to the connection's channel before dispatch; no other frame touches the registry |
| `Center.MessageCenter.PostPairStart` | crates/message-center/src/rest.rs:307-382 | Sends first and inserts only after a successful send; each refusal leaves maps and queues alone |
| `Center.MessageCenter.PostPairAccept` | crates/message-center/src/rest.rs:409-492 | Always answers 409 and changes nothing |
| `Center.MessageCenter.PostPairReject` | crates/message-center/src/rest.rs:515-570 | Always answers 409 and changes nothing |
| `Center.MessageCenter.PostIncomingAccept` | crates/message-center/src/rest.rs:630-699 | Takes the parked request out, then sends `confirm(true)`; a failed send loses the request |
| `Center.MessageCenter.PostIncomingReject` | crates/message-center/src/rest.rs:714-767 | Takes the parked request out and sends `confirm(false)` at best effort |
| `Center.MessageCenter.RemoveDevice` | crates/message-center/src/rest.rs:221-238 | Drops session, registration and pin, then the device row; a refusing database keeps the row and answers 500 |
| `RestCalls.PairStartIsItsSteps` | crates/message-center/src/rest.rs:307-382 | Each answer of `pair_start` has its exact condition; maps, registry and queue change as in the two steps of the composed system, and OK means exactly one request at the end of the device's own queue |
| `RestCalls.IncomingAcceptIsItsStep` | crates/message-center/src/rest.rs:630-699 | The same for accepting: OK exactly if `confirm(true)` was queued |
| `RestCalls.IncomingRejectIsItsStep` | crates/message-center/src/rest.rs:714-767 | The same for rejecting: OK exactly if a request was parked, and `confirm(false)` is queued exactly if the device can be told |
| `RestCalls.RemoveDeviceIsItsStep` | crates/message-center/src/rest.rs:221-238 | The same for removal: the registration goes with the session, other devices keep theirs, nothing is sent |
| `RestCalls.PhoneHearsTheConsole` | android/app/src/main/kotlin/im/zyx/phonebridge/pairing/PairingMachine.kt:347-385 | A phone that takes the envelope the handler queued has failed after a rejection, and after an acceptance has answered with its certificate |
| `RestCalls.PhoneHearsPairStart` | android/app/src/main/kotlin/im/zyx/phonebridge/pairing/PairingMachine.kt:123-180 | A phone that takes the queued request shows a code for this center and for the session the handler put in the map |
| `Sessions.Initiator.OnChallenge` | crates/phonebridge-net/src/pairing.rs:151-183 | The challenge guards in their order, and the key and code kept |
| `Sessions.Responder.OnRequest` | crates/phonebridge-net/src/pairing.rs:301-321 | The request guards, and key, code and expiry set together |
| `Sessions.ChallengeAllOrNothing` | crates/phonebridge-net/src/pairing.rs:151-183 | A challenge is taken over, with its code and key, exactly when shape, expiry and key are good; a refused one leaves no trace, and the error names the first fault |
| `Sessions.CertificateTakenIff` | crates/phonebridge-net/src/pairing.rs:229-247 | A certificate is taken exactly if it has the PEM header and 32 hex pairs between colons (a plus sign may stand for a first digit); the errors tell the other cases apart |
| `Sessions.ResponderMeetsInitiator` | crates/phonebridge-net/src/pairing.rs:301-350 | A responder takes the initiator's request exactly on a good key agreement; the initiator takes the challenge exactly within 30 seconds and with a well-formed code; then both hold the same code |
| `Sessions.ResponderVerdict` | crates/phonebridge-net/src/pairing.rs:365-404 | A verdict takes a code, is sent as given, and decides whether a certificate can be taken |
| `Sessions.ErrorTextsDiffer` | crates/phonebridge-net/src/pairing.rs:42-74 | The text that a rejection carries tells the errors apart |
| `Sessions.ResponderNeedsRequestFirst` | crates/phonebridge-net/src/pairing.rs:301-404 | Over any calls on a fresh responder: key, code and expiry appear together, and no verdict or accepted certificate precedes them |
| `PairingMachine.PairingMachine.OnRequest` | android/app/src/main/kotlin/im/zyx/phonebridge/pairing/PairingMachine.kt:123-180 | Every branch of answering a request, with the new state, key and challenge |
| `PairingMachine.PairingMachine.AcceptByUser` | android/app/src/main/kotlin/im/zyx/phonebridge/pairing/PairingMachine.kt:182-204 | Accepts only a code that is shown and not expired |
| `PairingMachine.PairingMachine.OnAccept` | android/app/src/main/kotlin/im/zyx/phonebridge/pairing/PairingMachine.kt:218-234 | Answers `false` unless a code is shown and in time |
| `PairingMachine.PairingMachine.OnComplete` | android/app/src/main/kotlin/im/zyx/phonebridge/pairing/PairingMachine.kt:245-291 | Pairs exactly on a PEM header and a well-formed fingerprint, and replies with the own certificate |
| `PairingMachine.PairingMachine.Initiate` | android/app/src/main/kotlin/im/zyx/phonebridge/pairing/PairingMachine.kt:311-345 | Only from idle: fresh key, request, initiating state |
| `PairingMachine.PairingMachine.OnInitiatorConfirm` | android/app/src/main/kotlin/im/zyx/phonebridge/pairing/PairingMachine.kt:347-385 | Acts only while initiating: certificate on acceptance, failure on refusal |
| `PairingMachine.BridgeService.HandleIncoming` | android/app/src/main/kotlin/im/zyx/phonebridge/network/BridgeService.kt:188-215 | Routes each envelope to one machine call and queues its reply, dropped when 64 wait |
| `PairingMachine.PhoneDecides` | android/app/src/main/kotlin/im/zyx/phonebridge/pairing/PairingMachine.kt:123-385 | Exactly when the phone becomes paired, with whom, and which inputs end it; and when it accepts, refuses, challenges, requests and sends its certificate, loaded identity or not |
| `PairingMachine.PhoneStates` | android/app/src/main/kotlin/im/zyx/phonebridge/pairing/PairingMachine.kt:123-385 | Exactly when the phone shows a code, requests, waits, fails or is idle, what a shown code and its challenge contain, and which reason a refusal leaves |
| `PairingMachine.PhoneConserves` | android/app/src/main/kotlin/im/zyx/phonebridge/pairing/PairingMachine.kt:123-385 | Over any inputs: acceptances sent plus one while a code is shown never exceed challenges sent, certificates sent on the desktop's word plus one while initiating never exceed requests sent, and a paired phone holds a well-formed fingerprint |
| `PairingMachine.AcceptanceInTime` | android/app/src/main/kotlin/im/zyx/phonebridge/pairing/PairingMachine.kt:182-234 | Every acceptance leaves no later than the expiry of the latest challenge sent |
| `Registry.DeviceRegistry.TrySend` | crates/phonebridge-net/src/registry.rs:70-78 | Appends to the device's own channel, or names the reason and changes nothing |
| `Registry.SendRefusedIff` | crates/phonebridge-net/src/registry.rs:70-78 | Which refusal it is, exactly, and that only the end of the device's own channel changes |
| `Registry.ChannelsAreFifo` | crates/phonebridge-net/src/registry.rs:48-78 | In any run, whichever ids share a channel: taken then queued equals first queued then accepted, in order, within capacity |
| `Fingerprint.PrintLoop` | crates/phonebridge-crypto/src/fingerprint.rs:20-30 | The pushing loop prints two upper-case digits per byte between colons |
| `Fingerprint.DigitTable` | crates/phonebridge-crypto/src/fingerprint.rs:20-30 | The digits are those of the upper-case table, and are read back in either case |
| `Fingerprint.ParseLoop` | crates/phonebridge-crypto/src/fingerprint.rs:35-48 | The filling loop returns the bytes or the first error |
| `Fingerprint.ParseOfPrint` | crates/phonebridge-crypto/src/fingerprint.rs:20-48 | Parsing undoes printing on every digest |
| `Fingerprint.ValidatorIsImageOfPrinter` | android/app/src/main/kotlin/im/zyx/phonebridge/pairing/PairingMachine.kt:399-404 | The Kotlin validator takes exactly the strings the Rust formatter can print |
| `Fingerprint.PrintOfParse` | crates/phonebridge-crypto/src/fingerprint.rs:35-48 | Printing undoes parsing exactly on those strings |
| `Fingerprint.ParserLanguage` | crates/phonebridge-crypto/src/fingerprint.rs:35-48 | The parser's exact language: also lower case and a sign before one digit |
| `Fingerprint.ErrorNamesFirstBadPair` | crates/phonebridge-crypto/src/fingerprint.rs:35-48 | The error gives the wrong number of pairs, or the first bad pair and whether its length or a digit is wrong |
| `Fingerprint.AdmitsIff` | crates/phonebridge-net/src/tls_pinning.rs:54-73 | Over every store: admission exactly for a known device whose pin is the canonical spelling of the leaf's digest, and which refusal otherwise |
| `Fingerprint.PrintedPinAdmitsItsDigest` | crates/phonebridge-net/src/tls_pinning.rs:54-73 | A printed pin admits a leaf exactly if the digests are equal |
| `Fingerprint.ParseablePinNeedsCanonicalSpelling` | crates/phonebridge-net/src/tls_pinning.rs:54-73 | A pin the parser took admits its own certificate exactly if it is spelt canonically |
| `Hkdf.HkdfSha256` | android/core/src/main/kotlin/im/zyx/phonebridge/core/crypto/Hkdf.kt:18-43 | Succeeds exactly for lengths 1..8160 and a non-empty salt, with the output of section 2.3 of RFC 5869 |
| `Hkdf.ExpandInto` | android/core/src/main/kotlin/im/zyx/phonebridge/core/crypto/Hkdf.kt:25-42 | The in-place loop fills the buffer with the first bytes of T(1) then T(2) then … |
| `Hkdf.CounterCarriesOctet` | android/core/src/main/kotlin/im/zyx/phonebridge/core/crypto/Hkdf.kt:32-35 | The signed byte counter carries the octets 1..255 and is never 0 within the bound |
| `Hkdf.ShorterIsPrefix` | android/core/src/main/kotlin/im/zyx/phonebridge/core/crypto/Hkdf.kt:18-43 | Shorter outputs are prefixes of longer ones |
| `Hkdf.TwoBlocks` | android/core/src/main/kotlin/im/zyx/phonebridge/core/crypto/Hkdf.kt:18-43 | Up to 64 bytes written out: the salt keys the extraction, each block ends with its octet, the second begins with the first |
| `PairingCode.KotlinNumberIsBigEndian` | android/core/src/main/kotlin/im/zyx/phonebridge/core/crypto/PairingCode.kt:19-23 | Sign-extended bytes, masked, shifted and OR-ed, are the big-endian number below 2^32 |
| `PairingCode.CodesAgree` | crates/phonebridge-crypto/src/pairing_code.rs:37-44 | Both sides print the same four digits, whose value is that number modulo 10000 |
| `PairingCode.DeriveKotlin` | android/core/src/main/kotlin/im/zyx/phonebridge/core/crypto/PairingCode.kt:11-26 | For every 32-byte secret the Kotlin derivation gives the Rust code; any other length is refused |
| `PairingCode.DerivedCodeIsAccepted` | crates/phonebridge-net/src/pairing.rs:162-165 | A derived code always passes the initiator's shape check |
| `PairingCode.CodeOfFirstBlock` | android/core/src/main/kotlin/im/zyx/phonebridge/core/crypto/PairingCode.kt:11-26 | The code as the first four bytes of one written-out HMAC block, with the literal salt and info |
| `PairingCode.ConstantLengths` | android/core/src/main/kotlin/im/zyx/phonebridge/core/crypto/PairingCodeSpec.kt:18-24 | Salt and info are 19 bytes each |
| `DeviceTable.Devices.UpsertDevice` | crates/phonebridge-storage/src/pool.rs:97-160 | Two-key upsert: the hardware id first, then insert or merge on the device id, with the database's refusals |
| `DeviceTable.UpsertIsLocal` | crates/phonebridge-storage/src/pool.rs:97-160 | An upsert adds at most one row, rewrites at most one, keeps every primary key, and on success a row carries the new identity; on refusal nothing changes |
| `DeviceTable.RunKeepsConsistent` | crates/phonebridge-storage/src/pool.rs:97-200 | After any run, at most one row per device id and per non-null hardware id, the latter without a constraint |
| `DeviceTable.HandsetKeepsItsRow` | crates/phonebridge-storage/src/pool.rs:97-200 | A handset keeps its row through any run exactly if no call removes its current device id or repeats it under a hardware id unknown to the table |
| `DeviceTable.OneHandsetAddsOneRow` | crates/phonebridge-storage/src/pool.rs:77-96 | However often one handset is wiped and says hello, it adds at most one row |
| `DeviceTable.UpsertRefusedIff` | crates/phonebridge-storage/src/pool.rs:97-133 | The upsert of a known handset is refused exactly if its new device id belongs to another row or child rows refer to the old one |
| `DeviceTable.HelloUnpairsByHardwareOnly` | crates/message-center/src/center_sink.rs:306-322 | A hello clears a row's paired flag exactly if it succeeds and names that row by hardware id |
| `DeviceTable.PairedFollowsHardware` | crates/phonebridge-storage/src/pool.rs:97-160 | The paired flag of every row after an upsert: the caller's on a row named by hardware id and on a new one, else its own |
| `NotificationTable.Notifications.ListNotifications` | crates/phonebridge-storage/src/pool.rs:282-338 | For all eight filter combinations the chosen statement and its binds fit, and give newest first the newest matching rows up to the limit |
| `NotificationTable.Notifications.DismissNotification` | crates/phonebridge-storage/src/pool.rs:359-375 | Marks the row and returns its id exactly if there is one |
| `NotificationTable.Notifications.CountUnread` | crates/phonebridge-storage/src/pool.rs:378-395 | The number of unread rows of one device or of all |
| `NotificationTable.Notifications.CountByPackage` | crates/phonebridge-storage/src/pool.rs:398-419 | One group per package in use, largest first, with its number of rows; the counts sum to the rows |
| `NotificationTable.Notifications.Stats` | crates/message-center/src/rest.rs:850-885 | The listed total equals the sum of the package counts exactly up to 10000 rows |
| `NotificationTable.Notifications.MarkAllRead` | crates/message-center/src/rest.rs:992-1010 | Leaves max(0, unread - 100000) unread of the device or of all, none newer than a marked one, and changes nothing else; a package filter is ignored |
| `NotificationTable.TableIsHistory` | crates/phonebridge-storage/src/pool.rs:258-375 | After any run a row exists exactly if an insert of its key still stands, is what that insert wrote, and is read exactly if it came read or a mark or dismissal followed |
| `NotificationTable.RunKeysDiffer` | crates/phonebridge-storage/src/pool.rs:258-375 | At most one row per device and notification id after any run |
| `DisplayActions.DisplayEndpoint.HandleAction` | crates/message-center/src/display_ws.rs:222-256 | One action: offline notice and failure, or one database effect, or one envelope of the action's own kind and content at the end of its device's queue; then one result |
| `DisplayActions.OneResultPerAction` | crates/message-center/src/display_ws.rs:222-534 | For any number of displays interleaved with any registry calls: results answer actions one for one, in order, with their ids, and queued envelopes are one per ok result other than a read, in order, for the action's device and of its kind and content |
| `DisplayActions.QueuesMatchLog` | crates/phonebridge-net/src/registry.rs:70-78 | Every queued envelope went to the channel its device was registered under at that moment, and the queues are the run of those pushes and the other tasks' calls |
| `DisplayActions.PerformDecides` | crates/message-center/src/display_ws.rs:222-456 | When an action succeeds, exactly, and which reason it fails for; the network changes by an order of the action's kind, with its recipient, text or id, and by nothing else |
| `DisplayActions.CallIsRun` | crates/message-center/src/display_ws.rs:222-256 | Without interleaving, the three steps of an action are the handler's call |
| `DisplayToken.HexEncode` | crates/message-center/src/display_auth.rs:308-316 | The loop prints two lower-case digits per byte |
| `DisplayToken.DigitTable` | crates/message-center/src/display_auth.rs:308-316 | The digits are those of the lower-case table |
| `DisplayToken.BytesOfHex` | crates/message-center/src/display_auth.rs:308-316 | The printed token can be read back |
| `DisplayToken.HexIsInjective` | crates/message-center/src/display_auth.rs:308-316 | Different bytes never print alike |
| `DisplayToken.PrintedIsAccepted` | crates/message-center/src/display_auth.rs:296-306 | A generated token passes the check of a loaded one, untouched by trimming |
| `DisplayToken.Verify` | crates/message-center/src/display_auth.rs:131-147 | The XOR fold is true exactly for equal strings |
| `DisplayToken.TokenStore.WriteTokenFile` | crates/message-center/src/display_auth.rs:318-340 | Wherever the write fails, the token file is untouched; on success it holds the content |
| `DisplayToken.TokenStore.LoadOrGenerate` | crates/message-center/src/display_auth.rs:73-114 | Succeeds exactly on an acceptable file or a completed first write of the printed random bytes, returns the token, and never replaces an existing file; the disk after any fault |
| `DisplayToken.LoadedIff` | crates/message-center/src/display_auth.rs:77-91 | A file is accepted exactly if it is one token between white space, and that is what is loaded; white space alone is reported as empty |
| `DisplayToken.ValidIffPrinted` | crates/message-center/src/display_auth.rs:304-306 | The shape check admits exactly the prints of 32 bytes, in either case |
| `DisplayToken.TokenStore.Rotate` | crates/message-center/src/display_auth.rs:151-158 | A failed rotation leaves file and memory as they were; a successful one changes both to the same acceptable token |
| `DisplayToken.CrashSafe` | crates/message-center/src/display_auth.rs:73-158 | With partial writes, failures and crashes anywhere: the file is absent only before its first creation and otherwise loadable, and a running process holds what it says |
| `DisplayToken.MethodsAreRuns` | crates/message-center/src/display_auth.rs:73-158 | A rotation or first start meeting any fault is a run of the crash steps that ends with the disk and memory the methods promise |
| `DisplayToken.TemporaryCanBeTorn` | crates/message-center/src/display_auth.rs:318-340 | The temporary file itself can be left torn, so the rename is needed |
| `ToastXml.PassesAreOneMap` | DeskDisplay/src/backends/windows.rs:141-146 | Four whole-string replacements equal one per-character map |
| `ToastXml.EscAppend` | DeskDisplay/src/backends/windows.rs:141-146 | Escaping distributes over concatenation |
| `ToastXml.EscapedIsImage` | DeskDisplay/src/backends/windows.rs:141-146 | Outputs have no raw markup character and every ampersand heads one of the four entities of sections 2.4 and 4.6 of XML 1.0; decoding undoes escaping; and those texts are exactly the outputs |
| `ToastXml.BuildToastXml` | DeskDisplay/src/backends/windows.rs:136-177 | The appending loop builds the markup, with the actions element only when there are actions |
| `ToastXml.MarkupIgnoresText` | DeskDisplay/src/backends/windows.rs:136-177 | No title, body or label can change the sequence of markup characters |
| `ToastXml.TextsSurvive` | DeskDisplay/src/backends/windows.rs:147-176 | A reader that counts markup characters gets title, body and every action label back |
| `ToastXml.KeyIsReadIff` | DeskDisplay/src/backends/windows.rs:147-156 | The reader gets an action's URI with the whole key exactly if the key has no markup character, since keys are not escaped |
| `Template.Slice` | DeskDisplay/src/i18n.rs:179-181 | Slicing is allowed at character boundaries only, and gives text |
| `Template.Render` | DeskDisplay/src/i18n.rs:173-196 | The index loop ends, takes only such slices, emits the template's pieces once each, and makes text from text |
| `Template.ParseIsUnique` | DeskDisplay/src/i18n.rs:173-196 | The pieces are the one way to write the template in which a placeholder ends at its first closing brace and an opening brace stays text only if none follows |
| `Template.LookupFindsFirst` | DeskDisplay/src/i18n.rs:181-183 | A variable is found exactly if some pair has its name, and the value is that of the first |
| `Template.RenderIsSubstitution` | DeskDisplay/src/i18n.rs:171-196 | Rendering replaces each placeholder by the value of the first variable of its name and keeps all else, exactly if the text outside placeholders is ASCII |
| `Template.UnmatchedTemplateIsKept` | DeskDisplay/src/i18n.rs:171-196 | With no matching variable the template comes back exactly under the same condition |
| `Template.IdeographIsGarbled` | DeskDisplay/src/i18n.rs:160 | The first ideograph of the built-in Chinese SMS title comes out as three other characters |
| `Heartbeat.HeartbeatController.RunLoop` | android/app/src/main/kotlin/im/zyx/phonebridge/keepalive/HeartbeatController.kt:67-133 | The miss count is the current run modulo three, and forced reconnects are the sum over maximal runs of their length divided by three |
| `Heartbeat.RoundEffect` | android/app/src/main/kotlin/im/zyx/phonebridge/keepalive/HeartbeatController.kt:67-133 | A miss lengthens the last run and every third one reconnects; an echo closes it |
| `HeartbeatExchange.MintedRepliesForceReconnects` | crates/phonebridge-net/src/ws_handler.rs:740-745 | In every run of phone and center whose envelopes get new ids, every heartbeat round that ended is a miss, and every third forces a reconnect |
| `HeartbeatExchange.ReplyArrivesAndIsMissed` | android/app/src/main/kotlin/im/zyx/phonebridge/keepalive/HeartbeatController.kt:80-84 | A round can receive the center's reply and still be a miss |

## Left out

- Cryptography: ECDH, X.509, base64, the random generator and HMAC itself; whether a wire key decodes is a flag on it.
- TLS, sockets, discovery, routing, JSON: a payload that does not parse is `None`.
- Names carried in messages, the name of a parked request, and the numbers and library messages interpolated into error texts.
- Ping and pong, binary frames, and the registry after a read error or with two live connections for one id: one live connection per device is assumed by the composed system, where its frames are handled one at a time.
- `PairingSystem` treats `incoming_accept` and `incoming_reject` as one step each; `pair_start` is split between send and insert, and frame handling at every lock.
- The channel capacities 32 and 64 are in the class models; in the composed system any send may find its queue full.
- PairingAttempt.AttemptPairsIff: excludes losses and full queues, a phone reset (which undoes the phone's half of a finished pairing), a phone request with the console's acceptance or rejection of it, removal of the device, a disconnect, a second `pair_start`, and a code already on display at the start, for which `OldCodePairsNewSession` gives a run. `AcceptedSessionIsPairedIff` covers the runs with all of these.
- PairingRefusal.AttemptLeavesSessionIff: makes no claim on an acceptance in time that the center took before the insertion, where an older session may answer it and its certificate may then spend the new one.
- PairingProgress.PairsIffInTime: one schedule only; `AttemptPairsIff` covers the others.
- The order SQLite gives rows with equal `posted_at` or equal counts: the model takes table order, and no theorem depends on it.
- Other tables, migrations of old data, and database errors other than constraint violations; the SMS and call listings, which repeat the pattern of the notification listing with fewer filters.
- DeviceTable.Devices.UpsertDevice: which ids child tables refer to is an input, so nothing is claimed about rows of other tables after a device id changes.
- DisplayActions.DisplayEndpoint.HandleAction: does not model the rows a display read or dismiss touches, because the code looks them up by the envelope id rather than the notification id.
- Building an envelope is taken to succeed; the bus delivers events to subscribers outside the model.
- DisplayToken.CrashSafe: covers process crashes around an atomic rename, for one process; power loss before the data reaches the disk and two processes sharing the temporary file are not modelled.
- DisplayToken.TokenStore.LoadOrGenerate: a file that is not valid UTF-8 counts as unreadable.
- Template.Render: well-formed text is lead bytes with their continuation bytes, which also admits overlong forms.
- Heartbeat.HeartbeatController.RunLoop: an echo that arrives outside the waiting window is not seen; the waits and delays themselves are not modelled.
- User interfaces, translations, the noise filter, backoff, the recent-notification buffer and configuration: each is one expression or table with no property beyond its definition.
