# TulongLink: the relay, its messages, the upload pipeline and the server, as verified models

TulongLink carries emergency reports between devices without Internet access. Devices that meet
exchange the messages the other one lacks, any device that reaches the Internet uploads what it
holds, and the server deduplicates, tracks each incident's status and keeps an audit log. This
project models that logic in Dafny and proves what the system is for.

- **A session between two devices** (`Handshake`, `Session`, `Pair`, `Convergence`, `Outcomes`). One run of
  `runSync` is a machine whose moves are the stretches of code between two awaits, with a send loop
  and a receive loop that move independently. Two of them and two queues form the pair. There is no
  end-of-transfer frame: both sides compute from the two summaries how many messages will come. The
  pair never deadlocks, always ends, and always ends with the same stores, under every interleaving;
  and what a run reports, clean, interrupted or refused, is exactly what happened.
- **Sessions that are cut, disturbed, or with a peer of any kind** (`Resumption`, `Leftovers`,
  `Vanishing`, `AnyPeer`, `Racing`). Cut sessions followed by a complete one are equivalent to one
  session, even while a receive loop of a cut session lives on beside the next session. The exact
  condition for a session to hang when someone else changes a store is given. Against a peer that
  sends anything, a device loses nothing and admits only what validates. When several sessions share
  one store, a message is reported twice exactly when its test overlapped an unsaved acceptance, or a
  prune dropped it in between.
- **The code that changes state** (`SyncRun`, `InMemoryRelayStore`, `SimulatedTransport`, `Gateway`).
  Classes and loops, each proved to be the matching move or function of the models.
- **The mesh** (`Mesh`). Any number of devices that create messages, meet, upload and see time pass. A
  message is on a device exactly when a time-ordered path of meetings leads there, each of them complete
  or cut after it let the message through.
- **Integrity** (`CanonicalJson`, `Framing`, `Integrity`, `Base64Url`). The canonical payload text, the
  signed framing, the validation chain and the text encoding of keys, over an ideal hash and ideal
  signatures.
- **The upload pipeline** (`Upload`, `Provenance`, `SyncQueue`). A device database that any number of
  pages share, a network that loses and delays requests and responses, failing local commits, and the
  deduplicating server. No id is lost or falsely claimed, every stored record is one the server held, and
  it is said exactly when a report's own content is what the server has.
- **The server** (`Incidents`, `IncidentController`, `OtpSpec`, `OtpProvider`, `AuthSpec`,
  `AuthController`). Incident status against its audit log, one-time passwords against the history of
  calls, device binding and revocation against token lifetimes.

`Messages` and `StoreSpec` hold the wire types and the insertion-ordered collections all of these
share. What comes from outside is a parameter: how a date text is read and whether a message passes
the checks (`Env`), hashing and signatures (`Crypto`), which uploads resolve (`ok`), the clock, random
codes and ids. `Integrity.ValidationIsAcceptance` ties `Env.checks` to the real validation chain.

Where the code and its documentation differ, the code is modelled:

- A comment calls the `hasMessage` test the enforcement point against a second connection racing
  this one. Between the test and the save another session can accept the same message.
  `Racing.ReportedTwiceExactly` says when two sessions take one message on: exactly when one accepts it
  while another has accepted it and not yet saved it, or after another's saved entry was pruned. One
  entry per id holds always (`AnyPeer.OneEntryPerId`).
- A comment calls the answer to a resend a no-op success. The code takes any report under a known id for
  a resend, whatever its content and whoever sent it. `Provenance.OwnReportStoredExactly` says what stays
  true: the server has a device's own report under its id if and only if no other report under that id
  was admitted before. `Provenance.ReportLost` is a run in which the report is dequeued, shown as
  received, and nowhere any more.
- A comment says that residents see only their own reports and staff their own community's. That holds of
  every request on an incident (`Incidents.AnswersWithinView`). A creation under a known id is answered
  with the incident as it is: `Incidents.UnseenRecordExactly` says that this is the only exception, and
  `Incidents.ResendShowsRecord` is an instance.
- A comment says that the signed text keeps a signature from being moved to another message id or a
  longer lifetime. The text joins its parts with `|`, which the schema allows in an incident id.
  Most other readings of a text with a `|` fail the hash check. `Integrity.SignatureBindsExactly` gives
  the exact condition: some part of a built id but its first, or of a built expiry but its last, is the
  hash of a payload that passes the schema. `Integrity.SignatureMoves` is such an input.
- A comment says that rotating a refresh token makes the old one stop working. Nothing is blocked:
  `AuthSpec.RefreshTwice` uses a token a second time, and `AuthSpec.UsedRefreshTokenLives` says that a
  used token is accepted exactly until it expires or its device is revoked.

## Model

| member | source | states |
|---|---|---|
| `Pair.NeverStuck` | packages/relay/src/handshake.ts:46-120 | deadlock freedom: in every reachable state of an initiator and a responder joined by two queues, if the connection holds and a run is unfinished, some loop can move |
| `Pair.PlayIsBounded` | packages/relay/src/handshake.ts:86-118 | termination: every schedule, failures included, takes at most as many turns as sends, completions, receives, saves and reports remain |
| `Pair.MoveShrinks` | packages/relay/src/handshake.ts:86-118 | each single move strictly lowers what remains, which is never negative |
| `Pair.PlayUnbroken` | packages/relay/src/handshake.ts:52-73 | without failures of the connection no run ever throws: no frame of an honest peer has an unexpected type |
| `Pair.OpeningInv` | packages/relay/src/handshake.ts:35-44 | the invariant of a session holds when it opens, for any two stores with one entry per id and any two clocks |
| `Pair.TurnInv` | packages/relay/src/handshake.ts:46-118 | each turn of either side keeps the invariant: both sides' counters, stores, lists and summaries, and the queues as stretches of the senders' scripts |
| `Pair.PlayInv` | packages/relay/src/handshake.ts:46-123 | the same over whole schedules, cut or not |
| `Session.PlanIsSound` | packages/relay/src/messageSummary.ts:10-29 | the two diffs of two live stores name exactly the messages each side lacks, free of repetitions and new to the store that will get them |
| `Session.EmitInv` | packages/relay/src/handshake.ts:47-90 | the frame a side hands over is always the next one of its script, with the message its id named when the summary was built |
| `Session.TakeInv` | packages/relay/src/handshake.ts:52-114 | reading the next frame of an honest peer keeps the run on plan and brings no loop down |
| `Session.QuietInv` | packages/relay/src/handshake.ts:88-111 | saves, reports and failures keep the run on plan; a message to be sent is never missing from an undisturbed store |
| `Convergence.SessionConverges` | packages/relay/src/handshake.ts:60-120 | every failure-free schedule that has come to rest ends with both runs finished, both queues empty, exact reports on both sides and both stores merged, whatever the interleaving |
| `Convergence.CompleteExists` | packages/relay/src/handshake.ts:46-120 | every failure-free schedule can be continued to such an end |
| `Convergence.MergedMembers` | packages/relay/src/handshake.ts:78-116 | a merged store is the own live messages in place, then exactly the peer's live messages that were lacking and pass the checks; all of them with an expiry that is no date or lies after the own clock |
| `Convergence.MergedDistinct` | packages/relay/src/handshake.ts:106-110 | a merged store has one entry per id |
| `Convergence.SameIds` | packages/relay/src/handshake.ts:60-116 | with one clock and messages that pass the checks, both sides end with the union of the two live id sets |
| `Convergence.CutOrder` | packages/relay/src/handshake.ts:86-123 | in a session cut anywhere, in both directions: reported sends are a prefix of what was to be sent, the reader dealt with a prefix of it, in order, each once, and is ahead of the report by at most one |
| `Convergence.CutIsPartial` | packages/relay/src/handshake.ts:80-123 | a cut leaves each store untouched, or pruned with a prefix of the news |
| `Outcomes.ReportExactly` | packages/relay/src/handshake.ts:118-123 | for every schedule, failures included, and both sides: once a send or receive of a side has failed its outcome is settled, interrupted, with the lists of CutOrder; otherwise a settled outcome is clean, everything was delivered and the stores are merged |
| `Outcomes.ReportWithAnyPeer` | packages/relay/src/handshake.ts:52-73 | with any peer: refused with empty lists if and only if a hello of a version other than 1 was read; otherwise interrupted if and only if something threw, where reading a frame of another type than the role expects throws; otherwise clean if and only if both loops dealt with all of the diff; else not settled |
| `Resumption.ResumptionEquivalence` | packages/relay/src/handshake.ts:80-123 | any number of sessions, cut anywhere and opened by either device, and then a complete one leave both stores as a single complete session does: same entries, same order |
| `Leftovers.ResumedBesideLeftover` | packages/relay/src/handshake.ts:95-123 | when the receive loop of a cut session lives on beside the next session: whatever both loops do and in whatever order, once the next session's loop has come to its end, and ever after, the store is what one complete session leaves, same entries, same order |
| `Leftovers.LeftoversStayInLine` | packages/relay/src/handshake.ts:95-118 | any number of receive loops racing on one store, each with a stretch of the same news: the store always is the own live messages and a prefix of the valid news in the peer's order |
| `Resumption.AttemptMerges` | packages/relay/src/handshake.ts:80-123 | one attempt changes nothing about what a complete session would leave |
| `Resumption.AttemptGains` | packages/relay/src/handshake.ts:86-116 | an attempt lowers the count of valid messages a device lacks by exactly what its store gained |
| `Resumption.AttemptReports` | packages/relay/src/handshake.ts:110-122 | that gain is the length of the reported list, but for one message saved and not yet reported |
| `Vanishing.StallsExactlyWhenSkipped` | packages/relay/src/handshake.ts:86-118 | whoever changes the two stores and when, a session at rest with the connection up is finished on a side if and only if the other side skipped no message; each skip leaves the reader one frame short |
| `Vanishing.RunLinked` | packages/relay/src/handshake.ts:46-118 | under such changes still no frame of an unexpected type arrives, and every frame due was skipped, is on the wire, or was read |
| `Vanishing.VanishedMessageStalls` | packages/relay/src/handshake.ts:87-97 | a concrete session that hangs: its one message goes away after the summaries; the sender reports a clean end and the reader waits for ever |
| `AnyPeer.SafeAgainstAnyPeer` | packages/relay/src/handshake.ts:46-123 | whatever frames a peer sends and wherever the connection fails, unexpired entries keep place and value, additions are new, distinct and valid, reports are those of the additions, and reads are counted |
| `AnyPeer.SessionIsSafe` | packages/relay/src/handshake.ts:95-116 | the same from the start of a session: at most as many reads as asked for, and the report equal to the additions when no save is pending |
| `AnyPeer.OneEntryPerId` | packages/relay/src/handshake.ts:101-111 | any number of sessions racing on one store, with any peers: never two entries for an id, and nothing enters unvalidated |
| `Racing.ReportedTwiceExactly` | packages/relay/src/handshake.ts:101-111 | over any run of any number of sessions on one store, with any peers: two sessions take on an id nobody had touched if and only if one accepted it while another had accepted and not yet saved it, or after another had saved it and a prune had dropped it; and once none is in the middle of it, two report it if and only if that happened |
| `Racing.RetakenWasDropped` | packages/relay/src/handshake.ts:106-110 | an id that was saved is accepted again by another session only after a prune dropped its entry |
| `Racing.ClaimsLast` | packages/relay/src/handshake.ts:108-111 | a session that took a message on keeps it and reports it once it is no longer in the middle of it, so the sessions that overlapped are the ones that report |
| `Racing.StepClaims` | packages/relay/src/handshake.ts:96-111 | a session takes an id on exactly by reading a valid message with it while the store lacks it |
| `Racing.BothReport` | packages/relay/src/handshake.ts:101-111 | an instance: two sessions that both test an id before either saves both store and report the message |
| `Racing.FirstReports` | packages/relay/src/handshake.ts:106-111 | an instance: when one saves before the other tests, the other reads its frame and drops it |
| `SyncRun.Run.constructor` | packages/relay/src/handshake.ts:35-44 | a run starts as the machine does |
| `SyncRun.Run.SendHello` | packages/relay/src/handshake.ts:47-50 | is the machine's Emit of the hello |
| `SyncRun.Run.ReceiveHello` | packages/relay/src/handshake.ts:52-58 | is the machine's Take: throw, refuse, or go on |
| `SyncRun.Run.Summarise` | packages/relay/src/handshake.ts:60 | is the machine's Prune, and prunes the store it is given |
| `SyncRun.Run.SendSummary` | packages/relay/src/handshake.ts:61-78 | is the machine's Emit of the summary in both roles; the responder's diff follows |
| `SyncRun.Run.ReceiveSummary` | packages/relay/src/handshake.ts:64-78 | is the machine's Take of the peer's summary in both roles |
| `SyncRun.Run.SendNext` | packages/relay/src/handshake.ts:86-90 | is the machine's Emit when the message is found and its Skip when it is not |
| `SyncRun.Run.SendCompleted` | packages/relay/src/handshake.ts:91 | is the machine's RecordSent |
| `SyncRun.Run.ReceiveNext` | packages/relay/src/handshake.ts:95-114 | is the machine's Take of a transfer frame: wrong type, known id, accepted, rejected |
| `SyncRun.Run.SaveAccepted` | packages/relay/src/handshake.ts:109-110 | is the machine's Save, on the shared store |
| `SyncRun.Run.ReportStored` | packages/relay/src/handshake.ts:111 | is the machine's RecordStored |
| `SyncRun.Run.Settle` | packages/relay/src/handshake.ts:57-123 | the three returns: refused with empty lists, interrupted with what was done by then, or clean after both loops came to their end |
| `SyncRun.Run.SendFails` | packages/relay/src/handshake.ts:118-123 | a throw in the send loop leaves the receive loop running, before the loops it ends the run; the outcome is interrupted, with what was done by then |
| `SyncRun.Run.ReceiveFails` | packages/relay/src/handshake.ts:118-123 | likewise for the receive loop |
| `SyncRun.BuildMessageSummary` | packages/relay/src/messageSummary.ts:10-13 | prunes, then lists exactly the live ids in order |
| `SyncRun.DiffIds` | packages/relay/src/messageSummary.ts:22-29 | computes both halves of the diff |
| `SyncRun.FilterUnknown` | packages/relay/src/messageSummary.ts:26-27 | keeps, in order, the known ids the other side does not name |
| `Handshake.WithoutIds` | packages/relay/src/messageSummary.ts:22-29 | filtering a store's ids lists exactly the messages the other store lacks |
| `StoreSpec.PutLaw` | packages/relay/src/inMemoryRelayStore.ts:17-19 | saving keeps one entry per id, every other entry, and the place of a known id |
| `InMemoryRelayStore.RelayStore.constructor` | packages/relay/src/inMemoryRelayStore.ts:6-8 | a seed without repeated ids is stored as it is, nothing is marked uploaded |
| `InMemoryRelayStore.RelayStore.HasMessage` | packages/relay/src/inMemoryRelayStore.ts:11-13 | true exactly when an entry has the id |
| `InMemoryRelayStore.RelayStore.GetMessage` | packages/relay/src/inMemoryRelayStore.ts:14-16 | the entry with the id, exactly when there is one |
| `InMemoryRelayStore.RelayStore.SaveMessage` | packages/relay/src/inMemoryRelayStore.ts:17-19 | sets the entry, as PutLaw describes, and no upload mark |
| `InMemoryRelayStore.RelayStore.ListKnownIds` | packages/relay/src/inMemoryRelayStore.ts:20-22 | the ids in insertion order |
| `InMemoryRelayStore.RelayStore.PruneExpired` | packages/relay/src/inMemoryRelayStore.ts:23-32 | deleting while walking removes exactly the expired entries and their marks, keeps the order of the rest, and returns the removed ids in order; an entry stays if and only if its expiry is no date or lies after `now` |
| `InMemoryRelayStore.RelayStore.MarkUploaded` | packages/relay/src/inMemoryRelayStore.ts:34-36 | marks the id and touches no entry |
| `InMemoryRelayStore.RelayStore.IsUploaded` | packages/relay/src/inMemoryRelayStore.ts:37-39 | whether the id is marked |
| `RelayStates.PrunedLaw` | packages/relay/src/inMemoryRelayStore.ts:23-32 | marks stay within the stored ids, and after a prune exactly the marked ids still stored are marked |
| `SimulatedTransport.ChannelPairsByIndex` | packages/relay/src/simulatedTransport.ts:5-20 | after any interleaving of push and next, the k-th next holds exactly the k-th pushed item, the surplus waits in order, and never both items and waiters |
| `SimulatedTransport.StepPairs` | packages/relay/src/simulatedTransport.ts:9-18 | one push or next keeps that pairing |
| `SimulatedTransport.Channel.Push` | packages/relay/src/simulatedTransport.ts:9-13 | hands the item to the oldest waiter or queues it: the next state of the history |
| `SimulatedTransport.Channel.Next` | packages/relay/src/simulatedTransport.ts:14-18 | takes the oldest item or waits: the next state of the history |
| `Gateway.RunGatewayUpload` | packages/relay/src/gateway.ts:27-53 | the loop's final store and two lists, for every pattern of resolving uploads, are those PassLaw is about |
| `GatewaySpec.PassLaw` | packages/relay/src/gateway.ts:32-52 | a pass keeps exactly the entries whose expiry is no date or lies after `now`; each unmarked one is in exactly one list, exactly the uploaded ones get marked, failed ones and no others stay pending, and what is offered to peers is what a prune leaves |
| `Mesh.ExactDelivery` | packages/relay/src/handshake.ts:78-118 | over any run of creations, sessions, uploads and ticks with unique ids and a clock that never goes back, an unexpired message that passes the checks is on a device if and only if a time-ordered path leads there from a creator, of sessions that were complete or were cut after they let the message through |
| `Mesh.CarriersStore` | packages/relay/src/handshake.ts:78-118 | the same against the set of devices the events alone say it reached |
| `Mesh.MeetIsSession` | packages/relay/src/handshake.ts:35-124 | a meeting that lets everything through is what every complete session between the two stores leaves, on both sides |
| `Mesh.CutIsMeeting` | packages/relay/src/handshake.ts:80-123 | every session, wherever it was cut, is a meeting of some extent on each side, and a side's store and marks were pruned exactly when it had come to its summary |
| `Mesh.AfterInv` | packages/relay/src/inMemoryRelayStore.ts:6-41 | every device reachable through complete and cut sessions, creations, uploads and ticks has one entry per id, marks only stored ids, and stores only created messages |
| `Mesh.UploadedOnce` | packages/relay/src/gateway.ts:32-52 | over any such run, with sessions cut anywhere, no device uploads a message twice, although a prune drops the mark |
| `Mesh.DeliveredToServer` | packages/relay/src/gateway.ts:37-50 | when a path leads to a gateway whose upload resolves, the message was uploaded from there exactly once |
| `CanonicalJson.CanonicalForm` | packages/relay/src/message.ts:13-18 | two payloads have the same canonical text if and only if they have the same members, in any key order |
| `CanonicalJson.StringifyReads` | packages/relay/src/message.ts:13-18 | the canonical text can be parsed back to the same members in sorted order |
| `CanonicalJson.EscapeReads` | packages/relay/src/message.ts:16 | reading a JSON string, escaped as in section 7 of RFC 8259, gives it back, whatever text follows |
| `CanonicalJson.KeysAscend` | packages/relay/src/message.ts:14-15 | of any two sorted keys the earlier one, in UTF-16 code units with surrogate pairs above U+FFFF, is a proper prefix of the later or has the smaller number where they first differ |
| `CanonicalJson.SortLaw` | packages/relay/src/message.ts:14-15 | sorting keeps exactly the entries, and their keys are in the model's order, which KeysAscend describes |
| `CanonicalJson.EscapesAreShortest` | packages/relay/src/message.ts:16 | two characters for a quote, a backslash and the five control characters with a letter of their own, six with lower-case digits for the other control characters, one for all else |
| `CanonicalJson.PlainStaysPlain` | packages/relay/src/message.ts:16 | text without quotes, backslashes and control characters is printed as it is |
| `CanonicalJson.SortedIsUnique` | packages/relay/src/message.ts:14-15 | a set of entries has one sorted arrangement |
| `Framing.FramingIsUnique` | packages/relay/src/message.ts:35-37 | the signed text names one triple if and only if no part of the triple contains a bar |
| `Framing.PayloadParts` | packages/relay/src/message.ts:36 | between its bars the signed text has the parts of the id, then of the hash, then of the expiry |
| `Framing.BarFreeIsUnique` | packages/relay/src/message.ts:35-37 | any triple at all with the signed text of a bar-free one is that triple |
| `Framing.OtherReading` | packages/relay/src/message.ts:35-37 | for every triple with a bar in a part, another triple with the same signed text |
| `Framing.HashReadings` | packages/relay/src/message.ts:35-37 | a bar-free text is the hash part of another reading of a signed text if and only if it is a part of the id but the first or of the expiry but the last |
| `Integrity.SignatureBindsExactly` | packages/relay/src/validation.ts:42-51 | for an honest device's key, every validating message agrees with the built payload whose signed text it carries, on id, expiry and every schema field, if and only if no built payload's text hides the hash of a payload that passes the schema |
| `Integrity.ValidatedIsBuilt` | packages/relay/src/validation.ts:29-58 | where no text hides a hash, a message that validates under an honest device's key agrees with a payload that device built on id, expiry and every schema field |
| `Integrity.ValidatedIsBuiltExactly` | packages/relay/src/validation.ts:29-58 | for a device whose expiry texts have no bar, that holds if and only if no text hides a hash |
| `Integrity.PlainTextsHideNothing` | packages/relay/src/message.ts:35-37 | a payload whose id and expiry have no bar hides no hash |
| `Integrity.HiddenHashValidates` | packages/relay/src/validation.ts:42-56 | where a signed text hides the hash of a payload that passes the schema, its signature validates a message with that payload under another id or another expiry |
| `Integrity.SignatureMoves` | packages/relay/src/validation.ts:42-56 | an instance: from the id `x`, a bar and the hash of `q`, what was signed also validates `q` under the id `x`, at every time |
| `Integrity.StoredIsBuilt` | packages/relay/src/handshake.ts:106-111 | where no text hides a hash, every message under an honest device's key that any number of racing sessions with any peers added to a store agrees with one that device built, whatever the store held before |
| `Integrity.BuiltValidates` | packages/relay/src/message.ts:45-71 | a built message carries the payload's id and expiry and what it was given; it validates if and only if its payload has exactly the schema's fields, well formed, and its expiry is no date or lies after `now` |
| `Integrity.StagesInOrder` | packages/relay/src/validation.ts:33-57 | each answer of the chain with what it says of the message, in the order of the stages: version 1, schema, hexadecimal hash of the canonical text, signature over id, hash and expiry joined by bars, expiry |
| `Integrity.ParsedFields` | packages/shared/src/validation/emergency.ts:15-32 | what parsing leaves of a payload has exactly the sixteen fields, with the payload's values |
| `Integrity.ToHexDigits` | packages/relay/src/message.ts:23-25 | two lower-case digits for each byte, the high one first |
| `Integrity.ValidationIsAcceptance` | packages/relay/src/validation.ts:29-58 | the five-stage chain accepts exactly what the relay model accepts, and answers EXPIRED exactly when only the clock stands against a message |
| `Integrity.HashInjective` | packages/relay/src/message.ts:20-26 | equal payload hashes mean equal payloads, up to key order |
| `Integrity.ToHexInjective` | packages/relay/src/message.ts:23-25 | two-digit hexadecimal text determines the bytes |
| `Base64Url.RoundTrip` | packages/crypto/src/encoding.ts:9-22 | decoding what was encoded gives back every byte sequence |
| `Base64Url.EncodeLaw` | packages/crypto/src/encoding.ts:9-13 | only the URL-safe alphabet of section 5 of RFC 4648, no padding, and the shortest length |
| `Base64Url.EncodesBits` | packages/crypto/src/encoding.ts:9-13 | each character is the entry of Table 2 of RFC 4648 for the next six bits of the bytes, three bytes making four groups |
| `Base64Url.DecodesExactly` | packages/crypto/src/encoding.ts:15-22 | a text in the URL-safe alphabet can be read if and only if its length is not one more than a multiple of four |
| `Base64Url.StrayCharacterFails` | packages/crypto/src/encoding.ts:15-22 | a text with a character of neither alphabet, but for padding and white space, cannot be read |
| `Base64Url.BytesToBase64Url` | packages/crypto/src/encoding.ts:9-13 | the loop's text is the encoding the round trip is about |
| `Base64Url.Base64UrlToBytes` | packages/crypto/src/encoding.ts:15-22 | the filled buffer is the decoding, and it throws exactly when there is none |
| `Upload.NothingLostNothingClaimed` | packages/sync/src/syncQueue.ts:40-51 | under any loss, delay, failed commit, failed removal, crash and staff action, and any number of passes at once, every LOCAL_ONLY record is still queued with the same content, every other one is, field by field, a record the server has held, and no id disappears |
| `Upload.NothingLostFromEmpty` | apps/web/src/services/emergencyService.ts:123-132 | the same for every run of a device and a server that started empty |
| `Upload.DequeuedIsHeld` | packages/sync/src/syncQueue.ts:42-45 | for an id that left the queue the device stores a record, field by field, that the server has held |
| `Upload.HeldLasts` | services/api/src/controllers/incidentController.ts:91-113 | a record the server has held stays one it has held: content, reporter and assignment stay, logs grow at the end |
| `Provenance.ReportsAreCarried` | apps/web/src/services/emergencyService.ts:123-132 | over any run, whatever is queued, listed by a pass or sent under an id is the report that was made on the device under it |
| `Provenance.FirstIsStored` | services/api/src/controllers/incidentController.ts:17-35 | the server has an incident under an id if and only if it admitted a report under it, and its content is that of the first one, for ever |
| `Provenance.OwnReportStoredExactly` | services/api/src/controllers/incidentController.ts:21-35 | for every run from empty, a report is queued with its content, or the device shows the content the server has; the server has the device's own report if and only if no other one under that id was admitted before it |
| `Provenance.ReportLost` | services/api/src/controllers/incidentController.ts:24-28 | an instance: another's report under the same id is admitted first; the device's own ends up in no store, and the device shows SERVER_RECEIVED |
| `Upload.NeverAhead` | apps/web/src/services/syncService.ts:26-41 | the device's view never ranks above the server's |
| `Upload.ReceivedOnce` | services/api/src/controllers/incidentController.ts:21-44 | however often a report is sent and handled late, the server has one record and one SERVER_RECEIVED event for it, the first |
| `SyncQueue.ProcessSyncQueue` | packages/sync/src/syncQueue.ts:31-54 | the loop is a run of the pipeline; the two lists are, in order, the items that nothing befell and the server admits, and all others; the former are off the queue, the latter wait with one more attempt and the same payload, all else on the queue is untouched; records and server are as SweptMeans says |
| `SyncQueue.SweptMeans` | packages/sync/src/syncQueue.ts:40-51 | a pass adds to the server exactly the admitted reports that reached it and changes none it had; every committed record is the server's and every other record is as it was |
| `SyncQueue.ChosenSplits` | packages/sync/src/syncQueue.ts:33-50 | every item is in exactly one of the two lists |
| `SyncQueue.Answers` | services/api/src/controllers/incidentController.ts:11-45 | an upload is answered with a record if and only if the report is of the session's community, and the record is then the one the server holds for the id |
| `SyncQueue.ProcessItem` | packages/sync/src/syncQueue.ts:41-50 | an item succeeds if and only if nothing befell it and the server answered with a record; for each fate the queue, the stored records and the server afterwards, and the run of the pipeline it is |
| `SyncQueue.DeviceDb.RecordAttempt` | apps/web/src/services/syncService.ts:15-19 | one more attempt on a queued item, nothing for an unknown one |
| `SyncQueue.DeviceDb.Remove` | apps/web/src/services/syncService.ts:20-23 | takes the one item off the queue |
| `SyncQueue.DeviceDb.MarkServerReceived` | apps/web/src/services/syncService.ts:26-41 | stores the server's record verbatim under its id |
| `Incidents.AuditLogDetermines` | services/api/src/controllers/incidentController.ts:91-164 | over any run of requests every incident's log is a legal path of at most five events from receipt, whose end is the stored status and delivery state, and which says whether the four assignment fields are set |
| `Incidents.AuditFromEmpty` | services/api/src/controllers/incidentController.ts:11-164 | the same for every server that started empty; an unknown incident has no events |
| `Incidents.HandleInv` | services/api/src/controllers/incidentController.ts:11-164 | each request keeps that, changes nothing when it is rejected, never rewrites an assignment or a reporter, and never reaches the lookup that throws |
| `Incidents.HandleConfined` | services/api/src/controllers/incidentController.ts:15-142 | no request changes an incident outside the caller's community, residents change none, a new incident is the caller's own, and a new assignee is staff of that community |
| `Incidents.TransitionInv` | services/api/src/controllers/incidentController.ts:91-113 | the one place where a status changes, given a record its caller prepared |
| `Incidents.AcknowledgeExactly` | services/api/src/controllers/incidentController.ts:115-120 | for staff on a visible incident: succeeds if and only if it is NEW, and then stores and answers ACKNOWLEDGED with its event and note; else 409 without effect |
| `Incidents.AssignExactly` | services/api/src/controllers/incidentController.ts:122-142 | 400 without effect unless the responder is staff of the community; else succeeds if and only if the incident is NEW or ACKNOWLEDGED, with exactly the four given assignment fields; else 409 without effect |
| `Incidents.ResolveExactly` | services/api/src/controllers/incidentController.ts:144-149 | succeeds if and only if the incident is ACKNOWLEDGED, ASSIGNED or IN_PROGRESS; else 409 without effect |
| `Incidents.PatchExactly` | services/api/src/controllers/incidentController.ts:151-164 | without a status answers the incident; starts work if and only if it is ASSIGNED; cancels if and only if it is not RESOLVED, CANCELLED or EXPIRED; else 409 without effect |
| `Incidents.CreateExactly` | services/api/src/controllers/incidentController.ts:11-45 | 403 for another community, 200 with the stored incident for a known id, both without effect; else 201 and a new, received, unassigned incident of the caller with its one event |
| `Incidents.LogIsShort` | services/api/src/services/incidentStatusMachine.ts:15-23 | a legal log has at most five events, none twice, receipt exactly first |
| `Incidents.GuardedLookup` | services/api/src/services/incidentStatusMachine.ts:25-48 | every allowed target has a delivery state, so the throw is unreachable after the guard |
| `Incidents.StatusRoundTrip` | services/api/src/services/incidentStatusMachine.ts:36-48 | the delivery state recorded for a status determines the status |
| `IncidentController.Controller.CreateIncident` | services/api/src/controllers/incidentController.ts:11-45 | creates once; a known id is a success without effect; a foreign community is refused; the log stays in step |
| `IncidentController.Controller.FindIncidentInCommunity` | services/api/src/controllers/incidentController.ts:61-70 | an incident is found if and only if it exists in the caller's community and, for a resident, is the caller's own; what is found is what is stored |
| `Incidents.AnswersWithinView` | services/api/src/controllers/incidentController.ts:60-164 | for every request on an incident: residents may only look; a permitted one is answered with "not found" if and only if no incident visible to the caller has the id, and a returned record is that incident's |
| `Incidents.UnseenRecordExactly` | services/api/src/controllers/incidentController.ts:17-28 | for every request: a record the caller may not see is returned if and only if it is a creation under the id of an incident the caller may not see |
| `Incidents.ResendShowsRecord` | services/api/src/controllers/incidentController.ts:24-28 | an instance of that, for any details and either role |
| `IncidentController.Controller.GetIncident` | services/api/src/controllers/incidentController.ts:72-75 | a record is returned if and only if the caller may see it, and it is the stored one |
| `IncidentController.Controller.TransitionIncidentStatus` | services/api/src/controllers/incidentController.ts:91-113 | the prepared document saved with its event, the log in step, or an error without effect |
| `IncidentController.Controller.AssignIncident` | services/api/src/controllers/incidentController.ts:122-142 | the four fields set and stored only with a legal transition to ASSIGNED; the log stays in step and an error changes nothing |
| `IncidentController.Controller.MoveIncident` | services/api/src/controllers/incidentController.ts:115-149 | acknowledge, resolve and patch as one guarded move that keeps the log in step; an error changes nothing |
| `IncidentController.Controller.Serve` | services/api/src/routes/incident.ts:20-43 | every route with its role check is the request the theorems on requests are about; it keeps the invariants of the log and rejects without effect |
| `OtpSpec.OtpRefinesHistory` | services/api/src/services/otpProvider.ts:37-64 | over any calls for any numbers, a verification succeeds if and only if the latest request carried the code, at most five minutes passed, none succeeded since and fewer than five were made since |
| `OtpSpec.MapFollowsHistory` | services/api/src/services/otpProvider.ts:37-64 | what the pending map holds for a number, and why it holds nothing, in terms of the history |
| `OtpSpec.SingleUse` | services/api/src/services/otpProvider.ts:61-63 | after a success nothing succeeds for that number until the next request |
| `OtpProvider.MockOtpProvider.RequestOtp` | services/api/src/services/otpProvider.ts:40-47 | the map stays the one of the extended history |
| `OtpProvider.MockOtpProvider.VerifyOtp` | services/api/src/services/otpProvider.ts:49-64 | returns true exactly when the history grants it |
| `AuthSpec.RevocationBound` | services/api/src/controllers/authController.ts:107-124 | after a revocation no access token for the device is accepted from one access-token lifetime on, whatever was issued before and requested after |
| `AuthSpec.BoundIsReached` | services/api/src/middleware/auth.ts:22-34 | the bound is tight: up to that moment a token signed just before is accepted |
| `AuthSpec.BindingHolds` | services/api/src/controllers/authController.ts:50-76 | a device's owner never changes, a revocation is never undone, and every token names its device's owner |
| `AuthSpec.NoNewTokens` | services/api/src/controllers/authController.ts:97-124 | no token is ever signed for a revoked device |
| `AuthSpec.LoginExactly` | services/api/src/controllers/authController.ts:30-95 | granted if and only if the code was, the community is known, and the device is unclaimed or unrevoked and the account's own; the code of each refusal and what it leaves; a login signs exactly two tokens, for that user and device, with the set lifetimes |
| `AuthSpec.RefreshExactly` | services/api/src/controllers/authController.ts:97-132 | granted if and only if the token is a signed, unexpired refresh token of a known user and device and the device is not revoked; then two new tokens for the same user and device; else 401 or 403 without effect |
| `AuthSpec.RevokeExactly` | services/api/src/controllers/deviceController.ts:13-23 | granted if and only if the device is of the caller's community, and then changes only that it is revoked; else 404 without effect |
| `AuthSpec.TokensAreGranted` | services/api/src/services/tokenService.ts:20-28 | over any run, every token that was not there at the start was granted by a login with a granted code or by a refresh with a signed, unexpired refresh token of the same user and device |
| `AuthSpec.UsedRefreshTokenLives` | services/api/src/controllers/authController.ts:97-132 | after a refresh token was used, over any requests since, it is accepted again if and only if it has not expired and its device is not revoked |
| `AuthSpec.RefreshTwice` | services/api/src/controllers/authController.ts:123-124 | an instance: a token that was just used is accepted again at once |
| `AuthController.Controller.VerifyOtp` | services/api/src/controllers/authController.ts:30-95 | logs in if and only if the history of one-time passwords grants the call, the community is known and the device is free for the account; without a granted code 401 and no change; a refusal signs nothing; a login signs exactly its two tokens |
| `AuthController.Controller.Refresh` | services/api/src/controllers/authController.ts:97-132 | is the refresh of RefreshExactly; signs two tokens when granted and changes nothing when not |
| `AuthController.Controller.RevokeDevice` | services/api/src/controllers/deviceController.ts:13-23 | revokes a device of the caller's community and no other |

## Left out

- Handshake.Apply: a send in the handshake either hands its frame over or fails; one that hands the summary over and still throws is seen as a later failure, which cannot follow when nothing is to be transferred.
- Handshake.Outcome: a save that writes the message and then throws is not modelled; a failing save writes nothing.
- Handshake.OnTransfer: the `hasMessage` test and the validation are one step with the read of the frame; with other sessions on the store, that step stands where the test stands.
- SyncRun.Run.ReceiveNext: a frame without the parts its type promises, which makes the code throw, is modelled by ReceiveFails instead.
- Vanishing.StallsExactlyWhenSkipped: says nothing of sessions whose connection also fails; those end interrupted and are covered by the cut-session lemmas and by AnyPeer.
- Mesh.ExactDelivery: both devices of a meeting have the common clock; sessions between different clocks are the subject of Convergence.
- Mesh.UploadedOnce: gateway passes on one device do not overlap; the code takes no lock there.
- Gateway.RunGatewayUpload: the store is not changed by others between the awaits of a pass.
- CanonicalJson.CanonicalForm: strings are sequences of Unicode characters, so lone surrogates are not covered; a number is carried as its printed text, so -0 and the printing of floating point are not; a member that is undefined does not occur.
- Base64Url.Base64UrlToBytes: the exception of atob is a flag.
- Integrity.ValidatedIsBuilt: SHA-256, Ed25519 and UTF-8 are ideal relations; the envelope's originDeviceId and timestamp are not signed, so nothing is claimed of them, nor of payload keys outside the schema.
- Integrity.BuiltValidates: the ranges and patterns of single fields are one predicate per field.
- Upload.NothingLostNothingClaimed: the device's own event list is not modelled.
- Provenance.ReportsAreCarried: the transmitted fields are one component of a record, so the field-by-field copy in `toCreateEmergencyInput` is that component; which sixteen fields it has is the subject of Integrity.
- Leftovers.ResumedBesideLeftover: one loop left behind beside one next session, both with the same clock; any number of loops is the subject of LeftoversStayInLine, sessions with different clocks are not covered.
- SyncQueue.ProcessSyncQueue: one pass from start to end; passes that interleave are runs of Upload.
- Incidents.HandleInv: each request is one atomic step; the code loads, changes and saves a document without a version check.
- OtpSpec.OtpRefinesHistory: the randomness of codes and the development-only peek are not modelled.
- AuthSpec.LoginExactly: of a token's claims only the user and the device are modelled, not the community and the role.
- AuthSpec.RevocationBound: tokens are accepted exactly when they were signed and have not expired; signing keys and token parsing are not modelled.
- Building an emergency record on the device (geolocation, session lookup, the 24 and 72 hour lifetimes) is an arbitrary new LOCAL_ONLY record.
- Listing endpoints, logout, communities, rate limiting, CORS, environment parsing and the database layers: library behaviour or plain reads.
- The web pages, the map, the Android BLE interface and build configuration: no protocol logic.
