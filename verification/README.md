# Verified models of the UMC daemon and its interoperability peer

This project states and proves, in Dafny 4.11, what the state machines and codecs of the UMC daemon
(`bins/umcd`), its Python bindings and its independent Python peer promise. Each component is a value model (datatypes
and functions that follow the code branch by branch), lemmas about that model over all inputs and whole histories, and,
where the source updates things in place, a class or a loop whose contract ties the new state to the model.

`dafny verify dfyconfig.toml` checks every file.

## What is modelled

* **Application data plane** (`DataPlane`, `PlaneInvariant`, `PlaneRuns`, `PlaneFifo`, `PlaneIsolation`, `PlaneRemovals`,
  `PlaneDatagrams`, `PlaneStreams`, `PlaneSessions`, `PlaneResets`, `PlaneAnswers`, and the class in
  `ApplicationDataPlane`): listeners, sessions, streams, the stream index, the pending queues and the
  byte and datagram queues. `Op` lists every operation; `Run` is the plane after any sequence of them. Every method of
  the class keeps the invariant of the plane, below the counter's maximum for those that issue a handle.
* **Application registration** (`Registration`, `RegistrationInvariant`, `SuspendResume`, `RegistrationLaws`, and the
  class in `ControlRuntime`): the registration maps, the protocol registry, suspension on a lost connection and resumption.
* **Idempotency cache** (`Store`, `Idempotency`, `IdempotencyStore`, `IdempotencyFaults`, and the class in
  `IdempotencyCache`): the bounded map and its queue, mirrored encrypted to a store that may fail, and restored from it.
* **Control connection** (`ControlTransport`, `ControlRuns`, `ControlLaws`, and the class in `ControlConnection`): hello, requests,
  draining and cancellation, and many connections sharing one cache; `RestartedWorlds` lets the daemon restart among the envelopes, and
  `ReplayedResponse` follows a stored answer down to its octets.
* **Wire format of the peer** (`Wire`, `Codecs`, `ClientHello`, `Frames`, `PacketProtection`, `LongPackets`,
  `ShortPackets`, `ReceivedFrames`, `AcceptedPackets`, `Formats`). `Codecs` pairs readers over a cursor with printers; a codec is *exact* when it accepts precisely the
  printed forms. Parsers take the codec of numbers as an argument, and `Codecs.Number()` is the one on the wire.
* **Protobuf codec** (`Protobuf`, `Utf8`, `Utf8Forms`, `Messages`, `MessageRoundTrip`, `DecodedMessages`, `ControlMessages`, `ControlOctets`): every message class encodes
  its fields in a fixed order and decodes them by number and wire type, so a class is a table of field numbers and kinds.
* **Backup archive and staged restore** (`Archive`, `ArchiveRoundTrip`, `ArchivePaths`, `StagedRestore`,
  `RestoreOutcomes`).
* **Token delegation** (`Authority`), **audit log** (`DecimalKeys`, `AuditRing`, `AuditFaults`,
  `SharedNamespace`, and the class in `DaemonEvents`) and **relay link** (`RelayLink`, `RelayPackets`, as interleaved
  atomic steps).
* `Bytes` and `Queues` hold octets, big-endian integers, exclusive or and sequence operations.

## Assumptions stated once

* Saturating 64-bit counters stay below their maximum; where one saturating matters, a lemma shows what then happens.
* The store of a namespace is a map whose scan returns every row once in key order.
* Ciphers, digests, key derivation and JSON are functions given as arguments. Opening undoes sealing, tags have 16 octets,
  and a digest is assumed free of collisions only on the keys in use. Results about what is accepted, and they alone, also
  assume that what opens was sealed.
* Clocks, entropy, capability checks, deserialised requests and the outcome of every store or file operation are arguments.
* A raised exception or an error return is the absence of a value, or an error value where the source tells errors apart.

## Where the code and its documentation disagree

The model follows the code.

* `bins/umcd/src/application_data.rs:668-673` computes the end-of-stream flag before the tail of a split chunk is put back,
  so a reader can be told that the stream is over while bytes wait (`PlaneFifo.EofExact`, `PlaneFifo.EofTooEarly`).
* `bins/umcd/src/backup.rs:540-541` promises that any failure rolls the originals back; a failure while staging returns
  before that (`StagedRestore.StagingSafeExactly`, `StagedRestore.StagingCanStrand`).
* `bins/umcd/src/backup.rs:652-653` promises that a rollback removes what the failed install left; at a target that did not
  exist it stays (`StagedRestore.RollbackSafeExactly`, `StagedRestore.RollbackLeavesInstalled`).
* `bins/umcd/src/relay_link.rs:119-123` declares the link ordered; the opening frame can follow a data frame of another
  thread (`RelayLink.DataCanComeFirst`, `RelayLink.OrderedWhateverExactly`, `RelayLink.DisciplineExactly`).
* `bins/umcd/src/event_log.rs:83-87` promises that audit history survives restarts; beyond 10000 events a larger ring
  comes back shorter (`AuditRing.LargeRingForgets`, `AuditRing.RestartExact`). The daemon's own ring of 200 events
  (`bins/umcd/src/state.rs:954`) is not affected.

## Model

| member | source | states |
|---|---|---|
| PlaneRuns.ReachableInv | bins/umcd/src/application_data.rs:102-112 | In every state reachable from a new plane the stream index is the exact inverse of the stream table, every stream's session exists and has its application, both pending queues are duplicate-free and list exactly the pending records, queued byte counts are exact, and issued handles lie below the counter |
| PlaneInvariant.StepKeepsInv | bins/umcd/src/application_data.rs:146-811 | Every operation keeps that invariant while the handle counter is below its maximum |
| PlaneRuns.RunKeepsInv | bins/umcd/src/application_data.rs:845-852 | The invariant survives any sequence of operations from any state that has it, as long as the counter cannot saturate |
| PlaneRuns.SaturatedCounterReusesHandle | bins/umcd/src/application_data.rs:845-852 | At the counter's maximum two streams opened one after the other get the same handle and the index is no longer exact |
| PlaneRuns.RouteStreamDataFindsStream | bins/umcd/src/application_data.rs:450-485 | Routing data never answers NotFound: an indexed stream always has its record |
| PlaneRuns.ResetForSessionFindsStream | bins/umcd/src/application_data.rs:606-627 | A reset by session and stream id finds the record of every indexed stream; the answer says exactly whether it was indexed |
| PlaneRuns.OpenStreamFailsClean | bins/umcd/src/application_data.rs:330-371 | Opening fails exactly on a session owned by someone else or a taken stream id; then nothing has changed although the session is bound first; otherwise the handle is new |
| PlaneRuns.RouteFailure | bins/umcd/src/application_data.rs:373-448 | A failed route changes nothing, except that a full queue leaves the session and stream it admitted, exactly as routing no data would |
| PlaneRuns.DatagramFailure | bins/umcd/src/application_data.rs:748-811 | A refused datagram or a receive without a datagram changes no queue |
| PlaneRuns.OnlyOwnersAct | bins/umcd/src/application_data.rs:813-843 | A call by handle or session changes anything only if its principal and connection own the record |
| PlaneRuns.PendingBounded | bins/umcd/src/application_data.rs:387-408 | Over every sequence of operations an application has at most 256 pending sessions beyond those bound directly as pending |
| PlaneRuns.StepPending | bins/umcd/src/application_data.rs:491-529 | One operation adds at most one pending session to an application, and below the bound unless it binds it as pending |
| PlaneFifo.BytesConserved | bins/umcd/src/application_data.rs:565-680 | For any operations and any stream alive and not reset at the end: bytes waiting at the start followed by bytes accepted are bytes read followed by bytes still waiting |
| PlaneFifo.FifoFromEmpty | bins/umcd/src/application_data.rs:565-586 | A stream's readers got exactly a prefix of what was accepted for it; the byte count is the difference and at most 2 MiB |
| PlaneFifo.EofExact | bins/umcd/src/application_data.rs:668-673 | A read that reports the end has emptied the stream exactly when it did not split a chunk |
| PlaneFifo.EofMeansDelivered | bins/umcd/src/application_data.rs:629-680 | Over every run from a new plane that ends in a read reporting the end: everything accepted was delivered exactly when the first waiting chunk fitted the read |
| PlaneFifo.EofTooEarly | bins/umcd/src/application_data.rs:668-673 | A run of two operations, opening a stream and pushing two octets with the end, after which a read of one octet reports the end with the other still waiting |
| PlaneFifo.ResetPermanent | bins/umcd/src/application_data.rs:588-627 | No operation takes a reset back |
| PlaneFifo.ResetForever | bins/umcd/src/application_data.rs:629-680 | After a reset every later read by the owner of the accepted stream reports the reset, its code and no data |
| PlaneFifo.HandleNotReused | bins/umcd/src/application_data.rs:845-852 | No operation brings back a handle that was issued and has gone |
| PlaneFifo.GoneForGood | bins/umcd/src/application_data.rs:845-852 | Nor does any sequence of operations, as long as the counter cannot saturate |
| PlaneIsolation.StepIsolated | bins/umcd/src/application_data.rs:171-276 | An operation leaves listeners, sessions, streams, queues and pending entries of every application it does not address as they were |
| PlaneIsolation.RunIsolated | bins/umcd/src/application_data.rs:114-853 | Whatever the other applications do over any sequence of operations, an application they do not address sees no change |
| ApplicationDataPlane.ApplicationDataPlane.RegisterListenerWithLimit | bins/umcd/src/application_data.rs:146-164 | The loop drops the protocol's earlier listeners of this application and appends the new one; listeners of every other application stay, in their order, and a valid plane stays valid |
| ApplicationDataPlane.ApplicationDataPlane.RemoveListener | bins/umcd/src/application_data.rs:166-169 | The loop drops the application's listeners and leaves those of every other application, in their order; a valid plane stays valid |
| ApplicationDataPlane.ApplicationDataPlane.RemoveApplication | bins/umcd/src/application_data.rs:171-189 | Drops the application's listeners, sessions, streams, index rows, pending entries and datagrams; the whole new state, valid again |
| ApplicationDataPlane.ApplicationDataPlane.RemoveConnection | bins/umcd/src/application_data.rs:199-221 | Removes, one by one, every application that listens on the connection, its sessions on other connections included, and then every session left on the connection; equal to removing them at once, and valid again |
| ApplicationDataPlane.ApplicationDataPlane.RebindApplication | bins/umcd/src/application_data.rs:223-257 | Moves all records of the application to the connection, or refuses without change when a record has another principal |
| ApplicationDataPlane.ApplicationDataPlane.RemoveSession | bins/umcd/src/application_data.rs:259-278 | Drops the session with its streams, index rows and queue entries; the whole new state |
| ApplicationDataPlane.ApplicationDataPlane.BindSessionOwned | bins/umcd/src/application_data.rs:297-328 | Adds the session or checks its owner; the whole new state and the answer |
| ApplicationDataPlane.ApplicationDataPlane.OpenStream | bins/umcd/src/application_data.rs:330-371 | Binds the session, takes the next handle, records stream and index row; the whole new state and the answer |
| ApplicationDataPlane.ApplicationDataPlane.RouteIncomingStream | bins/umcd/src/application_data.rs:373-448 | Finds the listener by a loop, admits the session within its limit, attaches the stream and pushes the data; the whole new state and the answer |
| ApplicationDataPlane.ApplicationDataPlane.RouteStreamData | bins/umcd/src/application_data.rs:450-485 | Pushes to the indexed stream after a protocol check, routes a new one, or reports that nobody listens |
| ApplicationDataPlane.ApplicationDataPlane.AcceptSession | bins/umcd/src/application_data.rs:491-511 | Clears the pending flag and the queue entry; the whole new state and the answer |
| ApplicationDataPlane.ApplicationDataPlane.RejectSession | bins/umcd/src/application_data.rs:513-529 | Removes the session for its owner, pending or not, with its streams and queues; the whole new state and the answer |
| ApplicationDataPlane.ApplicationDataPlane.AcceptStream | bins/umcd/src/application_data.rs:531-545 | Clears the pending flag and the queue entry; the whole new state and the answer |
| ApplicationDataPlane.ApplicationDataPlane.RejectStream | bins/umcd/src/application_data.rs:547-563 | Removes the stream and its index row for its owner, pending or not; the whole new state and the answer |
| ApplicationDataPlane.ApplicationDataPlane.PushStreamData | bins/umcd/src/application_data.rs:565-586 | Queues data within the byte bound and records the end; the whole new state and the answer, whose content and end flag PlaneResets.BytesSinceReset and PlaneStreams.EndedExactly give |
| ApplicationDataPlane.ApplicationDataPlane.MarkStreamReset | bins/umcd/src/application_data.rs:588-604 | Records the reset and empties the queue for the owner; the whole new state and the answer |
| ApplicationDataPlane.ApplicationDataPlane.MarkStreamResetForSession | bins/umcd/src/application_data.rs:606-627 | The same by session and stream id |
| ApplicationDataPlane.ApplicationDataPlane.ReadStream | bins/umcd/src/application_data.rs:629-680 | Takes at most the limit from the first chunk, puts a tail back, and reports end or reset; the whole new state and the answer |
| ApplicationDataPlane.ApplicationDataPlane.CloseStreamSend | bins/umcd/src/application_data.rs:682-691 | Marks the sending side closed for the owner |
| ApplicationDataPlane.ApplicationDataPlane.PushDatagram | bins/umcd/src/application_data.rs:748-768 | Queues a datagram within count and byte bounds; the whole new state and the answer, whose queue PlaneDatagrams.DatagramsConserved gives |
| ApplicationDataPlane.ApplicationDataPlane.ReceiveDatagram | bins/umcd/src/application_data.rs:776-811 | Takes the first datagram, expired or not, if it fits the limit; refuses and keeps the queue if it does not; the whole new state and the answer |
| PlaneRemovals.RemovalOrder | bins/umcd/src/application_data.rs:199-221 | Dropping an application's listeners and streams first and its sessions after them, as the loop does, gives the plane without the application; with no session there is nothing left to drop |
| PlaneDatagrams.DatagramsConserved | bins/umcd/src/application_data.rs:748-811 | For every run from any plane and every session: the datagrams accepted since the session was last cleared are those received followed by those that wait, in order, each with context, octets and expiry flag |
| PlaneDatagrams.StepWaiting | bins/umcd/src/application_data.rs:748-811 | Of all operations only an accepted push adds to a session's datagrams, at the end, and only an answered receive takes, at the front; removing the session, its application or its connection leaves none |
| PlaneDatagrams.DatagramsFromEmpty | bins/umcd/src/application_data.rs:748-811 | The receivers of a session that was never cleared got exactly a prefix of what was accepted for it; at most 256 datagrams and 2 MiB wait |
| PlaneDatagrams.PushAnswered | bins/umcd/src/application_data.rs:748-768 | A datagram is accepted exactly while fewer than 256 wait and the octets fit 2 MiB |
| PlaneDatagrams.ReceiveAnswered | bins/umcd/src/application_data.rs:776-811 | The session's own connection gets the first datagram that waits if it fits the limit; every other answer has its cause |
| PlaneDatagrams.NumbersExactly | bins/umcd/src/application_data.rs:770-774 | Over every run of a new plane the datagram numbers handed out are 1, 2, 3 and so on |
| PlaneStreams.StreamStory | bins/umcd/src/application_data.rs:330-691 | Over every run from a new plane: each stream was made by one of the operations, with that operation's owner, session, number and protocol, and its record is the one it was made with, changed by exactly the ends, resets, closings, acceptances and moves that were answered with success |
| PlaneStreams.EndedExactly | bins/umcd/src/application_data.rs:565-586 | Over every run from a new plane a stream's end flag is set exactly when an accepted push or route for it carried the end |
| PlaneStreams.EndReportedExactly | bins/umcd/src/application_data.rs:629-680 | Over every run from a new plane the owner's read of an accepted stream that was not reset reports the end exactly when the stream was ended so and at most one chunk waits |
| PlaneStreams.FindListenerExactly | bins/umcd/src/application_data.rs:373-386 | A route goes to the listener of the protocol that registered first |
| PlaneStreams.DroppedExactly | bins/umcd/src/application_data.rs:171-278 | A stream goes exactly when it is rejected by its owner or its session, its application or its connection goes |
| PlaneResets.BytesSinceReset | bins/umcd/src/application_data.rs:565-680 | For every run and every stream: the bytes accepted since its last reset are the bytes read since followed by the bytes that wait |
| PlaneResets.ResetFlow | bins/umcd/src/application_data.rs:588-627 | A reset, by the owner or by the peer, empties that stream and frees its whole allowance; other streams keep their bytes |
| PlaneSessions.SessionStory | bins/umcd/src/application_data.rs:280-328 | Over every run from a new plane a session exists exactly when an operation made it and none removed it since, with the owner it was made with, moved as its application moved, and pending until it was accepted |
| PlaneSessions.SessionStep | bins/umcd/src/application_data.rs:199-328 | What each operation does to each session |
| PlaneAnswers.ReadAnswered | bins/umcd/src/application_data.rs:629-680 | A read is answered by the owner check, the pending flag, the reset, the limit, the first chunk and the end flag, in that order, with the octets and flags of each case |
| PlaneAnswers.PushAnswered | bins/umcd/src/application_data.rs:565-586 | Data is accepted for a stream exactly while what waits and the data together fit 2 MiB |
| PlaneAnswers.AcceptedExactly | bins/umcd/src/application_data.rs:565-586 | So, over every run, exactly while the bytes accepted less the bytes delivered leave room for it |
| PlaneAnswers.OwnersAnswered | bins/umcd/src/application_data.rs:531-691 | A stream is accepted once, by its owner; rejecting, resetting and closing it is the owner's at any time; others learn whether it exists |
| PlaneAnswers.BindAnswered | bins/umcd/src/application_data.rs:297-328 | A session is bound anew, or again by exactly its owner |
| PlaneAnswers.SessionAnswered | bins/umcd/src/application_data.rs:491-529 | A session is accepted once, by its owner, and rejected by its owner at any time |
| PlaneAnswers.RouteAnswered | bins/umcd/src/application_data.rs:373-448 | A stream is routed to the first listener of its protocol if its session is admitted and the data fit, and each refusal has its cause |
| PlaneAnswers.RouteDataAnswered | bins/umcd/src/application_data.rs:450-485 | Data for a known stream needs its protocol; for an unknown one somebody must listen |
| PlaneAnswers.RegisteredListeners | bins/umcd/src/application_data.rs:146-164 | Registering replaces the application's listener for the protocol and puts the new one last, with a limit of 1 to 256 sessions |
| PlaneAnswers.RemovedListeners | bins/umcd/src/application_data.rs:166-169 | Removing drops every listener of the application and nothing else |
| PlaneAnswers.LostListeners | bins/umcd/src/application_data.rs:199-221 | A lost connection takes every listener of the applications that listen on it, and no other |
| PlaneAnswers.RebindAnswered | bins/umcd/src/application_data.rs:223-257 | An application moves exactly if all its records belong to the principal; then all of them and no others move |
| RegistrationInvariant.HistoryInv | bins/umcd/src/control_application.rs:1065-1286 | After every history of a daemon the four registration maps have the same keys, protocol lists are disjoint, start with their handle and are held in the registry, (principal, instance id) is unique among resumable applications, and every data-plane record belongs to the one owner of a registered application |
| RegistrationInvariant.NextKeeps | bins/umcd/src/control_application.rs:2260-2321 | Every event keeps that invariant |
| SuspendResume.ClaimExact | crates/umc-core/src/app.rs:48-80 | A list of protocol ids is claimed exactly when its ids are short enough, free and distinct |
| SuspendResume.OneMatch | bins/umcd/src/control_application.rs:1103-1112 | At most one application matches a resumption, so the choice among matches is none |
| SuspendResume.RefusedRegistrationChangesNothing | bins/umcd/src/control_application.rs:1065-1222 | A refused registration, fresh or resuming, leaves every table, the registry and the data plane as they were |
| SuspendResume.RegistrationNeverOverwrites | bins/umcd/src/control_application.rs:1103-1200 | A registration never takes over a handle: principal, protocols and registration stay, up to fresh grants, and only a suspended matching application changes its connection |
| SuspendResume.GrantedRegistrationOwns | bins/umcd/src/control_application.rs:1103-1222 | A granted registration makes its caller the owner of the handle returned, with its token and all its protocol ids registered |
| SuspendResume.CloseSuspends | bins/umcd/src/control_application.rs:2260-2321 | Closing its connection keeps a resumable application registered with its records, now on no connection |
| SuspendResume.ResumeMoves | bins/umcd/src/control_application.rs:1103-1144 | Registering a suspended application again returns its handle and token and moves its records to the new connection |
| SuspendResume.SuspendThenResume | bins/umcd/src/control_application.rs:1103-1144 | Closing the connection and resuming on another gives the same handle and token and leaves every listener, session, stream, queue, flag and pending entry of the application as it was, all on the new connection |
| SuspendResume.OldConnectionDenied | bins/umcd/src/control_application.rs:2198-2214 | Every stream or session call with the old connection is then denied |
| ControlRuntime.ControlTables.ClaimProtocols | bins/umcd/src/control_application.rs:1146-1166 | Claims ids one by one and gives the claimed ones back on failure: the registry is the claimed one or exactly the old one |
| ControlRuntime.ControlTables.Register | bins/umcd/src/control_application.rs:1065-1222 | Screens, resumes or enrols; the whole new state and the reply, and the invariant of the tables and the plane kept |
| ControlRuntime.ControlTables.ResumeApplication | bins/umcd/src/control_application.rs:1103-1144 | Checks connection and request, rebinds the records and renews the grants; the whole new state and the reply |
| ControlRuntime.ControlTables.EnrollApplication | bins/umcd/src/control_application.rs:1146-1222 | Claims the protocols, opens their channels and fills the four maps; the whole new state and the reply, whose record RegistrationLaws.RecordedExactly gives |
| ControlRuntime.ControlTables.Unregister | bins/umcd/src/control_application.rs:1225-1286 | Checks the owner, releases the protocols and drops every record of the application; the whole new state, in which the invariant of the tables and the plane still holds |
| ControlRuntime.ControlTables.CloseConnection | bins/umcd/src/control_application.rs:2260-2321 | Suspends the resumable and drops the other applications of the connection in any order; equal to doing it at once, and the invariant kept |
| RegistrationLaws.GrantedExactly | bins/umcd/src/control_application.rs:1065-1222 | A registration is granted exactly when it is well formed and agrees with the application it repeats, or claims free protocol ids; else it is told why |
| RegistrationLaws.RecordedExactly | bins/umcd/src/control_application.rs:1103-1222 | The record of a granted registration, new or resumed, has exactly the request's name, instance, endpoints, protocols, capabilities and grants, its principal and connection, and the reply carries those grants and the record's token |
| RegistrationLaws.EnrolledExactly | bins/umcd/src/control_application.rs:1146-1222 | A new application gets its own token; its protocols carry its name, and everything else stays |
| RegistrationLaws.RegisterCloseRegister | bins/umcd/src/control_application.rs:1065-1222 | From any state of the tables: a resumable application that is granted a registration on one connection, loses that connection and registers by the same request on another gets the same handle, token and grants, and its records move with it |
| RegistrationLaws.LeavesExactly | bins/umcd/src/control_application.rs:1225-1286 | An application leaves exactly at the word of its registrant; then nothing of it remains and the others are as before |
| RegistrationLaws.RegisterThenLeave | bins/umcd/src/control_application.rs:1065-1286 | Registering anew and leaving again restores every table, the protocol ids and the data plane |
| RegistrationLaws.LostExactly | bins/umcd/src/control_application.rs:2260-2321 | A lost connection suspends the resumable applications on it, ends the others, and leaves those on other connections alone |
| RegistrationLaws.ListensExactly | bins/umcd/src/control_application.rs:1289-1341 | A registrant listens once, for its own handle and with room for a session, and is then the last listener; each refusal has its cause |
| RegistrationLaws.StopsExactly | bins/umcd/src/control_application.rs:1343-1371 | A registrant that listens can stop, and then has no listener |
| RegistrationLaws.ConnectsExactly | bins/umcd/src/control_application.rs:812-1062 | A registrant's connect gives it the session, unless somebody has it; others change nothing |
| RegistrationLaws.StartsExactly | bins/umcd/src/control_application.rs:1571-1637 | A registrant starts streams of its first protocol, which is its handle; others change nothing |
| Idempotency.EntryStays | bins/umcd/src/control_transport.rs:160-188 | An entry stays as stored while fewer than 1024 keys in all have joined the queue after it and its lifetime lasts |
| Idempotency.LookupExactly | bins/umcd/src/control_transport.rs:296-314 | An entry answers for 24 hours from its insertion, the stored answer for an equal payload and a conflict for another, and never at the last moment of the 64-bit clock |
| Idempotency.AtMostOneDispatch | bins/umcd/src/control_transport.rs:296-314 | A stored call is not dispatched again in time and before 1024 new keys: an equal payload gets the stored answer, another a conflict |
| Idempotency.EvictedByThe1024th | bins/umcd/src/control_transport.rs:160-188 | The call that brings the 1024th new key is exactly the one that evicts the entry, and the next use is dispatched again |
| Idempotency.SurvivesExactly | bins/umcd/src/control_transport.rs:160-188 | While its key is not used, an entry is in the cache unchanged exactly until 1024 keys have joined the queue after it |
| Idempotency.DispatchedAgainExactly | bins/umcd/src/control_transport.rs:296-314 | So the next use of the key is dispatched exactly when it comes after the entry's life or after the 1024th such key |
| Idempotency.FreshKeyHasNoFollowers | bins/umcd/src/control_transport.rs:160-188 | A key new to the queue has all 1024 places ahead of its eviction |
| Idempotency.InsertKeepsInv | bins/umcd/src/control_transport.rs:160-188 | Insertion keeps queue and map in step: distinct keys, the same set, at most 1024 |
| IdempotencyStore.FramedInjective | bins/umcd/src/control_transport.rs:317-332 | Length-prefixed framing of the key parts is injective |
| IdempotencyStore.StorageKeyInjective | bins/umcd/src/control_transport.rs:317-332 | So storage keys differ for different keys when the digest does not collide on them |
| IdempotencyStore.InsertPersistedAgrees | bins/umcd/src/control_transport.rs:248-294 | An insertion whose store operations succeed keeps memory, queue and rows in agreement |
| IdempotencyStore.RestartExact | bins/umcd/src/control_transport.rs:193-246 | A restart brings back exactly the entries still alive |
| IdempotencyStore.RestartKeepsLookups | bins/umcd/src/control_transport.rs:193-246 | After a restart at r, whichever deletions of dead rows fail, every lookup at a time from r on answers what it would have answered without it |
| IdempotencyStore.RestartHolds | bins/umcd/src/control_transport.rs:193-246 | A restart rebuilds the queue in the order of the storage keys: behind an entry stand exactly the live entries whose rows come after its own |
| IdempotencyStore.DispatchedAfterRestart | bins/umcd/src/control_transport.rs:193-246 | A stored call that comes again after a restart is dispatched exactly when it is too late, or when the live entries with later rows and the keys new since the restart are 1024 or more |
| RestartedWorlds.DispatchedAgainAfterRestart | bins/umcd/src/control_transport.rs:501-572 | The same over every interleaving of the connections that open after one restart |
| IdempotencyStore.RunAgrees | bins/umcd/src/control_transport.rs:151-332 | Over any sequence of insertions, restarts and writes by others to the namespace, memory, queue and rows agree |
| IdempotencyStore.OtherAgrees | bins/umcd/src/control_transport.rs:137-150 | Writes by others outside the prefix leave memory and rows in agreement |
| IdempotencyStore.EmptyAgrees | bins/umcd/src/control_transport.rs:153-159 | A new cache over a store without its rows starts in agreement |
| IdempotencyFaults.InsertionExactly | bins/umcd/src/control_transport.rs:248-294 | Whether or not the store does as it is told: memory takes the entry, its row is the new record if the write succeeded, the row pushed out is gone if its deletion did, and every other row stays |
| IdempotencyFaults.InsertionKeepsOthers | bins/umcd/src/control_transport.rs:248-294 | Rows outside the prefix are untouched by every insertion |
| IdempotencyFaults.InsertionsExactly | bins/umcd/src/control_transport.rs:248-294 | Over every sequence of insertions, whatever fails, each row is what the last insertion that reached it left |
| IdempotencyFaults.RestoredExactly | bins/umcd/src/control_transport.rs:193-246 | From any rows, those of an agreeing store or not: the intact rows in time come back in the order of the scan, the last 1024 of them, each with its own response, digest and time, and nothing else does |
| IdempotencyFaults.PlacesExactly | bins/umcd/src/control_transport.rs:201-224 | Those are the rows that open, are in time and have a digest of 32 octets, each once and in the order of the scan |
| IdempotencyFaults.RestartLeaves | bins/umcd/src/control_transport.rs:193-246 | A restart removes exactly the dead rows the store lets it delete; one whose scan fails finds nothing and removes nothing |
| IdempotencyFaults.OpensExactly | bins/umcd/src/control_transport.rs:201-218 | A row is intact exactly if its key has the prefix and it is a number and a record sealed under that number for that key |
| IdempotencyFaults.ShortRowsRefused | bins/umcd/src/control_transport.rs:201-206 | Whatever the cipher, a row without room for a number and a tag is ignored |
| IdempotencyCache.IdempotencyCache.Insert | bins/umcd/src/control_transport.rs:160-188 | Evicts the oldest at 1024, appends a new key, replaces the entry; the whole new cache, which keeps queue and map in step |
| IdempotencyCache.IdempotencyCache.InsertPersisted | bins/umcd/src/control_transport.rs:248-294 | Seals and writes the row and deletes the evicted one, each of which may fail; the whole new cache and store |
| IdempotencyCache.IdempotencyCache.Restore | bins/umcd/src/control_transport.rs:193-246 | Opens and checks the rows in the order of the scan, puts the live ones into a new cache and deletes the dead ones, where a deletion may fail; rows of others stay, and a failed scan leaves an empty cache; the whole cache and store, with queue and map in step |
| IdempotencyCache.IdempotencyCache.Lookup | bins/umcd/src/control_transport.rs:296-314 | Misses on absence or age, replays on an equal payload digest, else a conflict |
| ReplayedResponse.RebindChangesOnlyId | bins/umcd/src/control_transport.rs:343-357 | Rebinding the octets of any well-formed response envelope gives exactly the octets of that envelope with the new request id; octets without a response are sent as stored |
| ReplayedResponse.OthersSentAsStored | bins/umcd/src/control_transport.rs:343-356 | Stored octets that are no envelope, or one without a response, are sent as they were stored |
| ControlRuns.TableEmptyBetweenTurns | bins/umcd/src/control_transport.rs:359-367 | Between envelopes the cancellation table is empty, whichever way the last one ended |
| ControlRuns.DrainingIsFinal | bins/umcd/src/control_transport.rs:392-632 | Once draining a connection stays draining and nothing is dispatched or accepted any more |
| ControlRuns.AtMostOneHello | bins/umcd/src/control_transport.rs:392-632 | At most one hello is accepted, and the connection records exactly whether one was |
| ControlRuns.NoDispatchBeforeHello | bins/umcd/src/control_transport.rs:392-632 | Nothing is dispatched before a hello was accepted |
| ControlRuns.EffectsInSequence | bins/umcd/src/control_transport.rs:392-470 | Observed envelopes take effect in strictly increasing order of their sequence numbers |
| ControlRuns.EnabledExact | bins/umcd/src/control_transport.rs:730-746 | Granted features are the supported ones among those requested, each once |
| ControlRuns.CacheOnlyByCalls | bins/umcd/src/control_transport.rs:501-572 | An envelope changes the cache only through a keyed call; it is dispatched exactly on a miss, and the reply is the answer, the stored answer under the new id, or a conflict |
| ControlRuns.CacheServesCalls | bins/umcd/src/control_transport.rs:501-572 | Over every interleaving of connections the cache has served exactly those keyed calls |
| ControlRuns.AtMostOnce | bins/umcd/src/control_transport.rs:501-572 | Over every interleaving of connections: once a keyed request was dispatched and stored, a later one with its key, in time and before 1024 new keys, is not dispatched; an equal payload gets the stored response under its own id, another a conflict |
| RestartedWorlds.AtMostOnceThroughRestarts | bins/umcd/src/control_transport.rs:151-332 | The same with any number of restarts and of writes by others among the envelopes: a request that was dispatched is not dispatched again while calls with its key and restarts come within its entry's life and fewer than 1024 keys stand behind it, counted anew at each restart |
| RestartedWorlds.DispatchedAgainThroughRestarts | bins/umcd/src/control_transport.rs:151-332 | While its key is not used, the condition is exact: it is dispatched again exactly when it comes too late or one of these limits was passed |
| RestartedWorlds.DaysAgree | bins/umcd/src/control_transport.rs:501-572 | Through all of that memory, queue and rows agree |
| ReplayedResponse.ReplayedOctets | bins/umcd/src/control_transport.rs:501-532 | In the situation of `AtMostOnce` with an equal payload, the octets sent are those of the first answer's envelope with the repeating request's id and no other change |
| ControlRuns.WorldsKeepCacheInv | bins/umcd/src/control_transport.rs:160-188 | Over every interleaving the queue lists the map's keys once, at most 1024 of them |
| ControlLaws.ServedExactly | bins/umcd/src/control_transport.rs:392-632 | An envelope is dispatched or replayed only if it is a request in sequence on a greeted connection that is not draining, with an id that is not 0 and not in use, no deadline or one still to come, at most 1 MiB of payload, no key or one of 16 to 64 octets, neither refused by the capability check nor cancelled; and every request that is all that is served, at once if it has no key |
| ControlLaws.RefusedExactly | bins/umcd/src/control_transport.rs:392-632 | Every other request in sequence on a greeted connection is refused with the status of what is wrong with it, the capability check's own status included, and changes neither the cache nor anything else |
| ControlLaws.ServedOverTraces | bins/umcd/src/control_transport.rs:392-632 | Over every trace of a connection a turn dispatches or replays only a request that passes every check after exactly one accepted hello and before draining, and every such request is served |
| ControlLaws.GreetedExactly | bins/umcd/src/control_transport.rs:643-728 | A hello is accepted exactly when it is the first on an authenticated connection, in sequence, with a name, an instance, features, an envelope size and versions within bounds; the connection then has its token, its id and the negotiated size |
| ControlLaws.DrainsExactly | bins/umcd/src/control_transport.rs:392-632 | A connection starts to drain exactly at a number out of sequence, a refused hello, anything before the hello, or a go-away |
| ControlLaws.RemembersExactly | bins/umcd/src/control_transport.rs:392-632 | Whatever the envelope: the number expected next, the token, the hello flag and the table of requests change exactly when the envelope is in sequence, a hello accepted or refused, or a cancellation of a request under way; nothing else of the connection changes but at the hello |
| ControlLaws.SameKeyExactly | bins/umcd/src/control_transport.rs:501-530 | Two requests meet in the cache exactly when they have the same caller, service, method and key; the caller is the principal, or without one the connection |
| ControlLaws.AnswersSeparate | bins/umcd/src/control_transport.rs:501-572 | One request changes what the next one is told only if both have the same caller, service, method and key, or by making room in the cache, which only leads to a dispatch |
| ControlLaws.SecondExactly | bins/umcd/src/control_transport.rs:501-572 | Of two keyed requests one after the other on a daemon that has stored nothing, the second is dispatched exactly when it differs in caller, service, method or key, or comes 24 hours after the first; else it gets the first answer, or a conflict for another payload |
| ControlConnection.ControlConnection.HandleEnvelope | bins/umcd/src/control_transport.rs:392-632 | The whole new connection, cache and store, the reply and the effect of one envelope on every path; only a keyed request that is dispatched is written to the store, in the same step as to the cache; ControlLaws.ServedExactly and ControlLaws.RefusedExactly say which requests that serves |
| Wire.ReadVarintExact | interop/python/live_runner.py:48-76 | Reading accepts exactly the shortest forms of 0 .. 2^62 - 1 and yields the number and the offset after it |
| Codecs.TextExact | interop/python/live_runner.py:79-89 | Length-prefixed fields are accepted exactly when printed within the limit |
| Codecs.CountedExact | interop/python/live_runner.py:137-151 | A counted list is accepted exactly when it is a printed count and that many printed elements |
| Codecs.ReadManyLoop | interop/python/live_runner.py:137-151 | The loop that appends one element after another computes the list, or fails with the first failing element |
| Codecs.PairExact | interop/python/live_runner.py:130-162 | Parts read one after the other are accepted exactly when both stand printed one after the other |
| ClientHello.ParseExact | interop/python/live_runner.py:130-174 | A ClientHello is accepted with nothing left over exactly when it is the printed form of the result, whose fields are within their bounds |
| ClientHello.ParseBuiltWith | interop/python/live_runner.py:108-127 | Building succeeds on the accepted arguments and parsing returns exactly what went in |
| ClientHello.ParseBuilt | interop/python/live_runner.py:108-174 | The same with the numbers of the wire format |
| Frames.ParsePrinted | interop/python/live_runner.py:470-545 | Parsing any concatenation of stream, datagram and ack frames returns those frames in order |
| Frames.Parse | interop/python/live_runner.py:491-545 | The parsing loop computes the frames from the start of the payload, or fails with the first bad frame |
| Frames.ReadFramePrinted | interop/python/live_runner.py:470-488 | A printed frame is read back wherever it stands, with the offset after it |
| Frames.PrintedFramesAgree | interop/python/live_runner.py:470-488 | Equal payloads carry equal frames, up to the protocol name a receiver does not see |
| Frames.DatagramCutShort | interop/python/live_runner.py:528-537 | Any printed frames followed by a datagram that declares more than remains: all of them are accepted, in order, the last with its data cut short |
| Frames.DatagramWhole | interop/python/live_runner.py:528-537 | A datagram that is read has its declared size exactly when it ends inside the payload |
| Frames.StreamWhole | interop/python/live_runner.py:509-527 | The same for a stream frame with a declared size; one without takes all that is left |
| Frames.WholeExactly | interop/python/live_runner.py:494-544 | Any frame that is read is whole exactly when it ends inside the payload |
| Frames.OnlyLastCut | interop/python/live_runner.py:491-545 | In every accepted payload each frame but the last is whole, and the last exactly when the cursor does not end past the payload |
| Frames.PayloadWholeExactly | interop/python/live_runner.py:491-545 | So an accepted payload has no frame cut short exactly when its last frame does not reach past the end |
| ReceivedFrames.ParseReceived | interop/python/live_runner.py:491-545 | Any sequence of frames in any of their forms, with offsets, openings, expirations, further ranges and flow control, is parsed into what the frames report, in order |
| ReceivedFrames.UnknownRefused | interop/python/live_runner.py:509-544 | A frame of any other kind, or a stream frame with reserved flags, is refused |
| ReceivedFrames.LastStream | interop/python/live_runner.py:509-527 | A stream frame without a length takes all that is left, and is refused if it announces an opening |
| PacketProtection.NonceInjective | interop/python/verify_vectors.py:91-96 | Packet numbers below 2^64 never share a nonce under one vector |
| PacketProtection.FoldNumber | interop/python/verify_vectors.py:91-96 | The in-place loop over the vector's last eight octets gives the nonce |
| PacketProtection.CipherSound | interop/python/live_runner.py:204-211 | Sealing under a traffic secret and a packet number is undone by opening whenever the primitive's is |
| PacketProtection.FormBitKept | interop/python/live_runner.py:229-233 | Masking the first octet keeps its form bit |
| LongPackets.HandshakeRoundTrip | interop/python/live_runner.py:286-290 | Building a Handshake packet fails only on its bounds, and parsing recovers connection ids and payload, for every key and packet number |
| LongPackets.InitialRoundTrip | interop/python/live_runner.py:236-243 | The same for a sealed Initial packet |
| LongPackets.BuildInitial | interop/python/live_runner.py:236-243 | The padding loop ends with a packet of exactly max(1200, unpadded length) octets, which parses to the ids and the payload followed by the zeros added |
| LongPackets.NoLengthSkipped | interop/python/live_runner.py:236-243 | The growing length field never makes the padding step over 1200 |
| LongPackets.ParseProtected | interop/python/live_runner.py:251-283 | Parsing a protected long packet undoes both masks and opens what was sealed, with or without the packet number in the length |
| ShortPackets.ShortRoundTrip | interop/python/live_runner.py:440-467 | Parsing a short packet with a connection id of eight octets recovers packet number and payload, for every key, path id and packet number of two octets, and building fails only on the bounds of the last two |
| ShortPackets.AlignedRoundTrip | interop/python/live_runner.py:440-467 | The same for connection ids of any length after whose first eight octets the rest of the id and the path id are together a number in shortest form |
| ShortPackets.CursorExactly | interop/python/live_runner.py:452-463 | That condition is exact: only then the number read after eight octets ends where id and path end |
| ShortPackets.VectorRoundTrip | interop/python/verify_vectors.py:107-147 | So does the vector checker the payload, although it takes only the width of the path id |
| ShortPackets.SuiteRoundTrip | interop/python/live_runner.py:440-467 | The same from the primitives up, and no other packet number has that nonce |
| AcceptedPackets.ShortExactly | interop/python/live_runner.py:452-467 | Under an authentic cipher a short packet is accepted exactly when it protects what parsing returns: some first octet, an id of eight octets, a path, a number of two octets and the payload |
| AcceptedPackets.LongExactly | interop/python/live_runner.py:251-283 | Under an authentic cipher a long packet is accepted exactly when it protects what parsing returns behind a first octet with the form bit, four octets of version, which may be any, and fields whose length counts the rest of the packet |
| Formats.VarintSamples | interop/python/live_runner.py:48-76 | The variable-length numbers are those of section A.1 of RFC 9000 |
| Formats.Base128Samples | bindings/python/umc_pb2.py:12-20 | The numbers of the protobuf encoding, least significant group first, on the samples of its documentation |
| Formats.FrameOctets | interop/python/live_runner.py:470-488 | The octets of a stream, a datagram and an ack frame |
| Formats.HandshakeOctets | interop/python/live_runner.py:286-290 | The octets of a Handshake packet: first octet, version, ids, empty token, length, number and ciphertext, with both masks applied |
| Formats.InitialOctets | interop/python/live_runner.py:236-243 | The octets of an Initial packet, whose length does not count the packet number |
| Formats.ShortPacketOctets | interop/python/live_runner.py:440-449 | The octets of a short packet |
| Formats.HelloOctets | interop/python/live_runner.py:100-127 | The octets of a hello and of the capability list whose digest it carries |
| Formats.NonceAt | interop/python/verify_vectors.py:91-96 | The nonce keeps four octets of the vector and folds the number, most significant octet first, into the other eight |
| Formats.CipherParts | interop/python/verify_vectors.py:83-119 | Sealing uses the packet key, the nonce of the number and the context; the header mask is that of the first 16 octets sealed |
| Formats.XorAt | interop/python/verify_vectors.py:91-96 | Each bit of the exclusive or tells whether the bits differ |
| Formats.HandleAt | bins/umcd/src/application_data.rs:845-852 | A stream handle is its counter value and then the next one, each as eight octets, most significant first |
| Formats.StoredOctets | bins/umcd/src/control_transport.rs:317-340 | The storage key and the row of a stored answer: prefix, digest of the four parts each after its length, and number and record sealed for that key |
| Formats.EventKeyAt | bins/umcd/src/event_log.rs:145-149 | The key of an event row is its number in twenty decimal digits, most significant first |
| Formats.ArchiveOctets | bins/umcd/src/backup.rs:189-226 | The octets of an archive |
| Protobuf.ReadBase128Inverts | bindings/python/umc_pb2.py:12-33 | Reading inverts printing exactly on the numbers below 2^70 |
| Protobuf.Print | bindings/python/umc_pb2.py:12-20 | The printing loop gives the base-128 form, of a negative number modulo 2^64 |
| Protobuf.Read | bindings/python/umc_pb2.py:23-33 | The shifting loop reads at most ten groups and fails on more or on a missing last octet |
| Protobuf.SignedMasked | bindings/python/umc_pb2.py:36-37 | The 64-bit mask is undone exactly on the signed 64-bit range and on larger numbers with bit 63 clear |
| Protobuf.SplitPrinted | bindings/python/umc_pb2.py:40-67 | Splitting any concatenation of printed fields gives those fields |
| Protobuf.Fields | bindings/python/umc_pb2.py:40-67 | The loop over fields computes the split, or fails with the first bad field |
| Messages.EncodeMessage | bindings/python/umc_pb2.py:1446-1453 | The loop that appends the fields of one entry after another gives the encoding |
| Messages.DecodeMessage | bindings/python/umc_pb2.py:1455-1471 | The loop over the fields gives the decoded message, or fails with the first field that does |
| MessageRoundTrip.RoundTrip | bindings/python/umc_pb2.py:70-95 | For every message table with distinct numbers and every well-formed message, decoding the encoding gives the message without the parts that encode to nothing |
| MessageRoundTrip.EncodeNormalised | bindings/python/umc_pb2.py:70-95 | Those parts leave no trace: the normal form has the same octets |
| MessageRoundTrip.EncodeInjective | bindings/python/umc_pb2.py:70-95 | Two well-formed messages have the same octets exactly when they have the same normal form |
| DecodedMessages.DecodedExactly | bindings/python/umc_pb2.py:40-68 | Octets are decoded exactly when they split into fields of which every one that an entry bears, by number and wire type, is acceptable: a text in UTF-8, a submessage that decodes; the last field then decides a single entry and a repeated one has an element for each field, in order, whatever unknown fields stand between |
| DecodedMessages.FoldExactly | bindings/python/umc_pb2.py:1446-1471 | The same of any sequence of fields |
| DecodedMessages.BadFieldsRefused | bindings/python/umc_pb2.py:40-68 | Field number 0, a wire type other than 0, 1, 2 and 5, and a field that goes past the end are refused; the others keep their number and wire type |
| MessageRoundTrip.FoldOne | bindings/python/umc_pb2.py:1455-1471 | Fields of one entry change nothing but that entry |
| ControlMessages.EnvelopeGood | bindings/python/umc_pb2.py:1446-1471 | The tables of the envelope and every message inside it are well formed |
| ControlMessages.EnvelopeRoundTrip | bindings/python/umc_pb2.py:1446-1471 | Every envelope with its hello, request or response survives encoding and decoding up to its normal form, and encodes again to the same octets |
| ControlOctets.EncodeOctets | bindings/python/umc_pb2.py:70-95 | For every table and message the encoding is the octets of its entries, one after the other: tag, and number or length and content, with nothing for what is zero, empty or absent |
| ControlOctets.TagsOfTables | bindings/python/umc_pb2.py:1197-1471 | The tag octets of every table of the control messages, in the order in which the fields are written |
| ControlOctets.TagOctet | bindings/python/umc_pb2.py:12-20 | Each of these tags is a single octet on the wire |
| ControlOctets.KindsOfTables | bindings/python/umc_pb2.py:1197-1471 | The kinds of the entries of every table and the tables inside them |
| ControlOctets.RequestOctets | bindings/python/umc_pb2.py:1295-1335 | A request on the wire, octet by octet: 08 and the id, 12 and the service, 1A and the method, 20 and the deadline, 2A and the key, 32 and the payload |
| ControlOctets.ResponseOctets | bindings/python/umc_pb2.py:1395-1423 | A response on the wire: 08 and the id, 12 and the octets of the status, 1A and the payload, 20 and the time |
| Archive.ParseMembersExact | bins/umcd/src/backup.rs:228-265 | Accepted octets are exactly the serialisations of the lists of 1 to 16384 members within bounds |
| Utf8Forms.ValidExactly | bins/umcd/src/backup.rs:245-248 | Octets are taken for text exactly when they encode a sequence of Unicode scalar values, each in its shortest form |
| Archive.MemberExact | bins/umcd/src/backup.rs:239-251 | A member is accepted exactly when its two lengths, its UTF-8 path and its data stand printed in order and within bounds |
| Codecs.FixedExact | bins/umcd/src/backup.rs:267-279 | Fixed-width big-endian integers are accepted exactly when all their octets are there |
| ArchiveRoundTrip.DecodeArchive | bins/umcd/src/backup.rs:228-265 | The cursor loop that writes each member as it is read computes the directory or fails with the first failure |
| ArchiveRoundTrip.DecodeExact | bins/umcd/src/backup.rs:228-265 | Decoding yields a directory exactly when the octets serialise a member list within bounds whose writing yields it |
| ArchiveRoundTrip.EncodeArchive | bins/umcd/src/backup.rs:189-226 | The appending loop computes the archive or fails with the first failure |
| ArchiveRoundTrip.EncodeExact | bins/umcd/src/backup.rs:189-226 | Encoding gives the serialisation, and fails exactly on too many files, an unsafe or long path, or the size bound |
| ArchiveRoundTrip.RoundTrip | bins/umcd/src/backup.rs:189-265 | Decoding the encoding of any directory of plainly named files gives that directory, unless it is empty, which decoding refuses |
| ArchiveRoundTrip.FormatCodecs | bins/umcd/src/backup.rs:267-279 | Four and eight octets hold every count, length and size of the format |
| ArchiveRoundTrip.FormatRoundTrip | bins/umcd/src/backup.rs:189-265 | So the round trip holds in the format itself, for every directory of plainly named files but the empty one |
| ArchivePaths.SafeExactly | bins/umcd/src/backup.rs:426-440 | A path is safe exactly when it does not start at the root and no piece between slashes is two dots |
| ArchivePaths.WrittenExactly | bins/umcd/src/backup.rs:236-260 | Members are written exactly when every path is safe and names a file and no two members meet or lie one below the other; the directory then holds each member's data at its place and nothing else |
| ArchivePaths.DecodedTree | bins/umcd/src/backup.rs:228-265 | Whatever octets decode, the directory is one of plainly named files inside the root, none below another |
| ArchivePaths.DecodedAgain | bins/umcd/src/backup.rs:189-265 | So decoding, encoding what was found and decoding again changes nothing |
| ArchivePaths.ResolvedPath | bins/umcd/src/backup.rs:426-440 | Where a safe path to a file leads is itself such a path, has the same names in the same order, and leads to itself |
| StagedRestore.SuccessInstalls | bins/umcd/src/backup.rs:545-599 | If all succeeds each target holds the backup's content and each staged name the original that existed |
| StagedRestore.FailureRestores | bins/umcd/src/backup.rs:588-598 | If install, verification or anchor fails and the rollback's operations succeed, each target that existed has its content back, and one that did not has what installing it left there |
| StagedRestore.FailureRestoresAll | bins/umcd/src/backup.rs:654-670 | All three targets are then as before exactly when installing failed cleanly, or was not tried, at each target that did not exist |
| StagedRestore.RollbackSafeExactly | bins/umcd/src/backup.rs:652-670 | A rollback whose operations succeed restores all three targets, whatever failed before, exactly when all three existed |
| StagedRestore.RollbackLeavesInstalled | bins/umcd/src/backup.rs:652-670 | An instance for every disk without some target: verification fails, and after the rollback that target holds the backup's content |
| StagedRestore.SidecarsGone | bins/umcd/src/backup.rs:582-586 | Sidecars removed after staging do not come back with a rollback |
| StagedRestore.StagingFailure | bins/umcd/src/backup.rs:566-581 | A failure while staging is not rolled back: the live targets are as before exactly when it is the first existing target that cannot be staged |
| StagedRestore.StagingSafeExactly | bins/umcd/src/backup.rs:566-581 | A failure while staging leaves the live targets as before, whatever fails, exactly when at most one of them exists |
| StagedRestore.StagingCanStrand | bins/umcd/src/backup.rs:566-581 | An instance for every disk with two targets: the second cannot be renamed after the first was, and the first stays away |
| StagedRestore.OriginalNeverLost | bins/umcd/src/backup.rs:545-670 | Whatever fails and wherever in one swap, rollback included, each original is afterwards at its live or at its staged name |
| StagedRestore.CopySurvivesExactly | bins/umcd/src/backup.rs:565-581 | A copy is still live or staged after every swap exactly when it was live, or staged with nothing live |
| StagedRestore.OriginalSurvivesTwoSwaps | bins/umcd/src/backup.rs:565-581 | Over two swaps with the live names changed between them, the original survives every second one exactly when it is live again, or staged with nothing live |
| RestoreOutcomes.SwapExactly | bins/umcd/src/backup.rs:545-670 | For all faults, any disk and every target: the outcome of the swap, and what is afterwards at the target's live and at its staged name, in closed form |
| StagedRestore.RestoreDisk.Stage | bins/umcd/src/backup.rs:565-581 | The staging loop on the disk; the whole new disk, the targets renamed and whether it finished |
| StagedRestore.RestoreDisk.Install | bins/umcd/src/backup.rs:605-622 | The copies in order up to the first failure; the whole new disk |
| StagedRestore.RestoreDisk.RollBack | bins/umcd/src/backup.rs:654-670 | Removal and renaming back of each staged target, carrying on after failures; the whole new disk |
| StagedRestore.RestoreDisk.Swap | bins/umcd/src/backup.rs:545-599 | The whole swap; the whole new disk and its outcome |
| Authority.CoversReflexive | bins/umcd/src/control_authorization.rs:668-681 | Covering is reflexive on grants with a valid expiry |
| Authority.CoversTransitive | bins/umcd/src/control_authorization.rs:668-681 | Covering of capability, expiry and constraints is transitive |
| Authority.CoverMeansAllow | crates/umc-control/src/grants.rs:67-109 | A covering grant allows whatever the covered one allows, at every time and for every endpoint |
| Authority.AuthorizedIsCovered | bins/umcd/src/control_authorization.rs:627-666 | Every grant of an authorised creation is covered by a delegable grant of the issuer |
| Authority.AuthorizedExactly | bins/umcd/src/control_authorization.rs:627-681 | A creation is authorised exactly when the token's expiry is valid and each of its grants has a known capability and is backed by a grant of the issuer with that capability that is delegable, alive at that moment, lasts as long, and is unconstrained, for all resources or under the same constraints |
| Authority.InvalidExactly | bins/umcd/src/control_authorization.rs:627-666 | It is invalid, rather than denied, exactly for a bad expiry or an unknown capability after grants that pass |
| Authority.ExpiredCreatesNothing | bins/umcd/src/control_authorization.rs:627-666 | An issuer all of whose delegable grants have run out creates no token with a grant |
| Authority.ReissueSucceeds | bins/umcd/src/control_authorization.rs:627-666 | A delegable grant that is alive can be passed on as it is, delegable or not |
| Authority.CreatedExactly | bins/umcd/src/server.rs:887-915 | An authorised creation that is stored yields a new token with exactly the grants asked for, issued by its maker, and changes no other token |
| Authority.RevokedExactly | bins/umcd/src/server.rs:965-982 | A token is revoked exactly from its revocation on, and is then allowed nothing, whatever happens afterwards |
| Authority.HistoryInv | bins/umcd/src/server.rs:887-915 | In every history of creations and revocations each token's grants are covered by delegable grants of its issuer |
| Authority.ChainCovered | bins/umcd/src/control_authorization.rs:627-681 | Along any chain of creations every grant at the end is covered by a delegable grant at the beginning |
| Authority.NothingGained | bins/umcd/src/control_authorization.rs:627-681 | So whatever a descendant is allowed at any time and for any endpoint, the root of its chain was given |
| DecimalKeys.KeyOrder | bins/umcd/src/event_log.rs:145-149 | Twenty-digit zero-padded keys are ordered as their numbers |
| DecimalKeys.ParseKey | bins/umcd/src/event_log.rs:98-107 | A key is read back as its number |
| DecimalKeys.ParseExactly | bins/umcd/src/event_log.rs:101-106 | A key has a number exactly when it spells it in decimal digits, with zeros in front and after a plus sign or not, and the number has 64 bits |
| AuditRing.PersistMirrors | bins/umcd/src/event_log.rs:145-166 | Writing an event and deleting the one that falls out leaves exactly the rows of the last min(n, 10000) events beside the rows of others |
| AuditRing.LoadMirror | bins/umcd/src/event_log.rs:88-121 | Loading rows in key order gives the last min(n, 10000) events, oldest first, and the number of the newest, whatever other rows the namespace holds |
| AuditRing.RunFollows | bins/umcd/src/event_log.rs:88-172 | Over any sequence of events, writes by others to the namespace and restarts that each find at most 10000 events recorded or a ring of at most 10000, the ring holds the last events recorded, and the rows mirror them beside those of others |
| AuditRing.RunFollowsExactly | bins/umcd/src/event_log.rs:88-172 | For rings of every size: memory and rows follow the history at every point of a run exactly when all its restarts are of that kind |
| AuditRing.LargeRingForgets | bins/umcd/src/event_log.rs:88-121 | A ring of any size above 10000 into which any events, more than 10000 of them, were recorded over an empty store holds more than 10000, and after a restart exactly 10000 |
| AuditRing.OtherMirrors | bins/umcd/src/event_log.rs:98-107 | A row without a number, written or deleted by others, leaves the event rows in step |
| AuditRing.StartFollows | bins/umcd/src/event_log.rs:60-68 | A new ring over a store with only rows of others starts in step with the empty history |
| AuditRing.DecimalSound | bins/umcd/src/event_log.rs:145-149 | The daemon's keys and JSON rows meet what the results about the ring assume of the format |
| AuditRing.RestartExact | bins/umcd/src/event_log.rs:169-172 | A restart answers every query for recent events as before exactly when the ring or the history has at most 10000 events |
| AuditRing.RecentNewest | bins/umcd/src/event_log.rs:169-172 | A query for k events gives min(k, n) of the n in the ring, the newest first |
| AuditFaults.PushesExactly | bins/umcd/src/event_log.rs:145-166 | For any ring and any pushes, whether or not the store took them: the numbers go on by one, and the row of each number is there exactly as its own write and its own deletion, 10000 numbers later, left it |
| AuditFaults.PushesLog | bins/umcd/src/event_log.rs:124-139 | Memory then holds the last events pushed, whatever the store did |
| AuditFaults.PushesKeepOthers | bins/umcd/src/event_log.rs:145-166 | Rows without a number stay as they are |
| AuditFaults.RestoredExactly | bins/umcd/src/event_log.rs:88-121 | Whatever rows the store lists and whatever the ring holds: the events read back are added in their order and the last of all are kept, and the next number exceeds the ring's own and that of every numbered row, corrupt ones included |
| AuditFaults.PlacesExactly | bins/umcd/src/event_log.rs:98-113 | The events read back are those of exactly the rows with a number that are no tokens and decode, in the order of the scan |
| SharedNamespace.RowsOfOthers | bins/umcd/src/event_log.rs:98-107 | Token and idempotency rows in the shared namespace have no number and are passed over |
| SharedNamespace.AuditKeepsCache | bins/umcd/src/control_transport.rs:193-246 | Audit rows written or deleted beside it leave the idempotency cache and its rows in agreement |
| DaemonEvents.DaemonEvents.Push | bins/umcd/src/event_log.rs:125-140 | Persists, appends and trims; the whole new log, counter and rows, with either store operation failing or not |
| DaemonEvents.DaemonEvents.RestorePersisted | bins/umcd/src/event_log.rs:88-121 | The loop over scanned rows; the whole new log and counter |
| DaemonEvents.DaemonEvents.RecentEvents | bins/umcd/src/event_log.rs:169-172 | The newest events first |
| RelayLink.EveryInterleaving | bins/umcd/src/relay_link.rs:133-157 | For every interleaving of threads at most one opening frame is injected and data frames reach the bus in strictly increasing order without duplicates |
| RelayLink.RunInv | bins/umcd/src/relay_link.rs:133-157 | One opener, one holder of the lock, and a number in hand that follows all numbers on the bus, in every reachable state |
| RelayLink.NeverOpensAgain | bins/umcd/src/relay_link.rs:133-136 | A link that starts opened never injects an opening frame |
| RelayLink.SequentialTrace | bins/umcd/src/relay_link.rs:133-157 | Sends one after the other put the opening frame first and then data frames 0, 1, 2 and so on |
| RelayLink.SendOneIsRun | bins/umcd/src/relay_link.rs:133-157 | A sequential send is the seven atomic steps in order |
| RelayLink.DataCanComeFirst | bins/umcd/src/relay_link.rs:134-140 | An interleaving of two threads in which a data frame precedes the opening frame |
| RelayLink.CalmExactly | bins/umcd/src/relay_link.rs:134-140 | Before the first frame, a step is one that neither begins a send while another is opening nor fails to open exactly when the opening frame comes first in every continuation made of such steps |
| RelayLink.DisciplineExactly | bins/umcd/src/relay_link.rs:134-140 | A run has the opening frame first, in every continuation made of such steps from each of its points, exactly when every step before the first frame is one of them |
| RelayLink.OrderedWhateverExactly | bins/umcd/src/relay_link.rs:134-140 | With no such restriction on what follows, the opening frame is first in every continuation exactly when it is on the bus already |
| RelayLink.NoMoreOpening | bins/umcd/src/relay_link.rs:134-136 | Once the flag is set and nobody is opening, no opening frame follows in any interleaving |
| RelayLink.FailedOpeningIsFinal | bins/umcd/src/relay_link.rs:134-136 | After an opening frame that could not be encoded or injected no opening frame is ever injected, in any interleaving |
| RelayPackets.PacketsConserved | bins/umcd/src/relay_link.rs:133-157 | In every interleaving each packet that was begun is on the bus, on its way, or failed, as often as it was begun: none is lost or doubled |
| RelayPackets.FailedSendEnds | bins/umcd/src/relay_link.rs:133-157 | A send that fails leaves its thread idle, the bus and the counter as they were, and the lock free if the thread had it |
| RelayPackets.DeliveredSendEnds | bins/umcd/src/relay_link.rs:141-157 | A send whose frame reaches the bus put its packet there with the number it took, while it held the lock, and lets go of it |

## Left out

* Sockets, pipes, the asynchronous runtime, metrics, the command line, logging, doctor and LAN discovery: input and output.
* The insides of ciphers, digests, signatures and key derivation: they are arguments.
* The Rust handshake responder and Initial handling, `connect`, relay selection, route probing, bundles, event
  subscriptions, DHT tables and carrier lifecycle: they depend on code that is not part of this model.
* The Go and TypeScript clients and the remaining Python message classes: they repeat the table-driven protobuf codec.
* Read-only accessors of the data plane (`bins/umcd/src/application_data.rs:191-197`, 487-489, 693-746): each returns a
  field of a record whose value after every operation the model gives.
* Printers for the peer's padding, ping and flow-control frames: the peer has none; its parser's branches for them are modelled.
* Text is held as UTF-8 octets; Python strings that cannot be encoded are not modelled.
* The two tokens of a protobuf ClientAuthentication are held as token submessages; an empty token is an absent one.
* File system details of the archive: symbolic links, name length limits, names with backslashes or invalid UTF-8, and
  failures of reading and writing other than an occupied or unusable path; sorting the file list is a library call, so
  encoding takes any listing in path order.
* What opening the restored database during verification writes, and the restore anchor's own files.
* Publication of audit events on the event bus.
* Token lifetimes kept by the token registry, the development token and the local operator without a token: delegation
  compares grants only.
* Poisoned locks, receiving and closing on a relay link.
- PlaneRuns.ReachableInv: for fewer than 2^64 - 1 operations, because the handle counter saturates; PlaneRuns.SaturatedCounterReusesHandle shows what happens there.
- PlaneRuns.PendingBounded: sessions bound directly as pending are counted on top of the 256, because binding does not check the bound.
- ReplayedResponse.RebindChangesOnlyId: the envelope is decoded and encoded by its table in the Python binding, where a response that encodes to nothing is an absent one; the generated Rust codec, which keeps such a response and lets the last of several bodies win, is not part of this model.
- RestartedWorlds.AtMostOnceThroughRestarts: for store operations that succeed, because an answer whose row was not written does not come back; and for scans that succeed.
- ReplayedResponse.ReplayedOctets: in the octets of the Python binding's table, as RebindChangesOnlyId.
- RelayLink.DisciplineExactly: for runs in which every step is taken, because a step that is not enabled changes nothing and is neither kind.
- RegistrationInvariant.HistoryInv: for fewer than 2^64 - 1 events, for the same counter, and for connections with an id that is not empty, as every live one has; the empty id marks a suspended application and only unit tests pass it.
- ControlRuns.EffectsInSequence: for sequence numbers below the 64-bit maximum, where the expected next number saturates.
- ShortPackets.ShortRoundTrip: for connection ids of eight octets, because the parser fixes that length; ShortPackets.AlignedRoundTrip and ShortPackets.CursorExactly say which other ids it reads.
- Codecs.PairExact: states exactness for cursors that end inside the input, because runs of octets are sliced without a bounds check.
- MessageRoundTrip.RoundTrip: for texts in UTF-8, signed numbers of 64 bits and unsigned numbers and lengths below 2^70; Protobuf.ReadBase128Inverts and Protobuf.SignedMasked show these bounds are exact.
- AuditRing.RunFollows: for fewer than 2^64 events and for restarts in time; AuditRing.RunFollowsExactly shows that this condition on restarts is exact.
- ControlLaws.SameKeyExactly: for connection ids of sixteen octets, as the daemon draws them; an id of eight octets could be the octets of a principal.
- IdempotencyFaults.RestoredExactly: for live rows with different keys, as every sequence of insertions leaves them.
- RelayLink.EveryInterleaving: for fewer than 2^64 - 1 steps, because the sequence counter saturates.
- StagedRestore.FailureRestores: the database's sidecars and stale staged copies are not restored; StagedRestore.SidecarsGone says so.
