# krot, modelled and proved in Dafny

krot is a tunnel relay: clients behind a firewall keep one authenticated
connection to a public server and get public ports and host names forwarded
over it. This project models the parts whose correctness lives across
functions, and proves what they promise for every input, every interleaving
and every run.

- **The TCP mux** (`MuxWire`, `MuxHalves`, `MuxSystem`, `MuxInvariant`,
  `MuxRuns`, `MuxCalls`, `MuxBuffers`, `MuxRefinement`, `MuxCompleteness`,
  `MuxDraining`, `MuxConn`). Two endpoints and two byte pipes as a transition
  system whose steps are opens, accepts, writes, finishes, closes, partial
  writes to a pipe, partial reads from it, frame dispatch, reads of any size,
  drops and the loss of the connection. Every run refines independent FIFO
  byte streams, and every call on a stream that is open is served. The classes
  of `MuxConn` are the program's objects, their methods proved against the
  same value functions.
- **The tunnel registry and its resume lease** (`Registry`, `RegistryTable`,
  `Sessions`, `SessionRuns`, `SessionLeases`, `SessionCaps`, `SessionRaces`,
  `SessionTask`, `SessionAnswers`).
  Allocation and publication are separate critical sections, so the system of
  sessions, reaper and clock carries the reservations in between.
  `RegistryTable` is the shared table as a class; `SessionTask` is the session
  loop and the end-of-connection handling, shown to answer every frame by steps
  of that system; `SessionAnswers` says what those steps do to the table.
- **Quota metering** (`Quota`, `QuotaRuns`, `Metering`). Any number of copiers
  share a counter whose reset and add are separate atomic steps.
- **Framing** (`Framing`): the base-128 length prefix in slice and streaming
  form.
- **The ClientHello parser, peek and replay** (`ClientHello`, `SniPeek`).
- **`authorized_keys`** (`Text`, `KeyLine`, `KeyMeaning`, `KeySeparators`,
  `KeyGrammar`, `KeyFile`, `KeyStore`): the option grammar and the agreement of
  file and memory.
- **The login gate** (`Login`, `Location`, `LoginSessions`): redirect, where a
  browser takes it, form, sessions.

`Bytes`, `Pieces` and `Sockets` hold what these share: fixed-width integers,
splitting at a separator, and byte sources that may cut a read anywhere.

Five promises of the program do not hold without a condition. Each is stated
as an if-and-only-if over all inputs or runs, with the inputs that break it:
the quota (`QuotaRuns.QuotaSafeIff`, `QuotaRuns.WrapReached`), the connection
cap (`SessionRaces.CapIff`, `SessionRaces.BoundReached`), the mixture of
option separators (`KeyGrammar.OptionsReadIff`, `KeyGrammar.CapReadIff`), the
agreement of key file and memory (`KeyFile.AppendAgreesIff`,
`KeyFile.HintBreaksAgreement`) and the redirect guard (`Location.SafeNextIff`,
`LoginSessions.RedirectsLeaveIff`).

## Conventions

- State the program updates in place is a class field; each method is proved
  against a function of the old state, and the theorems are about those
  functions. Concurrent parts are transition systems; a run is a sequence of
  worlds with the events between them.
- Opaque tokens (connections, listeners, abort handles, keys in the registry)
  are numbers. Time is a number that only grows.
- Library behaviour is a parameter: the message serialiser (`Framing.Codec`),
  base64 (`KeyLine.Decoder`), UTF-8 decoding with lower-casing
  (`ClientHello.Lowering`), lossy UTF-8 (`Login.Charset`), the random login
  token. Where a theorem needs something of it, it says so in a `requires`:
  decoding inverts encoding, ASCII is lowered letter by letter, valid UTF-8 is
  left alone.
- A `Location` is resolved as the URL Standard of the WHATWG prescribes for an
  http page; an address with a scheme counts as off the site.
- 32- and 64-bit counters wrap explicitly: stream ids, the DATA length field,
  the quota counter and its comparison (as in the release build).

Where code and comments of the program disagree the model follows the code:
rounding a bandwidth up to whole bytes per second can exceed the declared cap
(`Metering.RateRoundsUp`), although the comment says it never does; and the
per-worker shares exceed the total when there are more workers than bytes per
second (`Metering.SplitWithinIff`). A resume of a TCP lease is looked up by
session alone, and a wrong key is then an identity mismatch, although the
comment speaks of session and key (`Registry.TryResume`).

To verify everything: `dafny verify dfyconfig.toml`.

## Model

| member | source | states |
|---|---|---|
| `MuxWire.ToBytes` | crates/krot-proto/src/mux.rs:69-75 | the header array holds flag, stream id and length, the two numbers little-endian |
| `MuxWire.DecodeEncode` | crates/krot-proto/src/mux.rs:79-100 | decoding inverts encoding on exactly the admissible headers (FIN empty, OPEN of nine bytes); all others are rejected |
| `MuxWire.EncodeDecode` | crates/krot-proto/src/mux.rs:79-100 | an accepted header has one spelling: re-encoding gives the bytes it was read from |
| `MuxWire.HeaderErrors` | crates/krot-proto/src/mux.rs:79-100 | which error each rejected header gets, and with what number |
| `MuxWire.PrefixYieldsFramePrefix` | crates/krot-transport/src/tcp_mux.rs:406-470 | cut the bytes of any emitted frames anywhere: the frames dispatched are a prefix of the frames sent |
| `MuxWire.ArrivedIsMaximal` | crates/krot-transport/src/tcp_mux.rs:406-470 | that prefix is as long as it can be: the next frame is incomplete or refused |
| `MuxWire.RefusedIff` | crates/krot-transport/src/tcp_mux.rs:411-446 | the reader gives up exactly on an undecodable header, an OPEN of Control or DATA above 256 KiB, and otherwise waits for exactly the bytes still missing |
| `MuxWire.WireRoundTrip` | crates/krot-transport/src/tcp_mux.rs:406-493 | frames within the payload cap come back from their bytes frame for frame |
| `MuxWire.DataSurvivesIff` | crates/krot-transport/src/tcp_mux.rs:439-446 | a write below 4 GiB, sent as one DATA frame, survives the wire exactly when it is at most 256 KiB |
| `MuxHalves.ReadTakesNext` | crates/krot-transport/src/tcp_mux.rs:659-690 | a read of any buffer size hands out the next bytes of the stream and keeps the rest in order |
| `MuxHalves.ReadIff` | crates/krot-transport/src/tcp_mux.rs:659-690 | which of leftover, channel and end-of-stream a read is served from, how much of it, and when it waits |
| `MuxHalves.WriteAccepts` | crates/krot-transport/src/tcp_mux.rs:560-624 | a write is refused exactly on a finished half or a closed mux; otherwise all of it is taken, and held bytes plus new bytes are the payloads sent, OPEN first, plus the bytes held then |
| `MuxHalves.FinishSends` | crates/krot-transport/src/tcp_mux.rs:519-556 | a finish emits, once, the owed OPEN padded with zeros and then the FIN |
| `MuxConn.Inner.constructor` | crates/krot-transport/src/tcp_mux.rs:131-185 | a fresh endpoint: Control registered on both sides, queued on the server, held back on the client |
| `MuxConn.Inner.MintStreamId` | crates/krot-transport/src/tcp_mux.rs:396-401 | ids advance by two on a wrapping 32-bit counter |
| `MuxConn.Inner.OpenBi` | crates/krot-transport/src/tcp_mux.rs:282-330 | the first open of a client hands out Control; any other mints an id, registers a fresh channel and owes an OPEN; a closed mux refuses and changes nothing |
| `MuxConn.Inner.AcceptBi` | crates/krot-transport/src/tcp_mux.rs:342-375 | the oldest waiting stream is handed out, primed with its OPEN payload unless it is Control |
| `MuxConn.Inner.Close` | crates/krot-transport/src/tcp_mux.rs:379-385 | a close refuses opens and writes from then on and puts its mark behind what is queued, once |
| `MuxConn.Inner.Dispatch` | crates/krot-transport/src/tcp_mux.rs:419-468 | the effect of one frame on the stream table and the accept queue |
| `MuxConn.SendStream.PollWrite` | crates/krot-transport/src/tcp_mux.rs:560-624 | a write does what the value function says, which takes all of it unless the half is finished or the mux closed (`MuxHalves.WriteAccepts`); once the writer task is gone nothing is queued and a write that would queue is an error |
| `MuxConn.SendStream.FinishStream` | crates/krot-transport/src/tcp_mux.rs:519-556 | a finish pads an owed OPEN with zeros, then sends FIN, once; it is an error exactly when the FIN cannot be queued |
| `MuxConn.RecvStream.PollRead` | crates/krot-transport/src/tcp_mux.rs:659-690 | a read serves the leftover, then the channel, then end-of-stream |
| `MuxConn.RecvStream.Drop` | crates/krot-transport/src/tcp_mux.rs:649-656 | dropping a recv half removes its table entry and no other |
| `MuxConn.ReadOneFrame` | crates/krot-transport/src/tcp_mux.rs:411-446 | one frame is read exactly when the bytes hold a whole acceptable frame, and no byte more |
| `MuxConn.ReaderTask` | crates/krot-transport/src/tcp_mux.rs:406-473 | however the socket cuts its reads, the loop dispatches exactly the frames of the byte stream, queues exactly the streams they open, and then closes |
| `MuxConn.WriterTask` | crates/krot-transport/src/tcp_mux.rs:475-493 | what is queued before a close reaches the pipe as the concatenated frames, in order; when the connection breaks, exactly the frames before the first that breaks and the part of it that was written |
| `MuxConn.DeliverIsDispatchTable` | crates/krot-transport/src/tcp_mux.rs:419-468 | the transition system and the table the class keeps agree on every dispatched frame |
| `MuxInvariant.FreshOnOpen` | crates/krot-transport/src/tcp_mux.rs:307-315 | the id an open mints was never handed out, registered or met by the reader |
| `MuxInvariant.FreshOnPeerOpen` | crates/krot-transport/src/tcp_mux.rs:419-438 | a peer OPEN never names an id that is registered, waiting or handed out here |
| `MuxInvariant.OpenKeeps` | crates/krot-transport/src/tcp_mux.rs:282-330 | opening a stream keeps the joined invariant of both endpoints |
| `MuxInvariant.AcceptKeeps` | crates/krot-transport/src/tcp_mux.rs:342-375 | accepting a stream keeps it |
| `MuxInvariant.WriteKeeps` | crates/krot-transport/src/tcp_mux.rs:560-624 | writing keeps it: the frames sent tell exactly what was written |
| `MuxInvariant.FinishKeeps` | crates/krot-transport/src/tcp_mux.rs:519-556 | finishing keeps it, with the padded content |
| `MuxInvariant.DispatchKeeps` | crates/krot-transport/src/tcp_mux.rs:419-468 | dispatching keeps it: what was received is accounted for stream by stream |
| `MuxInvariant.ReadKeeps` | crates/krot-transport/src/tcp_mux.rs:659-690 | reading keeps it |
| `MuxInvariant.DropKeeps` | crates/krot-transport/src/tcp_mux.rs:649-656 | dropping a recv half keeps it |
| `MuxInvariant.CompleteIsNext` | crates/krot-transport/src/tcp_mux.rs:411-446 | a frame the reader completes is the next frame sent, byte for byte |
| `MuxRuns.StepKeeps` | crates/krot-transport/src/tcp_mux.rs:282-690 | every step of either endpoint or of the pipes, the loss of the connection included, keeps the invariant |
| `MuxRuns.InvAlways` | crates/krot-transport/src/tcp_mux.rs:282-690 | the invariant holds in every state of every run |
| `MuxRuns.MuxSafety` | crates/krot-transport/src/tcp_mux.rs:282-690 | in every run the bytes read on a stream are a prefix of the (padded) bytes the peer wrote on that same stream, in both directions |
| `MuxRuns.EofMeansAll` | crates/krot-transport/src/tcp_mux.rs:679-686 | a reader that has seen end-of-stream has read everything the peer wrote, padded if it finished early |
| `MuxRuns.ZeroReadMeansEof` | crates/krot-transport/src/tcp_mux.rs:665-690 | a read of zero bytes into a non-empty buffer happens only at end-of-stream |
| `MuxCalls.HandlesUsable` | crates/krot-transport/src/tcp_mux.rs:282-690 | in every run a handle the application holds can be used, and an open mux can be opened on and closed |
| `MuxCalls.WriteInRuns` | crates/krot-transport/src/tcp_mux.rs:560-624 | in every run a write on an unfinished stream of an open mux extends what was written by exactly the buffer; any other write changes nothing |
| `MuxCalls.FinishInRuns` | crates/krot-transport/src/tcp_mux.rs:519-556 | in every run a finish ends its stream once, at what was written, padded to nine bytes if the OPEN was owed |
| `MuxCalls.OpenInRuns` | crates/krot-transport/src/tcp_mux.rs:282-330 | in every run an open hands out a stream nobody held, Control to the first open of a client, and touches no other |
| `MuxCalls.AcceptInRuns` | crates/krot-transport/src/tcp_mux.rs:342-375 | in every run an accept hands out the stream that waited longest, its OPEN bytes ready to read |
| `MuxCalls.ReadInRuns` | crates/krot-transport/src/tcp_mux.rs:659-690 | in every run a read hands out the next bytes that wait, at least one if there are any and there is room, and ends exactly when nothing waits and the sender is gone |
| `MuxBuffers.ChannelsBounded` | crates/krot-transport/src/tcp_mux.rs:431-446 | in every run a channel holds at most 64 chunks |
| `MuxBuffers.LeftAlone` | crates/krot-transport/src/tcp_mux.rs:406-473 | in every run a reader that has ended sees nothing more, and nothing is queued for a dropped recv half |
| `MuxBuffers.DropInRuns` | crates/krot-transport/src/tcp_mux.rs:649-656 | in every run dropping a recv half takes its sender out of the table for good and touches no other stream |
| `MuxRefinement.StepRefines` | crates/krot-transport/src/tcp_mux.rs:282-690 | every step is a step, or none, of independent FIFO byte streams |
| `MuxRefinement.MuxRefinesFifos` | crates/krot-transport/src/tcp_mux.rs:282-690 | every run of the mux is a run of independent FIFO byte streams |
| `MuxRefinement.EofPermanent` | crates/krot-transport/src/tcp_mux.rs:670-672 | end-of-stream is permanent: nothing is read on that stream afterwards |
| `MuxCompleteness.ReaderNeverExits` | crates/krot-transport/src/tcp_mux.rs:439-446 | no reader refuses a frame of a peer whose writes are at most 256 KiB |
| `MuxCompleteness.MuxCompleteness` | crates/krot-transport/src/tcp_mux.rs:519-690 | with writes within the cap, a finished and drained stream has delivered exactly what was written and then ends |
| `MuxCompleteness.Progress` | crates/krot-transport/src/tcp_mux.rs:406-493 | no deadlock: while a sent frame is undispatched, the writer, the reader or the receiving application can act |
| `MuxCompleteness.MintParity` | crates/krot-transport/src/tcp_mux.rs:157-160 | minted ids keep the parity of their side and follow the counter |
| `MuxCompleteness.MintDistinctIff` | crates/krot-transport/src/tcp_mux.rs:396-401 | two opens of one side get distinct non-zero ids exactly within the range of the counter |
| `MuxCompleteness.NoStrayFrame` | crates/krot-transport/src/tcp_mux.rs:439-468 | every DATA or FIN a reader meets follows the registration of its stream |
| `MuxDraining.StepWork` | crates/krot-transport/src/tcp_mux.rs:406-493 | every step of the writer, the pipe or the reader uses up some of a bounded amount of work, which grows only when the sender emits a frame |
| `MuxDraining.DrainingEnds` | crates/krot-transport/src/tcp_mux.rs:406-493 | in every run, while a sender emits nothing its frames are carried on at most as often as there was work: draining ends |
| `MuxDraining.StandstillMeansDrained` | crates/krot-transport/src/tcp_mux.rs:406-493 | in every run within the cap, a standing connection on which nothing can be carried on, accepted or read has dispatched every frame sent |
| `MuxDraining.EofInRuns` | crates/krot-transport/src/tcp_mux.rs:679-686 | in every run, a reader at end-of-stream has read everything the peer wrote and the stream was finished |
| `MuxDraining.ZeroReadInRuns` | crates/krot-transport/src/tcp_mux.rs:665-690 | in every run, a read of zero bytes into a non-empty buffer happens only at the end of a finished stream |
| `MuxDraining.NoStrayInRuns` | crates/krot-transport/src/tcp_mux.rs:439-468 | in every run, a DATA or FIN dispatched belongs to a stream registered before |
| `Registry.PickFreePort` | crates/krot-server/src/registry.rs:455-469 | the lowest port of the pool that is free and allowed, or none if there is none |
| `Registry.PickedIff` | crates/krot-server/src/registry.rs:455-469 | a port is picked exactly when it is in the pool, unused and on the allowlist if there is one, and no lower one is |
| `Registry.IdsCycle` | crates/krot-server/src/registry.rs:449-453 | ids start at one, count up and come round to one; zero is never issued |
| `Registry.NoSharing` | crates/krot-server/src/registry.rs:82-90 | two tunnels never share an id, a port or a label |
| `Registry.ResolveAgreesWithScan` | crates/krot-server/src/registry.rs:201-214 | the reverse index answers what a scan for the Live HTTP tunnel of the label would |
| `Registry.ResumeSound` | crates/krot-server/src/registry.rs:296-368 | a re-attachment changes one tunnel, dangling under that session and key, in nothing but its lease; any other outcome changes nothing |
| `Registry.ResumeOutcomes` | crates/krot-server/src/registry.rs:296-368 | which resume is a mismatch, which re-attaches and with what, and that every other one is unknown |
| `Registry.FailedResumeChangesIff` | crates/krot-server/src/registry.rs:340-361 | without the listener invariant a failed resume would leave a swapped lease, exactly for a matching TCP tunnel without listener |
| `Registry.HttpResumeIff` | crates/krot-server/src/registry.rs:296-368 | an HTTP resume succeeds exactly when the label holds a tunnel dangling under that session and key |
| `Registry.TcpResumeIff` | crates/krot-server/src/registry.rs:296-368 | a TCP lease is resumed exactly when the label sent along names no HTTP tunnel |
| `RegistryTable.TunnelRegistry.constructor` | crates/krot-server/src/registry.rs:149-160 | an empty table counting ids from one |
| `RegistryTable.TunnelRegistry.FindPort` | crates/krot-server/src/registry.rs:455-469 | the loop finds the lowest free allowed port |
| `RegistryTable.TunnelRegistry.AllocateTcp` | crates/krot-server/src/registry.rs:166-173 | reserves that port and the next id, or changes nothing |
| `RegistryTable.TunnelRegistry.AllocateHttp` | crates/krot-server/src/registry.rs:179-186 | reserves an unused label and the next id, or changes nothing |
| `RegistryTable.TunnelRegistry.Publish` | crates/krot-server/src/registry.rs:189-195 | files the tunnel and indexes its label |
| `RegistryTable.TunnelRegistry.Resolve` | crates/krot-server/src/registry.rs:201-214 | looks a Live tunnel up by label |
| `RegistryTable.TunnelRegistry.RemoveLocked` | crates/krot-server/src/registry.rs:429-447 | removes one tunnel, frees exactly what it held and stops its accept task |
| `RegistryTable.TunnelRegistry.RemoveAllOwnedBy` | crates/krot-server/src/registry.rs:226-236 | removes every tunnel of the key, in any order, and stops their accept tasks |
| `RegistryTable.TunnelRegistry.ReapExpired` | crates/krot-server/src/registry.rs:269-285 | removes exactly the dangling tunnels whose deadline has passed, reports how many and stops no task |
| `RegistryTable.TunnelRegistry.MarkAllDangling` | crates/krot-server/src/registry.rs:245-265 | every live tunnel of the key gets the lease Dangling(now + grace), a running deadline stays, other keys' tunnels are untouched, and the accept tasks stopped are exactly those of the live ones |
| `RegistryTable.TunnelRegistry.FindTcpLease` | crates/krot-server/src/registry.rs:307-321 | finds a dangling TCP tunnel of the session if there is one, in table order |
| `RegistryTable.TunnelRegistry.Resume` | crates/krot-server/src/registry.rs:296-368 | the resume decision, with the lease swapped before the listener is looked at |
| `RegistryTable.TunnelRegistry.SetAbort` | crates/krot-server/src/registry.rs:372-379 | records the new accept task of a live tunnel; without one nothing changes |
| `RegistryTable.RecordedTaskStops` | crates/krot-server/src/registry.rs:372-379 | the recorded task is then exactly the one that removing or dropping the tunnel stops |
| `RegistryTable.TunnelRegistry.Count` | crates/krot-server/src/registry.rs:418-426 | counts the tunnels of a key, live or dangling |
| `SessionRuns.AllocateTcpKeeps` | crates/krot-server/src/registry.rs:166-173 | reserving a port keeps the registry invariant |
| `SessionRuns.AllocateHttpKeeps` | crates/krot-server/src/registry.rs:179-186 | reserving a label keeps it |
| `SessionRuns.PublishKeeps` | crates/krot-server/src/session.rs:490-504 | publishing turns a reservation into a tunnel and keeps it |
| `SessionRuns.BindFailedKeeps` | crates/krot-server/src/session.rs:571-584 | a failed bind leaves its port reserved, and the invariant says so |
| `SessionRuns.RemoveKeeps` | crates/krot-server/src/registry.rs:429-447 | removing any set of tunnels keeps it |
| `SessionRuns.DropKeeps` | crates/krot-server/src/server.rs:764-771 | a dropped session turns its key's tunnels dangling and keeps it |
| `SessionRuns.CloseKeeps` | crates/krot-server/src/server.rs:772-779 | any other end removes them and keeps it |
| `SessionRuns.RegistryInvariant` | crates/krot-server/src/registry.rs:166-285 | over every interleaving, used ports and labels are exactly those of tunnels plus reservations (plus ports of failed binds), nothing is shared, and every tunnel belongs to a session that has not ended for good |
| `SessionRuns.ClockInRuns` | crates/krot-server/src/registry.rs:245-285 | the clock deadlines are measured by is the time that has passed |
| `SessionRuns.NoResumeAfterBye` | crates/krot-server/src/server.rs:763-780 | once a session has ended by Bye, shutdown, revocation or error, no request naming it is ever answered by re-attachment |
| `SessionLeases.StepTunnel` | crates/krot-server/src/registry.rs:218-379 | a step removes a tunnel exactly when it unregisters it, ends its key for good or reaps it expired; otherwise only its lease changes: to now plus grace on a drop of its key, to the new connection on a claim, to the accept task recorded |
| `SessionLeases.StepAppears` | crates/krot-server/src/registry.rs:189-195 | a tunnel appears exactly when the session that reserved its id publishes it, with that session, key, port or label, connection and limits |
| `SessionLeases.DropStartsGrace` | crates/krot-server/src/server.rs:764-771 | in every run a drop sets the deadline of each live tunnel of the key to the time of the drop plus the grace period, and changes no other tunnel |
| `SessionLeases.IdentityStable` | crates/krot-server/src/registry.rs:296-379 | an id keeps its owner, session, kind, listener, limits and inspection through any number of drops and resumes, and is never reused |
| `SessionLeases.LeaseSurvivesIff` | crates/krot-server/src/registry.rs:245-285 | a lease nobody ends early is there, unchanged, exactly until the reaper first runs at or after its deadline; a second drop does not move the deadline |
| `SessionLeases.LeaseReserves` | crates/krot-server/src/registry.rs:166-285 | in every run, while a lease dangles nobody is given its port and a request for its label is refused |
| `SessionLeases.ResumeWithinGrace` | crates/krot-server/src/registry.rs:296-368 | before the deadline a resume with the right label, session and key gets that very tunnel back, and the label resolves to it on the new connection |
| `SessionLeases.ResumeAfterDrop` | crates/krot-server/src/server.rs:764-771 | counted from the drop: less than the grace period later, with nothing ended early in between, such a resume succeeds |
| `SessionLeases.TcpResumeWithinGrace` | crates/krot-server/src/registry.rs:305-321 | for a TCP lease some TCP tunnel of that session comes back, with its own port |
| `SessionCaps.ResumeOwned` | crates/krot-server/src/registry.rs:296-368 | resuming conserves every key's tunnel count |
| `SessionCaps.LoadStep` | crates/krot-server/src/session.rs:285-304 | passing the cap check is the only step that adds to a key's tunnels and registrations under way |
| `SessionCaps.CapBound` | crates/krot-server/src/session.rs:285-304 | in every run, live plus dangling tunnels plus registrations under way are at most `conns=` with one session of the key at a time, and one more for each further concurrent session |
| `SessionRaces.BoundReached` | crates/krot-server/src/session.rs:285-304 | that bound is reached by published tunnels for every cap and every number of sessions: all pass the check before any publishes |
| `SessionRaces.CapIff` | crates/krot-server/src/session.rs:285-304 | every run keeps `conns=` exactly when it is zero or the key has at most one session at a time |
| `SessionTask.Task.RegisterHttp` | crates/krot-server/src/session.rs:477-518 | an HTTP registration succeeds exactly when admitted and the label is unused, and files that tunnel |
| `SessionTask.Task.RegisterTcp` | crates/krot-server/src/session.rs:557-625 | a TCP registration succeeds exactly when admitted, a port is free and the bind succeeds |
| `SessionTask.Task.TryReattach` | crates/krot-server/src/session.rs:237-283 | a resume re-attaches only a lease of the named session and the same key |
| `SessionTask.Task.RegisterFresh` | crates/krot-server/src/session.rs:285-310 | the cap check and then the registration, as exactly those steps of the concurrent system |
| `SessionTask.Task.Register` | crates/krot-server/src/session.rs:226-311 | resume if asked to and possible, a fresh registration only after an unknown resume, as exactly those steps of the concurrent system |
| `SessionTask.Task.Dispatch` | crates/krot-server/src/session.rs:169-224 | which steps each frame takes, which frames go on and which end the session, and how |
| `SessionTask.Task.Run` | crates/krot-server/src/session.rs:108-167 | exactly the first k frames are answered, in order, each by its own steps from the world the one before it left; the end is Bye, Terminal or Dropped exactly by the last of them, a halt or the stream breaking off |
| `SessionTask.VerdictOf` | crates/krot-server/src/session.rs:169-224 | a Bye ends the session as Bye, a frame out of place or an answer that cannot be sent as Terminal, and no other frame ends it |
| `SessionAnswers.FreshFiles` | crates/krot-server/src/session.rs:285-310 | a fresh registration files exactly the tunnel asked for, under the next id, when the cap, the admission and the label or port allow it, and otherwise none |
| `SessionAnswers.RegisterActs` | crates/krot-server/src/session.rs:226-311 | a resume of an own lease gives that tunnel back on the new connection and with the new accept task, another key's lease is left alone, and without a lease the request is a fresh registration |
| `SessionAnswers.AnswerActs` | crates/krot-server/src/session.rs:169-311 | what each answered frame does to the table of tunnels |
| `SessionTask.Task.Dispose` | crates/krot-server/src/server.rs:763-780 | after a drop the live tunnels of the key dangle until now plus grace and all others stay as they are; after any other end none of the key is left |
| `SessionTask.HandleConnection` | crates/krot-server/src/server.rs:736-786 | a connection from authentication to disposition is a trace of the concurrent system from connecting to finished, with the frames answered and the end as `Run` says |
| `SessionTask.ReapOnce` | crates/krot-server/src/server.rs:564-577 | the reaper's pass is the reaping step |
| `Quota.PeriodBound` | crates/krot-server/src/rate.rs:270-301 | while fewer than 2^64 bytes are charged since the reset the bytes granted fit the cap and charges are refused exactly once the cap is exceeded |
| `Quota.RefusalSticks` | crates/krot-server/src/rate.rs:286-299 | unless the counter wrapped past it, after a refusal every charge is refused until the next reset |
| `Quota.QuotaIff` | crates/krot-server/src/rate.rs:286-299 | since a reset grants fit the cap and refusals last exactly when no charge took the sum past 2^64 with a remainder within the cap |
| `Quota.QuotaIffBelow` | crates/krot-server/src/rate.rs:286-299 | for charges of at most the cap and one that is exactly while fewer than 2^64 bytes were charged |
| `Quota.StickyIffBelow` | crates/krot-server/src/rate.rs:286-299 | so is the permanence of a refusal alone, for caps at least one charge below 2^64 |
| `QuotaRuns.StepKeeps` | crates/krot-server/src/rate.rs:270-425 | every atomic step of every copier keeps the counter, clock and copier invariant |
| `QuotaRuns.QuotaSafeIff` | crates/krot-server/src/rate.rs:270-301 | for any number of copiers and any interleaving of reset and fetch-add, the quota holds between resets exactly when the counter did not wrap past it; from a cap of one 16 KiB chunk on, exactly while fewer than 2^64 bytes were charged |
| `QuotaRuns.WrapReached` | crates/krot-server/src/rate.rs:286-299 | for all limits there is a run of 16 KiB chunks that charges 2^64 bytes and breaks the quota |
| `QuotaRuns.RefusalLasts` | crates/krot-server/src/rate.rs:286-299 | in every run, unless the counter wrapped, once one copier is refused all are until a reset |
| `QuotaRuns.ForwardsPrefix` | crates/krot-server/src/rate.rs:370-425 | each copier has written a prefix of its input |
| `QuotaRuns.ForwardedOverTime` | crates/krot-server/src/rate.rs:270-425 | all bytes forwarded for an identity are at most one cap for every period begun |
| `QuotaRuns.QuotaRenewed` | crates/krot-server/src/rate.rs:270-284 | the quota is renewed: a charge that begins a period or more after any moment finds a reset since then |
| `QuotaRuns.FreshPeriodGrants` | crates/krot-server/src/rate.rs:270-301 | the first charge after a reset is granted exactly when it fits the cap on its own |
| `QuotaRuns.ClockInRuns` | crates/krot-server/src/rate.rs:270-284 | the next reset is never further away than one period |
| `QuotaRuns.CopierEndsIff` | crates/krot-server/src/rate.rs:383-424 | a copier ends exactly at end-of-file, a broken write or a refused charge |
| `QuotaRuns.ClosedStays` | crates/krot-server/src/rate.rs:383-424 | a copier that has ended writes nothing more |
| `Metering.RateRoundsUp` | crates/krot-server/src/rate.rs:78-81 | rounding a rate up delivers at least the declared bytes, and more exactly when the period does not divide them |
| `Metering.SplitWithinIff` | crates/krot-server/src/rate.rs:202-209 | the per-worker shares stay within the total exactly when there is at least one byte per second for each worker |
| `Metering.RetryAfter` | crates/krot-server/src/rate.rs:313-318 | whole milliseconds to the deadline, neither late nor more than one short, unless clamped |
| `Metering.RateLimitState.constructor` | crates/krot-server/src/rate.rs:196-229 | a fresh counter with the quota's cap and period (a month without one), due for reset one period from now |
| `Metering.RateLimitState.Charge` | crates/krot-server/src/rate.rs:270-301 | reset if due, count the bytes, decide by the wrapping sum, and notify an attached session of a refusal |
| `Metering.CopyChunk` | crates/krot-server/src/rate.rs:383-424 | a chunk is charged once and written only after it was granted; it fails exactly when the read or the write does |
| `Metering.CopyLoop` | crates/krot-server/src/rate.rs:383-424 | the loop forwards a prefix, all of it when it finishes; it breaks exactly on a failing read or a broken write; within one period it finishes exactly when the input fits what is left of the cap |
| `Metering.Shovel` | crates/krot-server/src/rate.rs:370-425 | in addition, it times out exactly when no byte flows either way before the first-byte deadline, and then nothing has changed |
| `Framing.VarintRoundTrip` | crates/krot-proto/src/framing.rs:77-100 | every u32 reads back from at most five bytes, whatever follows |
| `Framing.MinimalIff` | crates/krot-proto/src/framing.rs:77-100 | a length prefix is the one the writer produces exactly when it has no superfluous zero group |
| `Framing.WriteVarint` | crates/krot-proto/src/framing.rs:77-83 | the loop appends the base-128 digits |
| `Framing.DropsIff` | crates/krot-proto/src/framing.rs:89-93 | the shift check rejects exactly the values that do not fit 32 bits |
| `Framing.ReadVarintSlice` | crates/krot-proto/src/framing.rs:85-100 | the loop computes the exact base-128 value below 2^32 of at most five bytes, or fails |
| `Framing.RawRoundTrip` | crates/krot-proto/src/framing.rs:38-75 | a payload of at most 64 KiB decodes back with exact consumption, whatever follows |
| `Framing.StrictPrefixRejected` | crates/krot-proto/src/framing.rs:55-73 | every strict prefix of a frame is rejected, inside the length as malformed and inside the payload as truncated |
| `Framing.ReencodeIff` | crates/krot-proto/src/framing.rs:38-75 | what is decoded re-encodes to the same bytes exactly when its length was minimal |
| `Framing.ListRoundTrip` | crates/krot-proto/src/framing.rs:38-75 | any list of payloads, framed and concatenated, decodes back to the list |
| `Framing.EncodeFrame` | crates/krot-proto/src/framing.rs:38-50 | encoding appends the frame and reports its size, or fails and appends nothing |
| `Framing.DecodeFrame` | crates/krot-proto/src/framing.rs:55-75 | the slice decoder gives the value and the bytes consumed, or the error of the first check that fails |
| `Framing.FrameRoundTrip` | crates/krot-proto/src/framing.rs:38-75 | for any invertible serialiser a value survives framing |
| `Framing.ReadVarintStream` | crates/krot-transport/src/frame.rs:57-74 | the byte-at-a-time reader gives the same value and consumes exactly the length bytes |
| `Framing.ReadFrame` | crates/krot-transport/src/frame.rs:27-40 | the streaming reader accepts what the slice decoder accepts, with the same value and consumption, for any chunking |
| `ClientHello.WalkNamesIff` | crates/krot-server/src/domain/sni.rs:139-154 | the server name found is the lowered first host_name entry, whatever follows it |
| `ClientHello.WalkProtocolsOf` | crates/krot-server/src/domain/sni.rs:126-137 | the protocol list of section 3.1 of RFC 7301 is read back in order |
| `ClientHello.WalkProtocolsExact` | crates/krot-server/src/domain/sni.rs:126-137 | a protocol list that is read is the serialisation of what was read |
| `ClientHello.SplitExact` | crates/krot-server/src/domain/sni.rs:106-120 | an extension block that is walked to the end is the serialisation of its extensions |
| `ClientHello.MeaningIff` | crates/krot-server/src/domain/sni.rs:104-123 | the walk succeeds exactly when every server_name and ALPN extension is readable, and the last of each kind decides |
| `ClientHello.ParseIff` | crates/krot-server/src/domain/sni.rs:82-124 | the parser accepts exactly the serialised hellos of section 4.1.2 of RFC 8446, followed by anything, whose extensions yield a name |
| `ClientHello.HelloRoundTrip` | crates/krot-server/src/domain/sni.rs:82-154 | a well-formed hello with an ASCII host_name, other extensions in any order and trailing bytes yields that name in lower case and the exact ALPN list |
| `SniPeek.Reader.Bite` | crates/krot-server/src/domain/sni.rs:203-215 | the cursor takes the next bytes or fails and stays |
| `SniPeek.Reader.TakeU16` | crates/krot-server/src/domain/sni.rs:181-186 | a big-endian number, or failure |
| `SniPeek.Reader.TakeU24` | crates/krot-server/src/domain/sni.rs:188-195 | a big-endian number, or failure |
| `SniPeek.ParseSniExtension` | crates/krot-server/src/domain/sni.rs:139-154 | the loop over server names, in bounds and terminating on any bytes |
| `SniPeek.ParseAlpnExtension` | crates/krot-server/src/domain/sni.rs:126-137 | the loop over protocol names, likewise |
| `SniPeek.WalkExtensionBlock` | crates/krot-server/src/domain/sni.rs:104-120 | the loop over extensions, likewise |
| `SniPeek.ParseClientHello` | crates/krot-server/src/domain/sni.rs:82-124 | the whole parser computes the reference answer on any bytes |
| `SniPeek.ReadAtLeast` | crates/krot-server/src/domain/sni.rs:57-72 | buffers exactly the bytes asked for under any chunking, or reports end-of-file |
| `SniPeek.Peek` | crates/krot-server/src/domain/sni.rs:34-55 | a successful peek buffers exactly the first record and leaves everything after it in the socket |
| `SniPeek.PeekIff` | crates/krot-server/src/domain/sni.rs:34-55 | a peek succeeds exactly when the stream starts with a handshake record of one to 16384 bytes whose body parses, and then holds that record |
| `SniPeek.PeekFails` | crates/krot-server/src/domain/sni.rs:34-55 | which failure is reported when |
| `SniPeek.ReplayStream.Read` | crates/krot-server/src/domain/replay.rs:38-52 | a read of any size delivers the next bytes of the original stream |
| `SniPeek.PeekThenReadAll` | crates/krot-server/src/domain/replay.rs:26-53 | peeking and replaying reproduces the original byte stream |
| `KeyLine.PortsIff` | crates/krot-server/src/keys.rs:385-406 | a port list is readable exactly when every item is, and allows exactly the ports its items cover |
| `KeyLine.CollectPorts` | crates/krot-server/src/keys.rs:385-406 | the loops collect those ports; an unreadable item means no restriction |
| `KeyMeaning.LastWins` | crates/krot-server/src/keys.rs:343-375 | every field of an entry is decided by the last option of its own key; a wildcard and a list of subdomains do not erase each other |
| `KeyMeaning.RateOf` | crates/krot-server/src/rate.rs:89-122 | an amount, a unit and a period denote that many bytes per period, or nothing when they exceed 64 bits |
| `KeyMeaning.UnitIff` | crates/krot-server/src/rate.rs:109-121 | the unit words, each with its power of a thousand or of 1024, and no others |
| `KeyMeaning.PeriodIff` | crates/krot-server/src/rate.rs:41-66 | the seconds of each period, and exactly which words name it |
| `KeyMeaning.NumeralReads` | crates/krot-server/src/keys.rs:352-356 | every number in range is read from its decimal numeral and none out of range is |
| `KeyMeaning.PortOf` | crates/krot-server/src/keys.rs:398-400 | a single number is that port alone |
| `KeyMeaning.RangeOf` | crates/krot-server/src/keys.rs:389-397 | a range is its two ends, provided they are ports in order |
| `KeyLine.ReadLine` | crates/krot-server/src/keys.rs:306-379 | the token and option loops compute the reference reading of a line |
| `KeySeparators.OneMarkIff` | crates/krot-server/src/keys.rs:326-346 | among all runs of commas and whitespace exactly the single comma and the pure whitespace mark one boundary |
| `KeySeparators.SpellingReads` | crates/krot-server/src/keys.rs:326-346 | whatever commas and whitespace stand between tokens, they are read back in order with one empty token for each boundary beyond the first |
| `KeyGrammar.OptionsReadIff` | crates/krot-server/src/keys.rs:319-346 | for all separators of commas and whitespace, the pairs read are the ordered key/value pairs meant, list items attached to their own key, exactly when each separator is a single comma or all whitespace |
| `KeyGrammar.LineRoundTrip` | crates/krot-server/src/keys.rs:306-379 | a line written with any such separators, any other spacing and any comment parses to its key, the pairs its tokens are read as and its comment; those pairs are its options exactly under the same condition |
| `KeyGrammar.CapReadIff` | crates/krot-server/src/keys.rs:326-356 | a connection cap followed by another option is in force exactly when a single comma or whitespace separates them; otherwise there is no cap |
| `KeyGrammar.SixOptionsRead` | crates/krot-server/src/keys.rs:306-379 | a line with all six options, in any accepted separators, sets each of the fields to what its own value says |
| `KeyGrammar.CommaSpaceLosesCap` | crates/krot-server/src/keys.rs:326-356 | the line `conns=5, bw=1B/s` sets no connection cap |
| `KeyGrammar.BareLine` | crates/krot-server/src/keys.rs:306-379 | a line without options parses to its key with the default entry and its comment |
| `KeyFile.ParseTrim` | crates/krot-server/src/keys.rs:290-304 | a line is the same entry, comment included, with or without surrounding whitespace |
| `KeyFile.FileReadableIff` | crates/krot-server/src/keys.rs:290-304 | a file is readable exactly when every line is blank, a comment or an entry |
| `KeyFile.FileIndex` | crates/krot-server/src/keys.rs:290-304 | the index holds exactly the keys with an entry, and for each its last one |
| `KeyFile.RevokedIff` | crates/krot-server/src/keys.rs:70-78 | a reload revokes exactly the keys that vanished or whose entry changed in one of the seven authorization fields |
| `KeyFile.AppendAgreesIff` | crates/krot-server/src/keys.rs:178-194 | appending keeps every readable file in agreement with memory exactly when each line of the argument is blank, a comment or an entry of the same key and the last of these is the entry put into memory |
| `KeyFile.SingleLineAmounts` | crates/krot-server/src/keys.rs:178-194 | a single-line argument always meets that condition |
| `KeyFile.HintBreaksAgreement` | crates/krot-server/src/handshake.rs:113-125 | an enrolment whose hint contains a line break and another entry breaks the agreement: it parses to the first key, the file gets both, memory one |
| `KeyFile.RemoveAgrees` | crates/krot-server/src/keys.rs:132-159 | rewriting a readable file without a key removes exactly that key, and happens exactly when it was there |
| `KeyStore.ReadFile` | crates/krot-server/src/keys.rs:290-304 | the loop computes the reference reading of the file |
| `KeyStore.FilterAll` | crates/krot-server/src/keys.rs:136-153 | the loop keeps exactly the lines that are not entries of the key |
| `KeyStore.KeyRegistry.Open` | crates/krot-server/src/keys.rs:91-105 | opening succeeds exactly on readable files and starts with memory equal to the file |
| `KeyStore.KeyRegistry.AppendLine` | crates/krot-server/src/keys.rs:178-194 | file and memory change together or not at all; they stay in agreement under that condition, and in a given state exactly when loading the argument's lines into the old index gives the new one |
| `KeyStore.KeyRegistry.Reload` | crates/krot-server/src/keys.rs:198-235 | reload restores agreement and broadcasts exactly the keys that vanished or differ in the wildcard, subdomains, cap, ports, bandwidth, quota or federation, the comment not counting; an unreadable file changes nothing |
| `KeyStore.KeyRegistry.RemovePubkey` | crates/krot-server/src/keys.rs:132-159 | in agreement, removal drops only the target, stays in agreement and broadcasts the target once; it fails exactly when the key was there and the rest of the file is unreadable |
| `Login.PercentEncodePath` | crates/krot-client/src/local_auth.rs:211-238 | the loop percent-encodes every byte outside the unreserved set |
| `Login.DecodeForm` | crates/krot-client/src/login_page.rs:141-169 | the loop decodes plus signs and percent escapes, leaving malformed ones alone |
| `Login.PathRoundTrip` | crates/krot-client/src/local_auth.rs:211-238 | every UTF-8 path survives the encoder and the form decoder |
| `Login.EncodedInert` | crates/krot-client/src/local_auth.rs:211-238 | the encoding contains nothing that would end a query field |
| `Login.EncodeByteIff` | crates/krot-client/src/local_auth.rs:211-238 | exactly letters, digits and ten marks stand for themselves; any other byte becomes a percent sign and its two hex digits |
| `Login.DecodeSays` | crates/krot-client/src/login_page.rs:141-169 | what a plus, a well-formed escape and any other byte decode to |
| `Login.SafeNext` | crates/krot-client/src/login_page.rs:231-241 | the result always passes the guard (one leading slash, no line break), and what passes it is left alone |
| `Location.SafeNextIff` | crates/krot-client/src/login_page.rs:227-241 | by the URL Standard, the safe form of an address leaves the site exactly when the address passes the guard and after its slash and any tabs has another slash or a backslash |
| `Location.SafeNextServes` | crates/krot-client/src/login_page.rs:227-241 | without tabs and backslashes the safe form never leaves the site; it is always one header line; a path that stays on the site and is one line is left alone |
| `Location.GuardMisses` | crates/krot-client/src/login_page.rs:227-241 | such addresses exist for every host: slash and backslash, or a tab between two slashes |
| `Login.ReadForm` | crates/krot-client/src/login_page.rs:183-200 | the loop takes the first field of each name |
| `Login.FormIsFirst` | crates/krot-client/src/login_page.rs:183-200 | each value is the decoded first field of its name among the pieces between ampersands |
| `Login.FormRoundTrip` | crates/krot-client/src/login_page.rs:183-200 | a submitted form delivers the three values it was filled with |
| `LoginSessions.SessionStore.CreateSession` | crates/krot-client/src/login_page.rs:60-66 | prunes expired tokens and adds the new one |
| `LoginSessions.SessionStore.ValidateAndRefresh` | crates/krot-client/src/login_page.rs:70-83 | extends a valid token, removes an expired one |
| `LoginSessions.SessionStore.Invalidate` | crates/krot-client/src/login_page.rs:85-91 | removes one token |
| `LoginSessions.DecideSession` | crates/krot-client/src/local_auth.rs:122-193 | the gate answers by the reference decision and updates the store accordingly; who gets a session is stated by `OpensIff` and `LoginIff` |
| `LoginSessions.OpensIff` | crates/krot-client/src/local_auth.rs:147-172 | a request opens a session exactly when it is a POST to the login path whose form carries the user and the password, and then only expired sessions go; any other login leaves the store alone and is asked again |
| `LoginSessions.LoginIff` | crates/krot-client/src/local_auth.rs:147-172 | whatever user, password and address are typed, a session opens exactly for the right user and password |
| `LoginSessions.NoPasswordIff` | crates/krot-client/src/local_auth.rs:147-172 | a form without a password field counts as the empty password |
| `LoginSessions.TokenLasts` | crates/krot-client/src/login_page.rs:60-83 | a token issued or used forwards for the following eight hours whatever other logins happen, unless it is logged out |
| `LoginSessions.RedirectRoundTrip` | crates/krot-client/src/local_auth.rs:173-192 | a request turned away is sent to an address which, fetched, serves a form whose `next` is the safe form of the path asked for |
| `LoginSessions.RedirectsGuarded` | crates/krot-client/src/local_auth.rs:122-193 | every redirect is one header line and starts with exactly one slash |
| `LoginSessions.RedirectsLeaveIff` | crates/krot-client/src/local_auth.rs:122-193 | an answer sends the browser off the site exactly when it follows a right login whose form asks for an address that escapes the guard |
| `LoginSessions.LoginLeaves` | crates/krot-client/src/local_auth.rs:147-172 | a right login whose form asks for a slash and a backslash is redirected to another host |
| `LoginSessions.LoginFlow` | crates/krot-client/src/local_auth.rs:122-193 | turned away, redirect fetched, form sent with the right credentials, answer followed with the cookie: the request ends forwarded at the safe form of the path first asked for, on the site unless that path escapes |
| `LoginSessions.ForwardNeedsLogin` | crates/krot-client/src/local_auth.rs:147-192 | in every run a request is forwarded only with a token given to an earlier POST whose form carried the user and the password, not logged out since, issued or used less than eight hours ago |

## Left out

- QUIC, TLS, tokio scheduling, socket binding and `SO_REUSEPORT`: foreign libraries; connections are tokens and pipes byte sequences.
- Ed25519, BLAKE3, base64, X.509, ACME and random numbers: foreign code, taken as parameters or freshness assumptions.
- The postcard encoding of control messages: a library format, taken as an invertible pair.
- Token timing of the bandwidth limiter: an unseen library; only the split of the rate across workers is modelled.
- `open_data_stream` and `accept_data_stream` of the mux: variants of `open_bi` and `accept_bi` that emit the OPEN at once.
- End-of-stream after the connection is lost: the program does not promise it, since a reader that exits leaves the stream table as it is.
- Mux writes of 4 GiB and more: the length field wraps, and the run theorems take a per-write cap below 2^32.
- More than 2^31 - 1 opens on one side of a mux: ids would repeat (`MuxCompleteness.MintDistinctIff` says when).
- More than 2^64 - 2 tunnel ids: a run allocates fewer; a trace, and so `SessionTask.HandleConnection`, may wrap.
- A resume after the deadline but before the reaper: the program does not refuse it, and the model does not either.
- A pool containing port zero: binding it would publish another port than the one reserved.
- Releasing the port of a failed bind: the program keeps it reserved; the invariant lists such ports.
- `ensure_rate_state`: one rate state per key, created on first use.
- The unmetered case of `charge` within runs: with no quota every charge is granted, which `Metering.RateLimitState.Charge` states.
- SessionTask.Task.RegisterHttp: takes the admission checks (label grammar, subdomain allowlist, mode, federation collisions) as one boolean of the request, because each is a plain test.
- SessionTask.Task.RegisterTcp: takes its admission checks (mode, port allowlist) as one boolean and one list of the request, because each is a plain test.
- MuxConn.Inner.Dispatch: does not wait for room in a full channel, because a method cannot; the transition system dispatches DATA only when there is room (`MuxSystem.HasRoom`), and its theorems include that wait.
- LoginSessions.DecideSession: is given the session token instead of the Cookie header, because the header scan is an easy member.
- MuxRuns.MuxSafety: takes a per-write cap below 2^32, because the DATA length field is 32 bits wide.
- QuotaRuns.ForwardedOverTime: assumes that no period wraps its counter past a refusal, because the rate can then be exceeded (`QuotaRuns.WrapReached`).
- File-system errors, fsync and the file watcher: the key file is a text that can always be read and written.
- HTML rendering, the API-key mode and constant-time comparison of the login gate: easy members; passwords are compared for equality.
- Inspector, metrics, admin API, command line, configuration and federation: plumbing.
