# SAIR proxy: a verified model

SAIR lends Android phones to CI jobs. A proxy gives each lock a scoped ADB port, relays
phones that live on another proxy, puts a phone back to baseline when its lock ends, and
ships what was said on the port to the orchestrator as a lock log. This project models
that half of SAIR (`internal/proxy`), the package listing it trusts
(`internal/devicesource/packages.go`) and the recent-lines ring, and proves what they
keep over every run.

`dafny verify dfyconfig.toml` checks all of it (Dafny 4.11), in a few minutes.

## How it is laid out

| files | what they model |
|---|---|
| `Bytes`, `Names`, `Lines`, `Utf8` | byte strings, phones and locks by name, text lines, Go's UTF-8 tables against section 4 of RFC 3629 |
| `AdbFraming` | ADB length framing: the request reader, the passive sniffer, FAIL frames |
| `ShellDecoder` | the reply decoder of a tunnel observer, and the shell-v2 packet writer |
| `LogValues`, `LockLog` | the lock log: what each operation does as functions of values, and the mutable objects proved against them |
| `LogShipping`, `LogDelivery` | tunnels, keepalive loop, session and release as one step system, and what every run of it accounts for |
| `TextOutput` | output that is UTF-8 stays whole and is never called binary, however one tunnel's buffer is filled and emptied |
| `LogLosses` | exactly when a run loses output of a request, and exactly-once delivery of text |
| `LogHanded`, `LogLate` | the end of the story: what the release hands over has everything, but what comes after its request's finish |
| `Releases` | any number of releases of one lock, and of shutdowns, at the same time: when there is one drainer |
| `HandOver`, `HandOverSafety`, `HandOverProgress` | relays, acquires, closes and expiries as one step system; who may touch a phone when; that nobody waits for ever on a record |
| `ScopedPorts` | the port manager as an object, one call at a time: what ends with a lock |
| `Pump`, `TunnelHop`, `RelayStream` | the two copy loops, the half-close carried as a message, and what a relayed client can be sent |
| `Session` | the session's run loop and its senders, and the waits between attempts |
| `Packages` | package listings and the uninstall loop |
| `DeviceTracker` | the device list tracker |
| `RecentRing` | the ring of recent log lines |

Concurrent parts are step systems: an action is what happens under one hold of a mutex, or
one atomic operation, and a run is any sequence of actions. What the source leaves to the
outside (what a stream delivers, whether a send succeeds, which order a Go map ranges in,
what a command installs, the clock) is a parameter of an action or a choice.

## What came out differently from what one might expect

* **One drainer.** `Release` says that closing first means no concurrent drain
  (`internal/proxy/scoped_port.go:892-893`), and `ShutdownAll` that closing stops the
  heartbeat first (`internal/proxy/scoped_port.go:980`). That holds when this call's own
  `CloseScopedPort` found the port. When the port has left the table since the call looked,
  `CloseScopedPort` returns at once, without waiting for the keepalive loop, and `DrainAll`
  can meet a batch that comes back from a failed send: entries change places.
  `LogDelivery.InOrderIffReleaseWaits` says in order on every run exactly when the release
  waits, and `Releases.OneDrainerIff` when it does: for any number of releases and
  shutdowns at once, there is one drainer on every run exactly when there is none of them,
  or one and nothing else closes the port. The release an idle timeout starts
  (`internal/proxy/scoped_port.go:1075`) beside a client's own makes two, a shutdown beside
  a release makes two, and an expiry is something else that closes: it overtakes a shutdown
  that has the port in its snapshot, with no release anywhere
  (`Releases.ShutdownMeetsExpiry`). On a given run the drainers to look for found the port
  and did not take it out (`Releases.OneDrainerUnlessOvertaken`).
* **The binary marker.** It is longer than a small remaining budget, so a drained batch can
  exceed its budget by part of it: by less than the marker (`LogValues.DrainBound`), and by
  all but one byte of it (`LogValues.DrainBoundAttained`). `LogDelivery` shows why a
  requeued batch is still never overtaken.
* **Late output.** `pumpStreams` returns as soon as one direction fails
  (`internal/proxy/pump.go:25-27`, `Pump.SendsAfterReturn`), and the deferred `finish` runs
  (`internal/proxy/adb_connection.go:69-71`) while the other copy loop may still be writing
  the device's bytes to the client, and so to the observer. What comes after the finish has
  begun is why `LogLosses.ExactlyOnceInOrder` asks that nothing comes late: once the request
  is over it is in the buffer for good, in no entry (`LogLate.LateIsStuck`,
  `LogLate.StuckForGood`).
* **Two readers of one header.** `ReadRequest` takes a sign (`strconv.ParseInt`), the
  sniffer does not. A minus sign gives neither of them a request that is not empty; with a plus
  sign the sniffer reports nothing, so they differ exactly on a plus sign before the length
  of a whole request that is not empty (`AdbFraming.SnifferAgreesWithReader`; `+005` and five bytes is one,
  `AdbFraming.PlusIsReadNotSniffed`).
* **Lengths.** A shell-v2 packet reads back exactly when its payload is shorter than 2^32,
  an ADB frame exactly when it is at most 65535 bytes.
* **Half-close.** A copy loop half-closes the other side when its stream ends and also when
  it fails. A far end that is half-closed cleanly has had the whole near stream, but the
  near end was clean exactly when that stream came to its EOF
  (`TunnelHop.CleanEndMeansAllArrived`); `TunnelHop.ErrorLooksClean` is the run on which it
  was not.
* **Backoff.** The k-th wait is min(backoffMin * 2^(k-1), backoffMax) for every run exactly
  when backoffMin <= backoffMax: the first wait is not capped.

## Model

| member | source | states |
|---|---|---|
| LogLosses.ExactlyOnceInOrder | internal/proxy/lock_log.go:96-160 | over every run of any number of tunnels, drains, failed sends, requeues, finishes and the release: a request whose output is text (or, while it runs, the beginning of one), for which no cap is hit and nothing comes after its finish, has its pieces shipped, held and pending, then the one in finish's hands, then the buffer, equal to the output of its whole reply, in order, once; when it is over, all of it is in the entries |
| LogLosses.ShippedIsPrefix | internal/proxy/lock_log.go:378-429 | what has been shipped of such a request is at every moment a prefix of its reply's output |
| LogLosses.LossyIffCappedOrNotText | internal/proxy/lock_log.go:363-429 | over every run, a request that is over has lost output if and only if a cap was hit or its reply's whole output is not UTF-8 |
| LogLosses.LossyIffSteps | internal/proxy/lock_log.go:363-429 | over every run and at any moment, a request has lost output if and only if some step so far hit a cap or took a piece of it that is not UTF-8 |
| LogLosses.NothingLost | internal/proxy/lock_log.go:378-410 | at any moment of any run, a request whose output so far is, or begins, a text has lost nothing, as long as no cap was hit and nothing came after its finish: no drain and no final take calls it binary |
| LogLosses.LostOnlyWhere | internal/proxy/lock_log.go:363-407 | a request starts losing output in exactly three steps: the tunnel's cap overflows, a piece is not UTF-8, the pending list refuses a piece |
| LogLosses.EndedIsEmpty | internal/proxy/lock_log.go:414-429 | over every run, once a request is over nothing is left in its buffer, unless output comes after its finish |
| LogHanded.HandedHasWhatWasRecorded | internal/proxy/scoped_port.go:888-905 | when the release hands over, a gathering round has found nothing, and everything accepted before it is in what was shipped and what goes with the release call, in the order it was accepted |
| LogHanded.HandedHasTheOutput | internal/proxy/lock_log.go:134-147 | a request that was over by then, and whose output is text, has its whole output in what was shipped and what goes with the release call, once and in order |
| LogLate.LateIsStuck | internal/proxy/adb_connection.go:67-103 | the run on which a shell's output is text, within every cap, and in no entry: its tunnel is finished before its reply comes |
| LogLate.StuckForGood | internal/proxy/lock_log.go:177-181 | on every run, a request that is over stays over, and what its buffer has is never taken |
| LogDelivery.OutputAccountedFor | internal/proxy/lock_log.go:96-160 | over every run, for every request that lost nothing: pieces in the entries, in hand and in the buffer, in that order, are the output of its whole reply |
| LogDelivery.RunDecodes | internal/proxy/lock_log.go:316-361 | over every run, what was decoded of a request as its reply came is the output of the whole reply decoded in one piece |
| LogDelivery.RecordedInOrder | internal/proxy/scoped_port.go:1045-1097 | entries accepted by Record are, in that order, shipped, held by the loop or the release, and pending, against any session flips and send failures; pendingBytes counts the pending output |
| LogDelivery.InOrderIffReleaseWaits | internal/proxy/scoped_port.go:888-905 | recorded entries stay in order on every run if and only if the release waits for the keepalive loop |
| LogDelivery.ReleaseRacingTheLoop | internal/proxy/scoped_port.go:908-927 | the run in which a release that does not wait meets a failed flush and the second entry overtakes the first |
| LogDelivery.StepKept | internal/proxy/scoped_port.go:1037-1115 | every step of every kind keeps the delivery invariant: custody per request, order, budgets, no overtaking |
| LogDelivery.RequeuedSettled | internal/proxy/lock_log.go:150-160 | a requeued batch fits the next drain's budget, but for a closing piece of a request that lost output, so no live piece overtakes an older one of its request |
| Releases.OneDrainerIff | internal/proxy/scoped_port.go:888-986 | for any number of releases of a lock and shutdowns at once, each of which drains its log, and other closers or none: nobody drains beside anybody else, on every run, if and only if there is no release and no shutdown, or one of them and no other closer |
| Releases.OneDrainerUnlessOvertaken | internal/proxy/scoped_port.go:888-986 | on every run, a release or a shutdown that drains beside the loop, or one of any two that drain together, found the port in the table and did not take it out |
| Releases.ShutdownMeetsExpiry | internal/proxy/scoped_port.go:971-986 | the run on which an expiry comes between a shutdown's snapshot and its close, and the shutdown drains beside the loop |
| LogShipping.Heartbeat | internal/proxy/command_router.go:666-681 | a heartbeat hands back all of the log or none, and none exactly when the unary call that carried it went through |
| LogShipping.TurnsAreLive | internal/proxy/lock_log.go:116-125 | a drain of the step system whose turns nobody comes between takes what the object's drain takes |
| LogValues.DrainBound | internal/proxy/lock_log.go:86-127 | a drain starts with the first pending entry and stays below its budget plus one binary marker, unless it is a single entry |
| LogValues.DrainBoundAttained | internal/proxy/lock_log.go:86-127 | a drain that comes to one byte less than its budget plus a marker, for every budget |
| LogValues.LiveTakesAll | internal/proxy/lock_log.go:130-147 | with the release's budget every open tunnel gives all it has but an unfinished rune |
| LogValues.FinalTakeProgress | internal/proxy/lock_log.go:414-425 | every final take that gives a piece leaves less to take, and an empty one leaves nothing: finish ends |
| LogValues.RoundIsObserved | internal/proxy/lock_log.go:316-361 | a round of observe's loop does what the byte-wise decoder does with the same bytes |
| LogValues.ObservedTwice | internal/proxy/lock_log.go:316-372 | two observations are one of the bytes put together |
| LockLog.LockLog.Record | internal/proxy/lock_log.go:59-83 | the entry, its service within the cap, is pending, or one truncation marker is, or nothing changes; the byte count stays exact |
| LockLog.LockLog.Requeue | internal/proxy/lock_log.go:150-160 | the entries are back at the front, and counted |
| LockLog.LockLog.drainPending | internal/proxy/lock_log.go:103-115 | out and what stays pending are the old list cut where the budget says; truncation is over when nothing is left |
| LockLog.LockLog.drain | internal/proxy/lock_log.go:96-128 | in whatever order the open tunnels come up: the log, the entries handed out and every tunnel are those of the drain function |
| LockLog.LockLog.Drain | internal/proxy/lock_log.go:86-91 | never skips the first pending entry, and stays within budget plus a marker unless it is one entry |
| LockLog.LockLog.DrainAll | internal/proxy/lock_log.go:134-147 | ends; hands out all of pending and then each tunnel's output; leaves the log clean and in each tunnel at most three bytes of an unfinished rune |
| LockLog.LockLog.register | internal/proxy/lock_log.go:165-174 | an id never given before, and the tunnel is open |
| LockLog.TunnelObserver.onService | internal/proxy/lock_log.go:294-311 | the service decides what is kept; the open entry carries the tunnel's id and is recorded |
| LockLog.TunnelObserver.observe | internal/proxy/lock_log.go:316-361 | the loop over a chunk leaves the tunnel as the decoder automaton says, for any chunk |
| LockLog.TunnelObserver.append | internal/proxy/lock_log.go:363-372 | every byte goes to the end of the buffer in order or is counted as dropped, and none is dropped unless the buffer is full afterwards; a binary tunnel takes nothing |
| LockLog.TunnelObserver.take | internal/proxy/lock_log.go:378-410 | the piece is cut on a rune boundary; bytes that are not text make the tunnel binary, for good |
| LockLog.TunnelObserver.finish | internal/proxy/lock_log.go:414-429 | ends; the tunnel is closed, its whole rest is recorded piece by piece and then its close entry; nothing at all without a request |
| TextOutput.TextIffNotBinary | internal/proxy/lock_log.go:363-410 | for any arrivals and budgets that never overflow: called binary at the end if and only if the stream is not UTF-8; otherwise all pieces are well formed and put together are the stream |
| Utf8.ValidIsRfc3629 | internal/proxy/lock_log.go:399-403 | the table-driven validity check accepts exactly the texts of RFC 3629's grammar |
| Utf8.CutKeepsRunesWhole | internal/proxy/lock_log.go:389-398 | cutting inside a stream that is well formed once the rest arrives leaves a well-formed piece and a well-formed rest |
| Utf8.CutLeavesUnfinishedRune | internal/proxy/lock_log.go:389-398 | for any bytes, what the cut leaves behind is at most three bytes of one unfinished rune |
| ShellDecoder.ChunkingIrrelevant | internal/proxy/lock_log.go:316-361 | decoding does not depend on how the reply is split |
| ShellDecoder.DecoderInvertsWriter | internal/proxy/adb_protocol.go:96-105 | OKAY and any sequence of packets, split anywhere, decode to the payloads of ids 1 and 2 put together |
| ShellDecoder.FailDecodesToMessage | internal/proxy/lock_log.go:333-343 | a FAIL reply decodes to its message, for both protocols |
| ShellDecoder.LegacyIsRawTail | internal/proxy/lock_log.go:344-346 | a legacy shell's output is the raw rest |
| ShellDecoder.NothingElseDecodes | internal/proxy/lock_log.go:330-338 | a reply that is neither OKAY nor FAIL, or no shell service, gives no output |
| ShellDecoder.PacketReadsBackIff | internal/proxy/adb_protocol.go:96-105 | a stdout or stderr packet reads back exactly when its payload is shorter than 2^32 |
| AdbFraming.SnifferAgreesWithReader | internal/proxy/lock_log.go:218-255 | for every input: the sniffer reports the request that the reader reads, once, and nothing of what follows it, but for a length with a plus sign, which only the reader takes; an empty request is not reported |
| AdbFraming.PlusIsReadNotSniffed | internal/proxy/adb_protocol.go:17-42 | with a plus sign before its length a request of five bytes is read and not reported |
| AdbFraming.SniffConcat | internal/proxy/lock_log.go:201-207 | what the sniffer reports does not depend on how the reads are split |
| AdbFraming.SniffConn.feed | internal/proxy/lock_log.go:218-255 | the loop over a read leaves the sniffer as the byte-wise automaton says, and reports when that does |
| AdbFraming.SniffConn.ReadRequest | internal/proxy/adb_protocol.go:17-42 | for any chunking of the connection: the request that the bytes spell, those bytes taken and no others, and what the sniffer reports of them |
| AdbFraming.ReadFirstRequest | internal/proxy/adb_connection.go:67-78 | reading the first request through the sniffer: the service read, the report, and the bytes that follow untouched |
| AdbFraming.FrameReadsBackIff | internal/devicesource/server.go:583-590 | a frame reads back as its command, with what follows left alone, exactly when it is at most 65535 bytes |
| AdbFraming.FramesReadBack | internal/devicesource/server.go:583-590 | any sequence of such frames reads back, one after the other |
| AdbFraming.FailReadsBack | internal/devicesource/server.go:592-610 | what WriteFail writes reads back as a refusal with its message |
| HandOver.ResetTook | internal/proxy/relay.go:295-305 | compare-and-delete: the record is taken, and gone from the map, exactly when the map still has the one the reset saw; otherwise the map stays as it is and a relayed reset is over |
| HandOverSafety.StepKept | internal/proxy/relay.go:313-404 | every atomic step of every kind keeps the hand-over invariant |
| HandOverSafety.LeftAloneUntilClosed | internal/proxy/scoped_port.go:263-280 | over every run: from the end of a lock's setup of a phone until its port leaves the table, whatever happens in between, no reset does anything to that phone |
| HandOverSafety.ReadyUntil | internal/proxy/scoped_port.go:908-917 | a phone stays set up until the port leaves the table, and a port that has left does not come back |
| HandOverSafety.RelayedResetsActOnTheirOwn | internal/proxy/scoped_port.go:584-588 | a relayed reset acts on a phone only with a record of its own lock |
| HandOverSafety.LatestIsTaken | internal/proxy/relay.go:295-305 | the record a reset takes names its lock and is the phone's latest, and is gone from the map |
| HandOverSafety.LaterRelaysHaveLaterRecords | internal/proxy/relay.go:275-292 | a relay that registers after a reset took a record of the phone has a later one |
| HandOverSafety.LaterRelaysWait | internal/proxy/relay.go:341-359 | a relay with a later record than a reset's lists, opens or uses the phone only when that reset is over |
| HandOverSafety.SnapshotIsSpared | internal/proxy/scoped_port.go:714-720 | each package a relayed reset uninstalls is missing from its record's snapshot, listed before every command under that record; without a snapshot nothing is uninstalled |
| HandOverSafety.ListedWhatWasThere | internal/proxy/relay.go:240-262 | a snapshot is what was installed at the moment it was listed |
| HandOverSafety.UninstalledWasAbsent | internal/proxy/relay.go:391-404 | over every run: a package a relayed reset has uninstalled was absent from the phone at the moment its record's snapshot was listed, and every command relayed under that record came after that moment |
| HandOverSafety.TornDownOnce | internal/proxy/scoped_port.go:908-954 | a record is one reset's at most, a port is closed once, and each phone of a closed port or a visited record is reset once |
| HandOverProgress.OnceNeverStuck | internal/proxy/relay.go:240-270 | relays inside records' onces never wait for each other in a circle: one of them can always move |
| HandOverProgress.ResetNeverStuck | internal/proxy/scoped_port.go:576-599 | a reset that holds a phone's mutex can move, or waits for a once that some relay can leave |
| ScopedPorts.ScopedPortManager.resetDevice | internal/proxy/scoped_port.go:576-599 | the lock's record of the phone is settled; the phone is reset unless it was relayed without one or a port holds it |
| ScopedPorts.ScopedPortManager.CloseScopedPort | internal/proxy/scoped_port.go:908-929 | the port is gone; each local phone that no other port holds is reset once, in some order; its records are settled |
| ScopedPorts.ScopedPortManager.OnLockExpired | internal/proxy/scoped_port.go:934-954 | what ends with the lock, by port or by relay or both, is reset exactly once, and nothing else is |
| ScopedPorts.ExpiredTwice | internal/proxy/scoped_port.go:931-939 | told twice of an expiry, the manager resets what it resets when told once |
| ScopedPorts.EndedOnce | internal/proxy/scoped_port.go:931-954 | after a lock has ended nothing ends with it any more |
| ScopedPorts.ScopedPortManager.heldByAnyPort | internal/proxy/scoped_port.go:827-836 | whether any port in the table has the phone |
| ScopedPorts.RemoteIDs.remoteTransportID | internal/proxy/scoped_port.go:99-116 | an id for good per remote serial, 0 for any other; the two maps stay each other's inverse |
| ScopedPorts.RemoteIDs.remoteSerialByTransportID | internal/proxy/scoped_port.go:120-124 | the one serial that was given the id, if any |
| Pump.CopyDir | internal/proxy/pump.go:29-47 | the loop, over any streams that end, leaves both as the step function run to its end does |
| Pump.CopiesTheStream | internal/proxy/pump.go:29-47 | unless a send failed, the whole stream was sent, then a half-close, and the outcome is how the stream ended |
| Pump.DirectionsAreIndependent | internal/proxy/pump.go:48-59 | in every interleaving each direction is where its own steps alone bring it: a half-close never stops the reverse |
| Pump.SentIsPrefix | internal/proxy/pump.go:27-60 | in every interleaving what was sent on a side is a prefix of what was received on the other, and a half-close is last |
| Pump.NilMeansDelivered | internal/proxy/pump.go:50-59 | nil only when both streams came to their EOF, were delivered whole and were half-closed |
| Pump.SendsAfterReturn | internal/proxy/pump.go:21-60 | a run on which pumpStreams has returned an error and bytes still reach the side that failed |
| Pump.ErrorIsADirections | internal/proxy/pump.go:50-56 | an error returned is the outcome of one of the directions |
| TunnelHop.DeliveredIsPrefix | internal/proxy/relay.go:89-110 | across the tunnel, cut at any time: what reaches the far end is a prefix of what the near end received |
| TunnelHop.CleanEndMeansAllArrived | internal/proxy/relay.go:93-110 | a far end that is half-closed cleanly has had the whole of the near stream, which had ended; the near loop ended cleanly if and only if that stream came to its EOF |
| TunnelHop.ErrorLooksClean | internal/proxy/pump.go:29-47 | a run on which the near stream breaks after a chunk and the far end is half-closed cleanly |
| RelayStream.FailOrDevice | internal/proxy/adb_connection.go:67-103 | over every failure of holder and owner: after the OKAY the client has one whole FAIL and nothing else, or a beginning of the device's bytes, unless its own connection broke inside the FAIL |
| RelayStream.NoFailAfterDevice | internal/proxy/relay.go:164-207 | once the device has sent a byte, a relaying client has the device's bytes only |
| RelayStream.FailIsReadable | internal/proxy/adb_protocol.go:69-80 | such a FAIL reads back as its message |
| RelayStream.RecvAhead.Recv | internal/proxy/relay.go:115-149 | the tunnel's messages once each and in order, as if the first had not been read ahead |
| RelayStream.RecvAhead.failed | internal/proxy/relay.go:133-140 | true exactly when the first Recv has returned and saw the end, which whoever receives next still gets |
| Session.PublishedIsWelcomed | internal/proxy/session.go:177-228 | in every interleaving a published stream, and any a message went out on, has completed hello and welcome; in fallback none is published or open |
| Session.FallbackIsPermanent | internal/proxy/session.go:150-156 | after fallback no stream is published or opened again |
| Session.OnlyItsOwnFailureDrops | internal/proxy/session.go:92-117 | the published stream is taken away only by its own end or by a send that failed on that very stream |
| Session.OneSendAtATime | internal/proxy/session.go:99-101 | at most one Send is in progress, and none on a stream whose hello is still to go out |
| Session.run | internal/proxy/session.go:141-172 | the loop's waits are the backoffs of the attempts; it falls back exactly at an attempt that says the session is not implemented |
| Session.WaitsOfARun | internal/proxy/session.go:141-228 | in every interleaving with senders: the waits are the backoffs of the attempts, an attempt counting as connected exactly when its own stream was welcomed; they follow the capped doubling formula when backoffMin <= backoffMax; fallback exactly after an attempt that says unimplemented |
| Session.BackoffFormulaIff | internal/proxy/session.go:157-171 | the k-th wait in a row is min(backoffMin * 2^(k-1), backoffMax), a session that reached welcome starting over, for every run if and only if backoffMin <= backoffMax |
| Packages.AcceptedIffWhole | internal/devicesource/packages.go:147-170 | a listing of any good names, cut short anywhere, is accepted if and only if nothing but white space is missing, and then parses to exactly those names |
| Packages.completeListing | internal/devicesource/packages.go:147-170 | the loops accept what the specification accepts, with the same names |
| Packages.SnapshotOfCutListings | internal/devicesource/packages.go:123-143 | a snapshot over listings each cut short anywhere is an error or exactly the installed names; it is no error if and only if the listing is whole and names something, or is whole and backed by a whole listing that names a system package |
| Packages.parsePackages | internal/devicesource/packages.go:244-252 | the names of the lines that name a package |
| Packages.Phone.ResetPackages | internal/devicesource/packages.go:182-241 | when it can: exactly what is listed, not kept, installed and not stubborn goes, each reported once; otherwise nothing is touched |
| Packages.SinceReset | internal/devicesource/packages.go:198-222 | a relayed phone's reset over a listing cut short anywhere: nothing, or exactly what is installed beyond the snapshot; no shortened name is tried |
| DeviceTracker.DeviceListTracker.UpdateDevices | internal/proxy/device_tracker.go:68-83 | list, owners and ids have the same serials, each owner reports its serial, ids are distinct; who stays keeps the id, who comes gets a new one |
| DeviceTracker.DeviceListTracker.reapAndReport | internal/proxy/device_tracker.go:159-182 | the same, over the sources that are not stale; the report is the list |
| DeviceTracker.DeviceListTracker.rebuild | internal/proxy/device_tracker.go:119-156 | brings list, owners and ids back in step from any sources |
| DeviceTracker.DeviceListTracker.GetSourceAddr | internal/proxy/device_tracker.go:90-95 | somebody who reports the serial, exactly when somebody does |
| DeviceTracker.DeviceListTracker.GetTransportID | internal/proxy/device_tracker.go:98-103 | positive exactly for listed serials |
| DeviceTracker.DeviceListTracker.GetSerialByTransportID | internal/proxy/device_tracker.go:106-116 | the inverse of GetTransportID on listed serials |
| DeviceTracker.AnyCalls | internal/proxy/device_tracker.go:68-182 | over any sequence of updates and reaps no id ever has two serials, and a serial keeps its id from call to call |
| DeviceTracker.HistoryGrows | internal/proxy/device_tracker.go:131-140 | one more rebuild, which hands out only ids above those given, keeps the whole history free of reuse |
| RecentRing.Ring.Write | internal/logging/recent.go:34-46 | after any Write the ring holds the last max lines ever written, in order |
| RecentRing.Ring.Lines | internal/logging/recent.go:52-63 | of the last max lines those that match, oldest first, redacted; all of them with no filter |
| RecentRing.AnyWrites | internal/logging/recent.go:34-63 | any sequence of multi-line Writes and then Lines gives the matching ones of the last max lines written |

## Left out

- gRPC, TCP, TLS, HTTP handlers, protobuf code and the orchestrator's own logic: a stream is a list of messages that may fail, an answer is a choice.
- Timestamps, serials, durations and byte counts of log entries: only what decides delivery is kept.
- Redaction of secrets: an entry's service is already redacted when it is recorded, and the ring takes the redaction as a function.
- The entries of two releases or shutdowns that drain at the same time, and of a release call that fails: delivery is stated for one of them, up to its call; `Releases` says when there is only one drainer.
- The device's own steps in a reset (reverse forwards, reboot, Wi-Fi, Bluetooth, wake, UiAutomation, Play Store): one opaque step, any number of times.
- A local port's reset against other locks' relay records: the source does not look at them, and nothing is claimed. Exclusion is stated for phones set up for a port, and for relays with a later record.
- Relays of one lock that are still alive during that lock's own reset: allowed by the source and by the model.
- How the package list of a local reset comes about (the baseline and its first reading): an arbitrary set.
- The order of uninstalls, the texts of warnings, suggestions, force-stops and data clearing: not modelled.
- Listings that are not valid UTF-8: text is a sequence of code points.
- Overlapping calls of rebuild, and the 32-bit wrap of the transport-id counter: calls are one after the other and ids are unbounded.
- AcquireLock's retries, device service clients, API keys, device tokens, bench events, version handling, the updater, text scrapers and feature tables.
