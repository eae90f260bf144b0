# The pbx-agent control plane, in Dafny

The on-prem agent connects a society's Asterisk to the cloud. This project models its
control plane as the state machines it is made of, with all input and output injected,
and proves what they keep over whole runs.

- **Call control** (`ChannelNames`, `CallRouting`, `AriEvents`, `CallRuns`, `CallLaws`,
  `CallRecords`). A caller rings every handset of a flat; the first answer is bridged and
  the others are hung up. The classes are proved against functions on states, and those
  are run against an arbitrary Asterisk: no leg leaks, no caller is stranded, one winner,
  one bridge holding exactly caller and winner, one record, computed from the events.
- **Tunnel** (`SipFrame`, `FrameLayout`, `TunnelDialer`, `ConnectorRuns`, `DialerLaws`,
  `DemuxSpec`, `Demultiplexer`, `StreamHistory`, `TunnelRuns`). The dialer hands frames off
  exactly once and in order across drops, with backoff and heartbeats bounded from both
  sides. The demultiplexer decodes incrementally, whatever the fragmentation, and shares a
  two-way back-pointer protocol with its sockets in which releases re-enter it. The
  connector object holds the demultiplexer object, and the two are also run as one system,
  in which the open streams and all that the cloud is told follow from the events alone.
- **Subscriber replica** (`Provisioning`, `Replication`, `ReplicaRuns`, `ReopenRuns`,
  `WatcherHistory`). A change-log tail with resume tokens and snapshots ahead of the log:
  what the endpoints reflect in every state, when they are exactly the active subscribers,
  and how soon a lost stream is tried again.
- **Thread hand-off** (`DispatchQueue`, `FrameOutbox`). Atomic steps of producers,
  starter, worker and stopper; post order into the dialer.
- **Requests and parsers** (`UrlCodec`, `Base64`, `HttpText`, `NumberText`, `Chunked`,
  `ChunkLoop`, `HttpMessage`, `HttpLaws`, `AriRequests`, `AriCalls`, `AriTexts`,
  `Decimals`, `Options`). The ARI request texts, literally and against the repository's own
  HTTP parser; chunked decoding with its 64-bit positions; two base64 encoders.

Each module is in the file of its name.

`dafny verify dfyconfig.toml` checks everything.

## What is assumed of the outside

- Asterisk: a failed originate creates no channel; originating onto a live id fails; a
  leg's StasisStart comes from a live leg with the tag it was originated with; channel ids
  are non-empty; a live leg's id is not used for a new caller. Whether a channel is alive
  is judged by the ChannelDestroyed events processed so far. ChannelDestroyed may name
  anything at any time. Nothing is assumed about REST outcomes.
- Transports: any answer to any send, including reporting their own loss from inside the
  call. The timing results assume a monotone clock.
- Database: an id keeps its society and user name; user names of the society are unique
  at any time; a delete names an existing document; requests to Asterisk succeed. Scans
  and cursors may fail at any time, the first ones included. `CaughtUpMeansInSync` also
  needs that every other change carries its document, that a scan has worked with nothing
  left over, and that a cursor opened without a token after it finds that nothing of
  interest happened meanwhile; `InSyncIff` needs none of these and says exactly when the
  watcher is in sync without them.
- Threads: calls of `start()` do not overlap each other. They may overlap `stop()` or come
  after it; where that matters the lemma says so. A deactivated message queue takes and
  gives nothing. That an active one refuses a message, for want of memory, is possible in
  the model; `StopCanJoin` is the result without it.
- Strings are shorter than 2^64 - 2 bytes, as in the original's address space.
- Host name and credentials hold no CR or LF (for credentials this is proved).

## Where code and documentation differ

The code is followed.

- PINGs go out per interval since the last PING, not per interval of inbound silence
  (`ConnectorRuns.PingDespiteTraffic`).
- The on-connected hook runs even when the flush just lost the transport
  (`ConnectorRuns.HookAfterLostFlush`).
- The first backoff is not capped by the maximum (`ConnectorRuns.BackoffAsPromisedIff`).
- The watcher's header says that an aged-out resume token falls back to a fresh cursor;
  the code keeps the token and retries (`ReplicaRuns.TokenIsKept`).
- Change streams opened with default options send updates without the document, and the
  watcher skips those (`ReplicaRuns.BareUpdateIsMissed`).
- DESIGN.md still names addresses of record with `-aor`; the code uses the bare user name
  and deletes the suffixed one, which is why `ReplicaRuns.EndpointsResolveIff` has its
  condition.
- Admission is checked when a caller enters, long before a bridge exists, so no bound on
  concurrent bridges is claimed.

## Model

| member | source | states |
|---|---|---|
| `ChannelNames.LegNameInjective` | pbx-agent/src/main/call_router.cpp:93 | Leg ids `caller-leg-i` never collide, across callers or within a call, whatever the caller ids contain |
| `CallRouting.CallRouter.OnCallerStart` | pbx-agent/src/main/call_router.cpp:69-112 | A caller is routed once; each target gets an originate request in order; exactly the accepted ones are tracked, in both maps; with none the caller is hung up with `congestion` |
| `CallRouting.CallRouter.Fork` | pbx-agent/src/main/call_router.cpp:91-105 | The originate loop: legs tracked are those whose request succeeded, and no others enter the reverse index |
| `CallRouting.CallRouter.OnLegStart` | pbx-agent/src/main/call_router.cpp:114-155 | First answer: answer, bridge, caller, leg, then one hangup for every other ringing leg; a late or orphaned leg is hung up; a repeated event changes nothing |
| `CallRouting.CallRouter.OnChannelGone` | pbx-agent/src/main/call_router.cpp:157-195 | The three ways a call ends and which channels are hung up in each; an unknown channel changes nothing |
| `CallRouting.CallRouter.HangUpAll` | pbx-agent/src/main/call_router.cpp:152-153 | Walking an unordered set hangs up each member exactly once and nobody else |
| `AriEvents.AriClient.OnEvent` | pbx-agent/src/main/ari_client.cpp:54-77 | Every event takes the client, the router, the bridge table and the records to the state, and sends the requests, that the event calls for |
| `AriEvents.AriClient.HandleCallerStasis` | pbx-agent/src/main/ari_client.cpp:252-326 | Admission, opening the record once, the conference extension and routing |
| `AriEvents.AriClient.JoinConference` | pbx-agent/src/main/ari_client.cpp:328-371 | Create the shared bridge, accept a 409, join; hang up when either request fails |
| `AriEvents.AriClient.HandleDestroyed` | pbx-agent/src/main/ari_client.cpp:426-485 | The router is told first; an admitted channel leaves one record with its talk time and conference flag |
| `CallRuns.EveryRunIsSafe` | pbx-agent/src/main/call_router.cpp:69-195 | Over every interleaving of events and every REST outcome: routing safety, bridge counting, record conservation, first answer wins and one bridge per answered call, all in every reachable state |
| `CallRuns.NoLegIsLeaked` | pbx-agent/src/main/call_router.cpp:97-104 | In every reachable state a live originated leg is attached to its caller's call, or its hangup was requested |
| `CallRuns.NoCallerIsStranded` | pbx-agent/src/main/call_router.cpp:107-112 | In every reachable state a routed live caller has a call that is ringing or connected, or its hangup was requested |
| `CallRuns.RoutingSafeKept` | pbx-agent/src/main/call_router.cpp:89-194 | One phase per call, legs mapped back to their call, reverse index equal to Asterisk's live legs, no leaked leg, no stranded caller: kept by every event |
| `CallRuns.HungAliveKept` | pbx-agent/src/main/call_router.cpp:152-194 | Every hangup goes to a channel that is alive, so a request noted for a dead channel never counts for a new one of that id |
| `CallRuns.OneWinner` | pbx-agent/src/main/call_router.cpp:123-136 | Once a leg has answered a call first it is the connected one, and nobody rings, for as long as the call lasts |
| `CallRuns.FirstAnswerWinsKept` | pbx-agent/src/main/call_router.cpp:123-136 | The connected leg of every call is the first one whose answer was processed, and no call has two recorded answers |
| `CallRuns.WinnerStays` | pbx-agent/src/main/call_router.cpp:123-130 | No event replaces a call's winner |
| `CallRuns.NoAnswerExactly` | pbx-agent/src/main/call_router.cpp:187-193 | `no_answer` is sent if and only if the last ringing leg of an unanswered call dies |
| `CallRuns.OneBridgeKept` | pbx-agent/src/main/call_router.cpp:138-150 | The answer and bridging requests of a whole run are, in order, one answer, one create and two adds per first answer |
| `CallLaws.CallerAndWinnerAreBridged` | pbx-agent/src/main/call_router.cpp:138-150 | Over every run, conference traffic aside, the answer and bridging requests are four for each first answer, in this order: answer the caller, create `caller-bridge` of type mixing, add the caller to it, add the leg that answered first |
| `CallLaws.HangupsExactly` | pbx-agent/src/main/call_router.cpp:77-194 | Who is hung up by each event, and with which reason, if and only if: congestion for no accepted leg or a failed conference join, answered for every leg but the winner, normal and no_answer as a call ends |
| `CallLaws.OriginatesExactly` | pbx-agent/src/main/call_router.cpp:91-97 | Exactly an admitted caller without a call that dials no conference makes phones ring: the i-th request to `PJSIP/` and the i-th target, with id `caller-leg-i`, the tag `outbound,caller` and the caller's flat |
| `CallLaws.RingingIsAccepted` | pbx-agent/src/main/call_router.cpp:97-112 | What then rings is exactly the channels of the requests answered with a 2xx status, mapped back to the caller; with none there is no call |
| `CallLaws.SuccessIs2xx` | pbx-agent/src/main/call_router.cpp:100 | Success is the 2xx class of statuses |
| `CallLaws.BusyExactly` | pbx-agent/src/main/ari_client.cpp:271-279 | A caller is sent to the busy message if and only if the bridge table has reached the cap |
| `CallLaws.ConferenceExactly` | pbx-agent/src/main/ari_client.cpp:328-371 | Dialing `conf` creates `society-conf` and joins it if and only if that worked or the bridge was there already |
| `CallRecords.RecordsAreTrue` | pbx-agent/src/main/ari_client.cpp:252-485 | After any events, the bridge table and its members, the open contexts and the records with their times, talk time and conference flag are what a reading of the events alone says |
| `CallRecords.RunsAgree` | pbx-agent/src/main/ari_client.cpp:54-77 | The client in a run against Asterisk is the client after those events |
| `CallRuns.ForksDisjoint` | pbx-agent/src/main/call_router.cpp:93 | The forks of two different callers share no leg id |
| `CallRuns.LegPerSuccess` | pbx-agent/src/main/call_router.cpp:92-104 | A call tracks exactly as many legs as originate requests succeeded |
| `CallRuns.LedgerKept` | pbx-agent/src/main/ari_client.cpp:426-485 | Admissions equal records plus open contexts, as multisets, after every event |
| `CallRuns.OneRecordPerAdmission` | pbx-agent/src/main/ari_client.cpp:426-485 | Over every run, each admission of a channel is either open or has its own record: none is lost and none gets two |
| `CallRuns.LegsGetNoCdr` | pbx-agent/src/main/ari_client.cpp:257-269 | The death of an originated leg writes no record |
| `CallRuns.BridgesCountedKept` | pbx-agent/src/main/ari_client.cpp:376-402 | The active-bridge counter is the size of the bridge table after every event |
| `SipFrame.DecodeEncode` | modules/module/pbx/inc/sip_frame.hpp:11-31 | Decoding an encoded frame followed by anything gives it back and consumes exactly its bytes; an oversize payload is refused |
| `SipFrame.EncodeDecode` | modules/module/pbx/inc/sip_frame.hpp:88-98 | Whatever decoding accepts is the encoding of the frame it returns: the format has no second spelling |
| `SipFrame.DecodeStable` | modules/module/pbx/inc/sip_frame.hpp:82-92 | Further bytes never change a verdict other than NeedMore |
| `SipFrame.ParseAppend` | pbx-agent/src/main/sip_frame_demux.cpp:8-22 | Decoding a stream in two pieces is decoding it whole, up to the first violation |
| `SipFrame.ParseConserves` | pbx-agent/src/main/sip_frame_demux.cpp:8-22 | Bytes received are the frames dispatched, encoded, followed by the residue |
| `SipFrame.ParseEncodeAll` | pbx-agent/src/main/sip_frame_demux.cpp:8-22 | Any list of encoded frames is decoded to that list, and decoding goes on behind it |
| `SipFrame.ChunkingIrrelevant` | pbx-agent/src/main/sip_frame_demux.cpp:8-22 | Every way of cutting a stream into chunks yields the same frames and the same residue |
| `SipFrame.RestIsUnfinished` | pbx-agent/src/main/sip_frame_demux.cpp:12-13 | The residue kept between calls holds no complete frame and no violation |
| `SipFrame.FramesSurviveFragmentation` | pbx-agent/src/main/sip_frame_demux.cpp:8-22 | Encoded frames are received exactly, however the transport fragments them |
| `FrameLayout.EncodedLayout` | modules/module/pbx/inc/sip_frame.hpp:11-16 | The bytes of a frame: 1, the op's code from the table, stream and length as four bytes each with the most significant first, the payload |
| `FrameLayout.DecodedLayout` | modules/module/pbx/inc/sip_frame.hpp:11-16 | What a header of ten bytes is decoded to, in plain arithmetic |
| `FrameLayout.AcceptedIff` | modules/module/pbx/inc/sip_frame.hpp:82-98 | Bytes are a frame if and only if version, op and length are in order and all of it is there |
| `FrameLayout.RefusedIff` | modules/module/pbx/inc/sip_frame.hpp:82-98 | They are refused if and only if ten of them show another version, an op outside the table or a length over 1048576 |
| `FrameLayout.CodesAre` | modules/module/pbx/inc/sip_frame.hpp:33-73 | The op table |
| `TunnelDialer.CloudConnector.SendFrame` | pbx-agent/src/main/cloud_connector.cpp:25-48 | A frame is taken by a healthy transport, or the loss is noted and the frame buffered within the bound |
| `TunnelDialer.CloudConnector.SendFrames` | pbx-agent/src/main/sip_frame_demux.cpp:58-60 | What the demultiplexer sent in one call is submitted frame by frame, in order |
| `TunnelDialer.CloudConnector.Tick` | pbx-agent/src/main/cloud_connector.cpp:50-69 | Deferred disconnect first, then heartbeat while connected, else a dial when its time has come; and what each of these does to the demultiplexer object |
| `TunnelDialer.CloudConnector.OnBytesReceived` | pbx-agent/src/main/cloud_connector.cpp:71-85 | The demultiplexer decodes and dispatches; its answers are submitted in order; the outstanding PINGs are cleared and a violation asks for a disconnect |
| `TunnelDialer.CloudConnector.AttemptConnect` | pbx-agent/src/main/cloud_connector.cpp:108-142 | A failed dial doubles the backoff up to the cap; a good one resets the timers, flushes and runs the hook even if the flush lost the transport |
| `TunnelDialer.CloudConnector.FlushOutbound` | pbx-agent/src/main/cloud_connector.cpp:168-177 | The flush loop sends from the front until the buffer is empty or a send fails; a failure cuts the demultiplexer off |
| `TunnelDialer.CloudConnector.MarkDisconnected` | pbx-agent/src/main/cloud_connector.cpp:144-166 | Dropping a transport closes every stream of the demultiplexer and takes its tunnel away, resets backoff, PINGs and the pending flag, and keeps the buffer |
| `TunnelDialer.CloudConnector.OnConnected` | pbx-agent/src/main/main.cpp:575-591 | The hook re-arms the demultiplexer, with an empty receive buffer, before it says hello |
| `TunnelDialer.CloudConnector.MaybeHeartbeat` | pbx-agent/src/main/cloud_connector.cpp:179-204 | PING per interval since the last PING; the transport is given up at the configured number outstanding |
| `TunnelDialer.CloudConnector.SendWsPing` | pbx-agent/src/main/cloud_connector.cpp:94-100 | A keep-alive that fails asks for a disconnect; without a transport it does nothing |
| `ConnectorRuns.HandOffEverywhere` | pbx-agent/src/main/cloud_connector.cpp:25-69 | In every run: nothing waits while a transport is up and healthy, the buffer keeps its bound, and frames taken followed by frames waiting are a subsequence of those submitted, all of them if unbounded |
| `ConnectorRuns.ExactlyOnceInOrder` | pbx-agent/src/main/cloud_connector.cpp:25-48 | Unbounded buffer: what successive transports took followed by what waits is what was submitted, over any drops and reconnects |
| `ConnectorRuns.FlushMoves` | pbx-agent/src/main/cloud_connector.cpp:168-177 | A flush loses and reorders nothing, and ends with an empty buffer or without a transport |
| `ConnectorRuns.NeverDroppedEarly` | pbx-agent/src/main/cloud_connector.cpp:179-196 | Monotone clock: the heartbeat never drops a peer heard within the last `max_missed * interval` |
| `ConnectorRuns.PingsBounded` | pbx-agent/src/main/cloud_connector.cpp:188-204 | Outstanding PINGs never exceed `max_missed` |
| `ConnectorRuns.SilentPeerDropped` | pbx-agent/src/main/cloud_connector.cpp:179-204 | Ticks at most d apart: no transport outlives its peer's last bytes by `(max_missed + 1) * (interval + d)` |
| `ConnectorRuns.BackoffEverywhere` | pbx-agent/src/main/cloud_connector.cpp:108-129 | Backoff is 0 without failures and `min(initial * 2^(k-1), max)` after k in a row, in every reachable state, if initial does not exceed max |
| `ConnectorRuns.BackoffAsPromisedIff` | pbx-agent/src/main/cloud_connector.cpp:113-118 | That formula holds in every reachable state if and only if `initial <= max`: the first backoff is not capped |
| `ConnectorRuns.FirstFailure` | pbx-agent/src/main/cloud_connector.cpp:113-118 | The run that shows it: one failed dial leaves the uncapped initial backoff |
| `ConnectorRuns.DialsArePaced` | pbx-agent/src/main/cloud_connector.cpp:66-68 | A dial of an outage comes no earlier than the first failure plus all backoffs in between |
| `ConnectorRuns.DueEverywhere` | pbx-agent/src/main/cloud_connector.cpp:113-121 | In every reachable state the next dial is due exactly the promised backoff after the last failure, and at once when there was none |
| `ConnectorRuns.DialsExactly` | pbx-agent/src/main/cloud_connector.cpp:66-68 | A tick without a transport dials if and only if that time has come |
| `ConnectorRuns.DialsWithin` | pbx-agent/src/main/cloud_connector.cpp:66-68 | With ticks at most d apart the next dial comes within the promised backoff plus d of the last failure |
| `DialerLaws.NotedExactly` | pbx-agent/src/main/cloud_connector.cpp:25-106 | A disconnect is pending exactly after trouble: a refused or lost send, rejected bytes, a reported loss, a failed keep-alive; no transport is dropped but at a tick |
| `DialerLaws.NotedIsDropped` | pbx-agent/src/main/cloud_connector.cpp:55-58 | The next tick gives that transport up |
| `DialerLaws.NothingThroughALostTransport` | pbx-agent/src/main/cloud_connector.cpp:29-30 | Until then nothing is sent through it |
| `DialerLaws.HealthyIsKept` | pbx-agent/src/main/cloud_connector.cpp:179-204 | A healthy transport survives a tick unless the heartbeat gives up, and a PING in trouble is noted |
| `DialerLaws.NewTransportNoted` | pbx-agent/src/main/cloud_connector.cpp:124-141 | A new transport starts with its timers reset, and trouble with the hello is noted |
| `DialerLaws.FlushNotesLoss` | pbx-agent/src/main/cloud_connector.cpp:168-177 | So is a loss reported in the middle of a flush |
| `DialerLaws.LostOnlyWhenFull` | pbx-agent/src/main/cloud_connector.cpp:43-46 | A frame is lost only to a full buffer |
| `DialerLaws.PingOnTheWire` | pbx-agent/src/main/cloud_connector.cpp:195-198 | The ten bytes of a PING |
| `DialerLaws.HelloOnTheWire` | pbx-agent/src/main/main.cpp:590-591 | The bytes of the hello |
| `ConnectorRuns.PingDespiteTraffic` | pbx-agent/src/main/cloud_connector.cpp:182-198 | A PING that is due goes out although bytes came in just before |
| `ConnectorRuns.HookAfterLostFlush` | pbx-agent/src/main/cloud_connector.cpp:134-141 | After a flush that lost the transport the hook still arms the demultiplexer, and the hello waits behind the other frames |
| `TunnelRuns.JoinedEverywhere` | pbx-agent/src/main/cloud_connector.cpp:71-177 | Over every run of dialer and demultiplexer together: they agree on the tunnel, which is there while a transport is; what the demultiplexer sent was submitted in that order; nothing submitted is lost |
| `TunnelRuns.RepliesAreNotDropped` | pbx-agent/src/main/sip_frame_demux.cpp:47-61 | While the dialer has a transport, a reply on an open stream is submitted to it |
| `TunnelRuns.SentInOrder` | pbx-agent/src/main/sip_frame_demux.cpp:47-134 | Unbounded buffer: the frames the demultiplexer ever sent are, in order, among those transports took followed by those that wait |
| `TunnelRuns.CloudIsTold` | pbx-agent/src/main/sip_frame_demux.cpp:47-134 | Over every run what was sent up is exactly this, in order: a CLOSE with its reason for every failed dial, failed write or end on the Asterisk side, a PONG for every PING, every payload of an open stream; told from the events |
| `TunnelRuns.OpenIffOpenedLast` | pbx-agent/src/main/sip_frame_demux.cpp:24-142 | Over every run a stream is open if and only if the last thing that concerned it was an OPEN whose dial worked, the others being a CLOSE, a failed write, an end on the Asterisk side and a drop of the tunnel; and the tunnel is there unless the last news of it was a drop |
| `TunnelRuns.BufferIsResidue` | pbx-agent/src/main/sip_frame_demux.cpp:8-35 | Over every run the receive buffer is the unfinished end of the bytes since the tunnel was last cut, re-armed or found broken |
| `StreamHistory.FrameTold` | pbx-agent/src/main/sip_frame_demux.cpp:71-134 | What each frame from the cloud makes the demultiplexer send up |
| `StreamHistory.InputsTold` | pbx-agent/src/main/asterisk_ws_factory.cpp:172-217 | What the frames of a socket put up: its payloads in order and the reason it ended for |
| `TunnelRuns.DialerRuns` | pbx-agent/src/main/cloud_connector.cpp:50-177 | The dialer inside the whole makes a run of its own, so every bound proved of the dialer holds there |
| `TunnelRuns.TickKeepsAgreement` | pbx-agent/src/main/cloud_connector.cpp:144-150 | Drop, failed flush and hook change the dialer's and the demultiplexer's idea of the tunnel together |
| `TunnelRuns.ReceiveAgrees` | pbx-agent/src/main/cloud_connector.cpp:71-85 | What the connector object does with inbound bytes is the step of the composed system |
| `Demultiplexer.SipFrameDemux.OnTunnelBytes` | pbx-agent/src/main/sip_frame_demux.cpp:8-22 | The decode loop dispatches exactly the frames of residue plus input, in order, keeps the rest, fails exactly on a violation, and keeps the ownership invariant |
| `Demultiplexer.SipFrameDemux.DispatchFrame` | pbx-agent/src/main/sip_frame_demux.cpp:71-134 | What each op does, including a failed write that releases the stream from inside the call: no freed adapter is used afterwards |
| `Demultiplexer.SipFrameDemux.Open` | pbx-agent/src/main/sip_frame_demux.cpp:73-90 | A duplicate OPEN is ignored; a failed dial answers CLOSE; otherwise adapter, stream and map entry are linked |
| `Demultiplexer.SipFrameDemux.CloseStream` | pbx-agent/src/main/sip_frame_demux.cpp:136-142 | Release from the tunnel side frees exactly the adapter of that stream, once, and leaves the stream without it and without a callback |
| `Demultiplexer.SipFrameDemux.Erase` | pbx-agent/src/main/sip_frame_demux.cpp:65 | Erasing an entry frees its adapter: every adapter ever made is still stored or was freed, none twice |
| `Demultiplexer.SipFrameDemux.OnAsteriskEof` | pbx-agent/src/main/sip_frame_demux.cpp:63-69 | The entry and its adapter go, and one CLOSE is sent; an unknown id changes nothing |
| `Demultiplexer.SipFrameDemux.OnTunnelDisconnect` | pbx-agent/src/main/sip_frame_demux.cpp:24-30 | Every stream is released, after which every adapter ever made has been freed exactly once; the residue is dropped and the tunnel cleared |
| `Demultiplexer.SipFrameDemux.OnAsteriskData` | pbx-agent/src/main/sip_frame_demux.cpp:47-61 | A reply goes up exactly for a known stream with a tunnel armed |
| `Demultiplexer.SipFrameDemux.Install` | pbx-agent/src/main/asterisk_ws_factory.cpp:148-154 | A new adapter, its stream and the map entry satisfy the ownership invariant |
| `Demultiplexer.AsteriskStream.NotifyEofOnce` | pbx-agent/src/main/asterisk_ws_factory.cpp:263-273 | EOF is raised at most once and frees this stream's adapter then and only then; both back pointers are cleared before it is freed; the CLOSE goes up re-entrantly |
| `Demultiplexer.AsteriskStream.HandleInput` | pbx-agent/src/main/asterisk_ws_factory.cpp:156-170 | A closed peer raises EOF once; otherwise the frames are drained; the result tells the reactor whether to keep the socket |
| `Demultiplexer.AsteriskStream.DrainFrames` | pbx-agent/src/main/asterisk_ws_factory.cpp:172-217 | The loop forwards payloads in order until the frames run out, the stream turns out to be released, or a close or bad frame ends it with its own reason |
| `Demultiplexer.AsteriskStream.WriteBytes` | pbx-agent/src/main/asterisk_ws_factory.cpp:229-241 | A failed write raises EOF from inside the call and reports failure |
| `Demultiplexer.AsteriskStream.HandleClose` | pbx-agent/src/main/asterisk_ws_factory.cpp:219-227 | The reactor's release raises EOF if nobody did, and only then lets the object go |
| `Demultiplexer.DemuxAdapter.SendBytes` | pbx-agent/src/main/asterisk_ws_factory.hpp:95-97 | Forwards to the stream while it points at one; the demultiplexer's invariant survives the re-entrant release |
| `Demultiplexer.DemuxAdapter.Close` | pbx-agent/src/main/asterisk_ws_factory.hpp:98-100 | Closing releases the stream it points at |
| `Provisioning.PjsipProvisioner.Provision` | pbx-agent/src/main/pjsip_provisioner.cpp:33-141 | Legacy auth removed, address of record before endpoint |
| `Provisioning.PjsipProvisioner.Deprovision` | pbx-agent/src/main/pjsip_provisioner.cpp:143-164 | Endpoint first, then auth and both addresses of record |
| `Provisioning.ProvisionNeverDangles` | pbx-agent/src/main/pjsip_provisioner.cpp:69-94 | After every single request of a provisioning, every endpoint still has its address of record |
| `Provisioning.DeprovisionNeverDanglesIff` | pbx-agent/src/main/pjsip_provisioner.cpp:151-163 | The same holds throughout a deprovisioning if and only if no endpoint is called like the user plus `-aor` |
| `Provisioning.NeverDanglesIff` | pbx-agent/src/main/pjsip_provisioner.cpp:33-163 | Over every sequence of calls for a set of users, every endpoint has its address of record at every moment, if and only if no user is called like another plus `-aor` |
| `Provisioning.LegacyNameDangles` | pbx-agent/src/main/pjsip_provisioner.cpp:159-163 | The two calls that show it |
| `Replication.SubscriberWatcher.RunFullScan` | pbx-agent/src/main/subscriber_watcher.cpp:60-142 | The scan loop applies the rows in the order they came |
| `Replication.SubscriberWatcher.OpenStream` | pbx-agent/src/main/subscriber_watcher.cpp:144-153 | Reopening resumes just after the stored token; without one it starts at the present |
| `Replication.SubscriberWatcher.Tick` | pbx-agent/src/main/subscriber_watcher.cpp:155-188 | Reopen attempts with their waiting time, cursor failure, and one event per tick |
| `Replication.SubscriberWatcher.Upserted` | pbx-agent/src/main/subscriber_watcher.cpp:231-243 | A document without a user name is ignored; otherwise the id is remembered and the endpoint made or removed by its status |
| `Replication.SubscriberWatcher.HandleEvent` | pbx-agent/src/main/subscriber_watcher.cpp:190-244 | The token is stored before the event is looked at; deletes go through the id cache; events without a document or of another society are skipped |
| `ReplicaRuns.CaughtUpMeansInSync` | pbx-agent/src/main/subscriber_watcher.cpp:60-244 | Once any scan, the first or a later one, has worked with nothing left over: whatever cursor failures, failed reopens, failed scans and snapshots ahead of the log happened before or after, a watcher that has caught up has provisioned exactly the society's active subscribers |
| `ReplicaRuns.TracksEverywhere` | pbx-agent/src/main/subscriber_watcher.cpp:60-244 | The invariant behind it: users without outstanding events are right; of the others the replay is still to come, and a delete that will be skipped has nothing left to delete |
| `ReplicaRuns.ScanEstablishes` | pbx-agent/src/main/subscriber_watcher.cpp:60-142 | A scan with nothing left over puts any watcher on track, however far behind its cursor is and whatever happened before |
| `ReplicaRuns.EndpointsReflect` | pbx-agent/src/main/subscriber_watcher.cpp:60-244 | In every reachable state, with failing scans, changes without documents and cursors that skip part of the log: Asterisk has a user exactly when the last thing the watcher acted on said so |
| `ReplicaRuns.InSyncIff` | pbx-agent/src/main/subscriber_watcher.cpp:60-244 | The watcher is in sync if and only if, for every user, the last change it acted on (with its document, a delete of a known id, or a row) left the user as active as the log does |
| `ReplicaRuns.KnownFromLog` | pbx-agent/src/main/subscriber_watcher.cpp:144-244 | From the last scan on, what was acted on last for each user is a function of the log alone, whatever cursors failed |
| `ReplicaRuns.InSyncFromLog` | pbx-agent/src/main/subscriber_watcher.cpp:144-244 | A watcher that has caught up is in sync if and only if the log, replayed since the last scan over what that scan showed, last told of each user what the log says now |
| `ReplicaRuns.LastThatCounts` | pbx-agent/src/main/subscriber_watcher.cpp:190-244 | Unless something about the user came later, a change with its document is the last that counts; if nothing came, what the scan showed is |
| `ReplicaRuns.ScanInSyncIff` | pbx-agent/src/main/subscriber_watcher.cpp:60-142 | A scan alone brings Asterisk in step if and only if nobody without a row is provisioned |
| `ReplicaRuns.BareUpdateIsMissed` | pbx-agent/src/main/subscriber_watcher.cpp:223-224 | A run from boot in which only a document is missing: the watcher has caught up and a disabled subscriber keeps its endpoint |
| `ReplicaRuns.GapIsMissed` | pbx-agent/src/main/subscriber_watcher.cpp:37-42 | A run from boot in which a change falls between scan and cursor: the watcher has caught up and is out of sync |
| `ReplicaRuns.HandedOverInOrder` | pbx-agent/src/main/subscriber_watcher.cpp:144-205 | In every run the events applied are one stretch of the log without gap or repetition, and a live cursor sits just after the stored token |
| `ReplicaRuns.TokenIsKept` | pbx-agent/src/main/subscriber_watcher.cpp:144-172 | Once a token is stored it is never given up: every cursor opened resumes behind it, and the position stays put however often opening fails |
| `ReplicaRuns.EndpointsResolveIff` | pbx-agent/src/main/pjsip_provisioner.cpp:33-163 | For the watcher of a society: every endpoint has its address of record throughout every run on every log, if and only if no user of that society is called like another plus `-aor` |
| `ReplicaRuns.ReplayKeepsTracking` | pbx-agent/src/main/subscriber_watcher.cpp:190-244 | Replaying a stale event over a newer snapshot keeps the invariant |
| `ReplicaRuns.SnapshotKeepsTracking` | pbx-agent/src/main/subscriber_watcher.cpp:45-58 | A snapshot that runs ahead of the log keeps it |
| `ReplicaRuns.GapKeepsTracking` | pbx-agent/src/main/subscriber_watcher.cpp:37-42 | Opening a cursor without a token keeps it when the gap was quiet |
| `ReopenRuns.SixTicksAnAttempt` | pbx-agent/src/main/subscriber_watcher.cpp:155-172 | In every run any six ticks during which the stream is down contain an attempt to open it, whatever else happens in between |
| `ReopenRuns.RetriesAtOnce` | pbx-agent/src/main/subscriber_watcher.cpp:176-184 | In every run the tick after a failed poll makes one |
| `ReopenRuns.SkipBounded` | pbx-agent/src/main/subscriber_watcher.cpp:160-164 | The wait is never longer than five ticks |
| `ReopenRuns.ReopenPacing` | pbx-agent/src/main/subscriber_watcher.cpp:155-172 | While the stream is down, attempts come exactly every sixth tick once the pending wait has run out |
| `WatcherHistory.KnowsWhatItWasShown` | pbx-agent/src/main/subscriber_watcher.cpp:208-238 | In every run the watcher knows an id, and its user, if and only if it was shown it since the id was last gone |
| `DispatchQueue.JobsLeaveInOrderOnce` | pbx-agent/src/main/ari_dispatch_task.cpp:71-178 | Under any interleaving, restarts included, jobs leave the queue in the order accepted, each once; accepted is run, freed and queued |
| `DispatchQueue.JobsRunInOrderOnce` | pbx-agent/src/main/ari_dispatch_task.cpp:71-178 | Without a start() after stop() the jobs run are a prefix of those accepted, without repetition |
| `DispatchQueue.NothingStartsAfterStop` | pbx-agent/src/main/ari_dispatch_task.cpp:88-120 | Once the winning `stop()` has returned, in any run from the start, no job starts or is freed, also with a start() still under way, unless start() is called again |
| `DispatchQueue.RestartRunsJobs` | pbx-agent/src/main/ari_dispatch_task.cpp:71-86 | A run from the start in which a later start() does run a job |
| `DispatchQueue.QueueStaysEmpty` | pbx-agent/src/main/ari_dispatch_task.cpp:122-139 | With no producer between check and enqueue when `stop()` returned, the queue stays empty |
| `DispatchQueue.StrandedIffInFlight` | pbx-agent/src/main/ari_dispatch_task.cpp:115-139 | After `stop()` a job is or can be left in the queue if and only if one is there already or the queue is active and some producer has passed the flag check and not yet enqueued |
| `DispatchQueue.JobIsStranded` | pbx-agent/src/main/ari_dispatch_task.cpp:122-139 | A run from the start that leaves one |
| `DispatchQueue.StopCanJoinIff` | pbx-agent/src/main/ari_dispatch_task.cpp:100-109 | In every reachable state in which `stop()` waits, it can get to join the worker without help if and only if the worker is not asleep on an empty active queue with no producer on its way |
| `DispatchQueue.StopCanJoin` | pbx-agent/src/main/ari_dispatch_task.cpp:100-109 | If only a deactivated queue refuses messages, on which `getq` fails too, `stop()` can always get to join |
| `DispatchQueue.RefusedPoisonBlocks` | pbx-agent/src/main/ari_dispatch_task.cpp:103-104 | A run from the start in which an active queue refuses the message and the worker is asleep |
| `FrameOutbox.ReactorFrameOutbox.HandleException` | pbx-agent/src/main/main.cpp:206-215 | The drain empties the outbox and passes every frame to the dialer in order |
| `FrameOutbox.PostOrderKept` | pbx-agent/src/main/main.cpp:183-226 | Over every interleaving of posts, swaps, sends and other dialer events, posted frames are sent, in hand or queued, in order; those sent reach the transports or the buffer in post order |
| `UrlCodec.UrlEncode` | pbx-agent/src/main/ari_rest_client.cpp:434-447 | The loop computes the percent-encoding |
| `UrlCodec.PctDecode` | modules/module/http/src/message_parser.cpp:12-27 | The loop computes the decoding, including plus signs, a trailing percent sign and the texts it throws on |
| `UrlCodec.DecodeEncoded` | modules/module/http/src/message_parser.cpp:12-27 | Decoding encoded text followed by anything gives the original followed by the decoded rest |
| `UrlCodec.UrlRoundTrip` | pbx-agent/src/main/ari_rest_client.cpp:434-447 | `pct_decode(url_encode(s))` is `s` for every byte string |
| `UrlCodec.EncodedIsPlain` | pbx-agent/src/main/ari_rest_client.cpp:434-447 | Encoded text holds unreserved characters and percent signs only |
| `UrlCodec.UnreservedUnchanged` | pbx-agent/src/main/ari_rest_client.cpp:434-447 | Unreserved text is not changed |
| `UrlCodec.UnreservedIs` | pbx-agent/src/main/ari_rest_client.cpp:434-447 | The unreserved characters by their codes (section 2.3 of RFC 3986) |
| `UrlCodec.EncodedCharIs` | pbx-agent/src/main/ari_rest_client.cpp:438-445 | Any other byte is a percent sign and two upper-case digits, the higher half first |
| `UrlCodec.DecodePlain` | modules/module/http/src/message_parser.cpp:16-25 | A plus sign is a space, any other character but the percent sign itself |
| `UrlCodec.DecodePair` | modules/module/http/src/message_parser.cpp:18-21 | Two hexadecimal digits in either case are the byte they write |
| `UrlCodec.DecodeCutShort` | modules/module/http/src/message_parser.cpp:18-24 | A percent sign at the end stands for itself |
| `UrlCodec.DecodeThrows` | modules/module/http/src/message_parser.cpp:19-20 | On two characters that do not begin like a number the decoder throws |
| `Base64.Base64Encode` | pbx-agent/src/main/ari_rest_client.cpp:451-482 | The byte-wise loop computes the encoding |
| `Base64.PackedEncode` | pbx-agent/src/main/ari_ws_client.cpp:27-44 | The 24-bit packing loop, on any number of bytes, computes its encoding |
| `Base64.EncodersAgree` | pbx-agent/src/main/ari_ws_client.cpp:27-44 | The two encoders agree on every input |
| `Base64.EncodedLength` | pbx-agent/src/main/ari_rest_client.cpp:455 | The length is `4 * ceil(n / 3)` |
| `Base64.EncodeThenDecode` | pbx-agent/src/main/ari_rest_client.cpp:451-482 | A decoder for section 4 of RFC 4648 recovers every byte string |
| `Base64.DecodeThenEncode` | pbx-agent/src/main/ari_ws_client.cpp:224-255 | What that decoder accepts is exactly what the encoder writes |
| `Base64.EncodedChars` | pbx-agent/src/main/ari_rest_client.cpp:451-482 | Encodings hold alphabet characters and padding only |
| `Base64.AlphabetIs` | pbx-agent/src/main/ari_rest_client.cpp:452-453 | The alphabet, letter by letter |
| `Base64.KnownEncodings` | pbx-agent/src/main/ari_rest_client.cpp:451-482 | Test vectors of section 10 of RFC 4648 |
| `Chunked.ChunksDecode` | modules/module/http/src/http_parser.cpp:8-40 | Every list of non-empty chunks, any data, any extensions without CRLF, any trailers, decodes to the concatenated data |
| `Chunked.ChunksThenRest` | modules/module/http/src/http_parser.cpp:12-37 | Chunks that are there in full are decoded, and decoding goes on behind them |
| `Chunked.DecodingEnds` | modules/module/http/src/http_parser.cpp:29-33 | The last chunk and one that is cut short end it |
| `Chunked.NotASize` | modules/module/http/src/http_parser.cpp:22-27 | So does a line that is no size |
| `ChunkLoop.DecodeChunked` | modules/module/http/src/http_parser.cpp:8-40 | The loop, pass by pass and with positions modulo 2^64, for any number of passes |
| `ChunkLoop.StopsSoonOrNever` | modules/module/http/src/http_parser.cpp:12-37 | A loop that has not stopped after one pass per input byte and one more never stops |
| `ChunkLoop.LoopEndsIff` | modules/module/http/src/http_parser.cpp:29-36 | The loop ends with the decoding of its input if and only if no size line it reaches wraps, or the first that does ends the input and jumps to where nothing more is decoded |
| `ChunkLoop.EndlessLoop` | modules/module/http/src/http_parser.cpp:32-36 | Twenty bytes on which it never stops |
| `ChunkLoop.WrapsAndStillEnds` | modules/module/http/src/http_parser.cpp:32-36 | An input that wraps and is decoded all the same |
| `ChunkLoop.ChunksLoopEnds` | modules/module/http/src/http_parser.cpp:8-40 | The loop ends with the concatenated data for every list of non-empty chunks with any data, extensions and trailers |
| `ChunkLoop.ResultIff` | modules/module/http/src/http_parser.cpp:12-39 | What the parser takes for the body is what the loop ends with; nothing if it does not end |
| `NumberText.StoulDecimal` | modules/module/http/src/http_parser.cpp:189 | The length text of a header is read back for every 64-bit length |
| `NumberText.StoulHexDigits` | modules/module/http/src/http_parser.cpp:24 | A chunk size is read back from its hexadecimal digits |
| `NumberText.StoulReads` | modules/module/http/src/http_parser.cpp:189 | Digits are read up to the first character that is none; too large a number throws |
| `NumberText.StoulSigned` | modules/module/http/src/http_parser.cpp:189 | A plus sign changes nothing, a minus sign negates modulo 2^64 |
| `NumberText.HexReads` | modules/module/http/src/http_parser.cpp:24 | Hexadecimal digits in either case, with or without `0x` |
| `HttpText.HeaderEnd` | modules/module/http/src/message_parser.cpp:29-35 | The first blank line of a message is the one its writer ended the header block with |
| `HttpMessage.Http.Parse` | modules/module/http/src/http_parser.cpp:92-99 | Header, start line, header lines and body as the constructor fills them, and exactly the inputs it throws on or never returns from |
| `HttpMessage.Http.ParseUri` | modules/module/http/src/http_parser.cpp:101-135 | Verb, decoded path and query fields of a start line |
| `HttpMessage.Http.ParseFields` | modules/module/http/src/http_parser.cpp:126-134 | The query loop: fields without an equals sign are skipped, the first value of a name stays |
| `HttpMessage.Http.ParseMimeHeader` | modules/module/http/src/message_parser.cpp:46-68 | The header loop up to the blank line |
| `HttpMessage.MessageLength` | modules/module/http/src/http_parser.cpp:147-212 | The framing loop and its four rules, with the 64-bit wrap of the sum |
| `HttpLaws.HeadRead` | modules/module/http/src/http_parser.cpp:92-135 | Whatever the framing, header, verb, path and names are read from the head |
| `HttpLaws.ChunkedRead` | modules/module/http/src/http_parser.cpp:222-224 | Chunked coding goes before a length, and the body of a chunked message is its chunks' data |
| `HttpLaws.LengthRaw` | modules/module/http/src/http_parser.cpp:225-227 | A length takes that many bytes, or all there are |
| `HttpLaws.BadLength` | modules/module/http/src/http_parser.cpp:227 | A length that is no number throws |
| `HttpLaws.NoBody` | modules/module/http/src/http_parser.cpp:228-230 | Without any framing there is no body |
| `HttpLaws.MultipartRaw` | modules/module/http/src/http_parser.cpp:229-240 | A multipart body ends with the first closing boundary and the line end behind it |
| `HttpLaws.BoundaryRead` | modules/module/http/src/http_parser.cpp:43-57 | The boundary is what follows its name, up to a semicolon and without white space at its end |
| `HttpLaws.Inflated` | modules/module/http/src/http_parser.cpp:242-243 | A body is inflated exactly for gzip and deflate |
| `HttpLaws.LengthByFraming` | modules/module/http/src/http_parser.cpp:147-174 | The length of a message is told by its headers and what stands behind them |
| `HttpLaws.LastCounts` | modules/module/http/src/http_parser.cpp:159-174 | For the framing the last header of a kind counts |
| `HttpLaws.FramingRules` | modules/module/http/src/http_parser.cpp:177-211 | The framing rules one by one, with the texts and numbers they look for |
| `HttpLaws.MultipartFramed` | modules/module/http/src/http_parser.cpp:196-207 | A multipart message ends with its closing line |
| `HttpLaws.StartLines` | modules/module/http/src/http_parser.cpp:106-117 | How the spaces of a start line divide it |
| `HttpLaws.HeaderShape` | modules/module/http/src/message_parser.cpp:53-66 | The value of a header starts two characters behind its colon, and an empty line ends the headers |
| `HttpLaws.Skipped` | modules/module/http/src/message_parser.cpp:58-60 | A field without an equals sign and a line without a colon say nothing |
| `HttpLaws.LowerIs` | modules/module/http/src/message_parser.cpp:6-10 | Upper-case letters by their codes |
| `AriRequests.WireText` | pbx-agent/src/main/ari_rest_client.cpp:366-383 | The request text literally: start line, Host, Authorization, the optional Content-Type, Content-Length, Connection, blank line, body |
| `AriRequests.RequestRead` | modules/module/http/src/http_parser.cpp:92-135 | Every well-formed request followed by any bytes is parsed to its verb, decoded path, query fields, headers and body |
| `AriRequests.RequestFramed` | modules/module/http/src/http_parser.cpp:147-212 | `message_length` of a request followed by any bytes is the request's own length |
| `AriRequests.QueryRecovered` | modules/module/http/src/message_parser.cpp:41-44 | Looking up a query name gives the value it was built with, whatever the headers are |
| `AriRequests.Lookup` | modules/module/http/src/message_parser.cpp:37-44 | After any additions a name in any case of letters has the first value it was given |
| `AriRequests.CredentialsRecovered` | modules/module/http/src/message_parser.cpp:41-44 | Host and Authorization are read back |
| `AriCalls.CallRecovered` | pbx-agent/src/main/ari_rest_client.cpp:211-402 | For all byte-string arguments, each of the ten requests is read back by the repository's own parser: verb, decoded path, every query value, body, and its exact length |
| `AriTexts.EveryCallAsks` | pbx-agent/src/main/ari_rest_client.cpp:211-402 | The target of each of the ten requests, written out: paths, names, separators and order |
| `AriCalls.PriorityUnchanged` | pbx-agent/src/main/ari_rest_client.cpp:219 | The one value written without encoding would not be changed by it |
| `AriCalls.ForeignIsEmpty` | pbx-agent/src/main/ari_rest_client.cpp:254-255 | A field left off the request, such as an empty caller id, reads as empty |
| `AriCalls.LoginRecovered` | pbx-agent/src/main/ari_rest_client.cpp:451-482 | Parsing any of the requests gives the login back out of the Authorization header; its encoding never breaks the header line |

## Left out

- Chunked framing inside `message_length` searches for the terminal text and can match inside data; only where it finds it is stated, not that it finds the end of the body.
- `decompress` (zlib) is a parameter of the parser; the parts of a multipart body are not taken apart, as the original does not either.
- `sip_frame.cpp` is not part of this model; encoding and decoding follow the layout, the op table and the statuses of the header and of section 7 of DESIGN.md.
- TunnelDialer.CloudConnector.OnConnected: the snapshot of the register states that the hook hands to the worker is left out; its frames come in through the outbox.
- TunnelDialer.CloudConnector.OnBytesReceived: a connector without a demultiplexer, which the agent never has, is left out.
- Demultiplexer.SipFrameDemux.OnTunnelDisconnect: closes and drops the streams one by one, where the original closes all of them and then clears the map; the end state is the same.
- The other ops the demultiplexer only passes to handlers (SOCIETY_BOOTSTRAP, SUBSCRIBER_REVOKED) change none of the modelled state.
- Demultiplexer.AsteriskStream.DrainFrames: WebSocket decoding is left out, the frames come decoded; a payload read by a socket whose EOF was already raised is still forwarded if its stream id has been opened again meanwhile, as in the original; ids are therefore not claimed to be private to one socket.
- WebSocket framing, PING and PONG frames, upgrade requests and responses, TLS, sockets and the reactor.
- JSON: events, rows and directory answers start out typed; `resolve_targets`, `lookup_flat_number` and the presence and revocation handlers of the event client are easy given those.
- The hangup cause text and the caller name in call records.
- `int` overflow when a backoff is doubled.
- The synchronous mode and the destructor of the dispatch task.
- Provisioning.PjsipProvisioner.Provision: says which objects exist, not what their fields hold.
- Failing PUT and DELETE requests of the provisioner, which the original logs and ignores.
- `build_subscribe_request` and `parse_response` of the REST client: the first repeats a query name, the second is a status-line reader; both would add easy members.
- Data races inside the dialer and the demultiplexer, which their headers exclude by running on one thread.
- `SipBridge`, the push sender, the SMTP module, the mobile and web clients, password hashing.
