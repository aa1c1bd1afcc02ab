# matchbox WebRTC socket: orchestration layer

A Dafny model of the synchronous orchestration layer of matchbox's WebRTC
socket (`matchbox_socket/src/webrtc_socket/socket.rs`): the channel presets
and default ICE server, the socket builder, the per-channel handles, the
socket handle (channel slots, peer table and its change diff, identity latch),
the termination rule of the task that races the signalling process against
the message process, and the readiness gate over per-channel readiness links.

Every asynchronous queue is a `seq`. The sender ends held by the message
process are methods on the same objects (`WebRtcChannel.Deliver`,
`WebRtcSocket.DeliverPeerState`, `WebRtcSocket.OfferId`), so callers of the
model can put events in front of the operations under study.

Modules, one file each:

- `Wrappers` (`wrappers.dfy`): `Option` and `Result` as Rust has them.
- `Config` (`config.dfy`): `u16`, `ChannelConfig` with the `Reliable` and
  `Unreliable` presets, `IceServerConfig` with its default, and
  `SocketConfig`, the snapshot of the builder that the orchestrator receives.
- `Peers` (`peers.dfy`): `PeerId`, `PeerState`, and `Diff`, the specification
  of one `update_peers` drain. Lemmas say what it computes. The table maps
  each drained peer to its last state. Keys are never removed. The change
  list is the in-order filter of events that differ from the state recorded
  before them. A first sighting is always reported. A repeated event is
  suppressed.
- `Identity` (`identity.dfy`): `PollId`, one `id()` call over the latch and
  the capacity-one handoff slot. `PollSeries` is a run of such calls with ids
  arriving in between. Lemmas prove the latch is written once and every read
  after it returns the same value.
- `Channels` (`channels.dfy`): class `WebRtcChannel` with its outbound and
  inbound queues, `Send`, and a draining `Receive`.
- `Socket` (`socket.dfy`): classes
  `WebRtcSocket` and `WebRtcSocketBuilder`, plus three client methods that
  state the take-once, drain-twice and latch properties as callers see them.
- `Orchestrator` (`orchestrator.dfy`): `RunSocket`, the select loop over a
  sequence of completion events, proved equal to the reference outcome
  `Decide`, with lemmas for the outcome table. Also `WaitForReady`.

Panics of the source are preconditions: building with no channels, and a
channel index outside the configured range. The panic in `wait_for_ready`,
where a readiness sender closes before it signals, is the `SenderClosed`
outcome instead, because it depends on what the collaborator does.

Two points of the code are worth stating on their own:

- The `complete` arm at socket.rs:486 never ends the loop, because the
  message process's completion already breaks it (socket.rs:470-473).
  `BothDoneIsOk` shows that when both processes are done, with signalling
  successful, the result is Ok in either completion order.
- `build` leaves the identity latch empty (socket.rs:178). It is set only
  lazily, in `id()` (socket.rs:388-397).

## Model

| member | source | states |
|---|---|---|
| Config.Unreliable | matchbox_socket/src/webrtc_socket/socket.rs:45-50 | unordered, at most zero retransmits |
| Config.Reliable | matchbox_socket/src/webrtc_socket/socket.rs:54-59 | ordered, no retransmit bound |
| Config.DefaultIceServer | matchbox_socket/src/webrtc_socket/socket.rs:62-73 | the two Google STUN URLs in order, no username, no credential |
| Socket.WebRtcSocketBuilder.constructor | matchbox_socket/src/webrtc_socket/socket.rs:112-119 | given room, default ICE server, no channels, `Some(3)` attempts |
| Socket.WebRtcSocketBuilder.IceServer | matchbox_socket/src/webrtc_socket/socket.rs:122-125 | overwrites the ICE server and no other field |
| Socket.WebRtcSocketBuilder.ReconnectAttempts | matchbox_socket/src/webrtc_socket/socket.rs:129-132 | overwrites the retry bound and no other field |
| Socket.WebRtcSocketBuilder.AddChannel | matchbox_socket/src/webrtc_socket/socket.rs:135-138 | appends exactly the given config at the end, other fields unchanged |
| Socket.WebRtcSocketBuilder.AddReliableChannel | matchbox_socket/src/webrtc_socket/socket.rs:144-147 | appends one reliable config at the end, other fields unchanged |
| Socket.WebRtcSocketBuilder.AddUnreliableChannel | matchbox_socket/src/webrtc_socket/socket.rs:153-156 | appends one unreliable config at the end, other fields unchanged |
| Socket.WebRtcSocketBuilder.Build | matchbox_socket/src/webrtc_socket/socket.rs:161-192 | needs a channel; one fresh, empty, distinct pipe per config, present in slot i and at link i; empty latch, slot, queue and table; the unit carries the builder's configuration |
| Socket.WebRtcSocket.constructor | matchbox_socket/src/webrtc_socket/socket.rs:177-183 | handle starts with the given slots, empty latch, empty handoff, no pending events, empty table |
| Socket.WebRtcSocket.NewUnreliable | matchbox_socket/src/webrtc_socket/socket.rs:293-297 | one slot holding the unit's only link, fresh with empty queues; empty latch, handoff, event queue and table; configuration is defaults plus one unreliable channel |
| Socket.WebRtcSocket.NewReliable | matchbox_socket/src/webrtc_socket/socket.rs:306-310 | one slot holding the unit's only link, fresh with empty queues; empty latch, handoff, event queue and table; configuration is defaults plus one reliable channel |
| Channels.WebRtcChannel.constructor | matchbox_socket/src/webrtc_socket/socket.rs:221-238 | both queues of a new pipe pair are empty |
| Channels.WebRtcChannel.Receive | matchbox_socket/src/webrtc_socket/socket.rs:246-251 | returns the whole inbound queue in arrival order and leaves it empty; empty queue gives empty result |
| Channels.WebRtcChannel.Send | matchbox_socket/src/webrtc_socket/socket.rs:259-261 | appends exactly `(peer, packet)` to the outbound queue |
| Channels.WebRtcChannel.Deliver | matchbox_socket/src/webrtc_socket/socket.rs:228-236 | the message process's sender appends one packet to the inbound queue |
| Channels.DeliverThenReceive | matchbox_socket/src/webrtc_socket/socket.rs:246-251 | K packets delivered to an empty queue come back from one receive, in order, and the queue is empty afterwards |
| Socket.WebRtcSocket.Channel | matchbox_socket/src/webrtc_socket/socket.rs:316-321 | needs a valid index; returns the slot's contents and changes nothing |
| Socket.WebRtcSocket.TakeChannel | matchbox_socket/src/webrtc_socket/socket.rs:327-332 | needs a valid index; returns the slot's old contents; that slot becomes None, all others unchanged |
| Socket.TakeChannelOnce | matchbox_socket/src/webrtc_socket/socket.rs:316-332 | after a take, `channel(i)` and a second take give None; other slots unchanged |
| Socket.WebRtcSocket.UpdatePeers | matchbox_socket/src/webrtc_socket/socket.rs:345-354 | empties the pending queue; new table and returned changes are those of `Diff` on the old table and old queue |
| Socket.UpdatePeersTwice | matchbox_socket/src/webrtc_socket/socket.rs:345-354 | a second call with no new events returns nothing and leaves the table alone |
| Socket.WebRtcSocket.DeliverPeerState | matchbox_socket/src/webrtc_socket/socket.rs:166 | the message process's sender appends one state event to the pending queue |
| Peers.DiffTable | matchbox_socket/src/webrtc_socket/socket.rs:347-348 | after a drain each peer holds its last drained state, or its old entry if it had no event |
| Peers.DiffKeys | matchbox_socket/src/webrtc_socket/socket.rs:347-348 | new keys = old keys plus drained peers: nothing is removed |
| Peers.DiffChanges | matchbox_socket/src/webrtc_socket/socket.rs:347-351 | the change list is the in-order subsequence of events whose state differs from the one recorded just before them |
| Peers.DiffPrefix | matchbox_socket/src/webrtc_socket/socket.rs:346-353 | the changes of a shorter drain are a prefix of those of a longer one |
| Peers.FirstSightingReported | matchbox_socket/src/webrtc_socket/socket.rs:348-351 | the first event for an unknown peer is always in the change list |
| Peers.RepeatSuppressed | matchbox_socket/src/webrtc_socket/socket.rs:348-351 | an event equal to the one just before it adds no change |
| Peers.DiffEmpty | matchbox_socket/src/webrtc_socket/socket.rs:346-353 | draining nothing reports nothing and keeps the table |
| Peers.DiffExample | matchbox_socket/src/webrtc_socket/socket.rs:345-354 | `[(A,C),(A,C),(B,D)]` on an empty table reports `[(A,C),(B,D)]` |
| Socket.WebRtcSocket.ConnectedPeers | matchbox_socket/src/webrtc_socket/socket.rs:361-369 | exactly the table's peers recorded Connected; reads the table and changes nothing |
| Socket.WebRtcSocket.DisconnectedPeers | matchbox_socket/src/webrtc_socket/socket.rs:376-384 | exactly the table's peers recorded Disconnected; reads the table and changes nothing |
| Socket.WebRtcSocket.PeersPartition | matchbox_socket/src/webrtc_socket/socket.rs:361-384 | connected and disconnected peers are disjoint and together are the table's keys; connected means recorded Connected |
| Socket.WebRtcSocket.Id | matchbox_socket/src/webrtc_socket/socket.rs:388-397 | the answer, new latch and new slot are those of `PollId` on the old latch and slot |
| Socket.WebRtcSocket.OfferId | matchbox_socket/src/webrtc_socket/socket.rs:174 | an id sent on the capacity-one link fills an empty slot and never overwrites a full one |
| Identity.PollId | matchbox_socket/src/webrtc_socket/socket.rs:388-397 | None exactly when latch and slot are both empty; a set latch answers itself and nothing changes; otherwise the slot's value is answered, latched and consumed |
| Identity.Offer | matchbox_socket/src/webrtc_socket/socket.rs:174 | a full slot keeps its value; an empty one takes what is sent |
| Identity.LatchedAnswers | matchbox_socket/src/webrtc_socket/socket.rs:389-390 | once latched, every later call answers the latched id, whatever arrives |
| Identity.AnswerIsStable | matchbox_socket/src/webrtc_socket/socket.rs:388-397 | after the first answer with an id, every later answer is that same id |
| Identity.FirstArrivalCommitted | matchbox_socket/src/webrtc_socket/socket.rs:391-395 | from empty, answers are None until the first id is sent, then exactly that id |
| Socket.IdLatchesFirstOffer | matchbox_socket/src/webrtc_socket/socket.rs:388-397 | None before assignment; the first offered id is latched; a later offer does not change the answer |
| Orchestrator.RunSocket | matchbox_socket/src/webrtc_socket/socket.rs:466-489 | the select loop's outcome over any completion order equals the reference outcome `Decide` |
| Orchestrator.SignallingErrorIff | matchbox_socket/src/webrtc_socket/socket.rs:475-482 | the result is `Err(e)` exactly when the first completion observed is signalling with `Err(e)` |
| Orchestrator.OkIff | matchbox_socket/src/webrtc_socket/socket.rs:470-473 | the result is Ok exactly when the message loop completes and the first completion is not a signalling error |
| Orchestrator.SignallingOkKeepsRunning | matchbox_socket/src/webrtc_socket/socket.rs:476-477 | signalling success alone never ends the loop |
| Orchestrator.BothDoneIsOk | matchbox_socket/src/webrtc_socket/socket.rs:486 | both done, signalling successfully, gives Ok in either order |
| Orchestrator.DecidedIsFinal | matchbox_socket/src/webrtc_socket/socket.rs:466-489 | once the outcome is decided, later completions never change it |
| Orchestrator.WaitForReady | matchbox_socket/src/webrtc_socket/socket.rs:421-427 | all ready exactly when every link delivered; otherwise it stops at the first link that did not, in configured order, and reports a closed sender exactly when that link closed |

## Left out

- `signalling_loop` and `message_loop` (socket.rs:450-464) are not modelled. They
  carry the WebSocket and WebRTC I/O and appear only as the completion events of
  `Orchestrator.RunSocket`.
- The async machinery is not modelled: `select!`, `Fuse`, `Box::pin` and the
  scheduler. Only the order in which completions are observed is modelled.
  Fusing is modelled by ignoring a second signalling completion.
- `Orchestrator.RunSocket`: `Error::from` is the identity on the signalling error here.
- Queue closure is not modelled. `send`'s `expect("Send failed")` on a closed
  receiver (socket.rs:260) would be a precondition violation, and the model's
  queues never close. `Receive` is a drain of an open queue. On a closed,
  drained queue `try_next` returns `Ok(None)` every time; `map_while(Result::ok)`
  does not stop on it and `flatten` drops it, so, read as written, `receive()`
  (socket.rs:246-251) never returns once the message process has dropped its
  sender. The model does not capture that case.
- The atomic race of `once_cell::race::OnceBox` (socket.rs:267, 392) is not
  modelled. The latch is a plain `Option` field, so with one reader
  `get_or_init` always stores the value it was given.
- `new_senders_and_receivers` and `create_data_channels_ready_fut`
  (socket.rs:400-419) are not modelled. They only make queue pairs and wrap
  `wait_for_ready` in a fused future.
- `WebRtcSocket::builder` (socket.rs:282-284) is not modelled separately. It is
  `WebRtcSocketBuilder::new`, the builder's constructor.
- Fluent chaining is modelled as successive calls on one builder object. The
  Rust builder passes itself by value.
- Taking a channel moves it in Rust. Here the taken reference stays shareable,
  so aliasing after a take is not excluded.
- Socket.WebRtcSocket.ConnectedPeers and DisconnectedPeers return sets, not
  iterators, because the source iterates a `HashMap` in no defined order.
- Not modelled: logging, the network tests (socket.rs:496-521), the meaning of
  the ICE URL strings, and the `MessageLoopChannels` bundle (socket.rs:430-436).
- Channel indices and counts are unbounded naturals, not `usize`.
