/**
 * The caller-facing socket handle and its builder. The handle aggregates the
 * channel slots, the peer table with its pending state events, and the
 * identity latch with its single-slot handoff.
 */
module Socket {
  import opened Wrappers
  import opened Config
  import opened Peers
  import opened Identity
  import opened Channels

  /**
   * The orchestration unit returned by Build: the configuration moved into it
   * and the message-process ends of the channel pipes, index i for channel i.
   */
  datatype MessageLoopFuture = MessageLoopFuture(config: SocketConfig, links: seq<WebRtcChannel>)

  class WebRtcSocket {
    /** The identity latch: set at most once. */
    var id: Option<PeerId>
    /** The capacity-one identity handoff filled by the message process. */
    var idSlot: Option<PeerId>
    /** Peer-state events the message process has emitted and update_peers has not drained. */
    var peerStateRx: seq<StateEvent>
    /** Last observed state per peer. */
    var peers: PeerTable
    /** One slot per configured channel; None once taken. */
    var channels: seq<Option<WebRtcChannel>>

    /** The handle as Build assembles it: given slots, empty table, empty latch. */
    constructor (slots: seq<Option<WebRtcChannel>>)
      ensures channels == slots
      ensures id == None && idSlot == None && peerStateRx == [] && peers == map[]
    {
      id, idSlot := None, None;
      peerStateRx := [];
      peers := map[];
      channels := slots;
    }

    /** Borrows the handle of channel i, None if it was taken; changes nothing. */
    method Channel(i: nat) returns (c: Option<WebRtcChannel>)
      requires i < |channels|
      ensures c == channels[i]
    {
      c := channels[i];
    }

    /** Takes the handle of channel i out of its slot; the slot is None afterwards. */
    method TakeChannel(i: nat) returns (c: Option<WebRtcChannel>)
      requires i < |channels|
      modifies this`channels
      ensures c == old(channels[i])
      ensures channels == old(channels)[i := None]
    {
      c := channels[i];
      channels := channels[i := None];
    }

    /**
     * Drains every pending state event into the table and returns the events
     * that changed a recorded state, in order.
     */
    method UpdatePeers() returns (changes: seq<StateEvent>)
      modifies this`peers, this`peerStateRx
      ensures peerStateRx == []
      ensures peers == Diff(old(peers), old(peerStateRx)).0
      ensures changes == Diff(old(peers), old(peerStateRx)).1
    {
      ghost var drained: seq<StateEvent> := [];
      changes := [];
      while peerStateRx != []
        invariant drained + peerStateRx == old(peerStateRx)
        invariant peers == Diff(old(peers), drained).0
        invariant changes == Diff(old(peers), drained).1
        decreases |peerStateRx|
      {
        var event := peerStateRx[0];
        peerStateRx := peerStateRx[1..];
        var previous := Recorded(peers, event.0);
        peers := peers[event.0 := event.1];
        if previous != Some(event.1) {
          changes := changes + [event];
        }
        assert (drained + [event])[..|drained|] == drained;
        drained := drained + [event];
      }
      assert drained == drained + peerStateRx;
    }

    /** Peers whose recorded state is Connected. */
    function ConnectedPeers(): (r: set<PeerId>)
      reads this
      ensures r <= peers.Keys
      ensures forall p :: p in r <==> Recorded(peers, p) == Some(PeerState.Connected)
    {
      set p | p in peers && peers[p] == PeerState.Connected
    }

    /** Peers whose recorded state is Disconnected. */
    function DisconnectedPeers(): (r: set<PeerId>)
      reads this
      ensures r <= peers.Keys
      ensures forall p :: p in r <==> Recorded(peers, p) == Some(PeerState.Disconnected)
    {
      set p | p in peers && peers[p] == PeerState.Disconnected
    }

    /** The two filters split the table's keys by state. */
    lemma PeersPartition()
      ensures ConnectedPeers() + DisconnectedPeers() == peers.Keys
      ensures ConnectedPeers() !! DisconnectedPeers()
      ensures forall p :: p in ConnectedPeers() <==> Recorded(peers, p) == Some(PeerState.Connected)
    {
    }

    /**
     * The local id: the latched value if there is one, else whatever the
     * handoff slot holds, which is then latched; None before assignment.
     */
    method Id() returns (r: Option<PeerId>)
      modifies this`id, this`idSlot
      ensures Poll(r, id, idSlot) == PollId(old(id), old(idSlot))
    {
      if id.Some? {
        r := id;
      } else if idSlot.Some? {
        r := idSlot;
        id := idSlot;
        idSlot := None;
      } else {
        r := None;
      }
    }

    /** The message process emitting a peer-state event. */
    method DeliverPeerState(peer: PeerId, state: PeerState)
      modifies this`peerStateRx
      ensures peerStateRx == old(peerStateRx) + [(peer, state)]
    {
      peerStateRx := peerStateRx + [(peer, state)];
    }

    /** The message process offering an id on the capacity-one link. */
    method OfferId(sent: PeerId)
      modifies this`idSlot
      ensures idSlot == Offer(old(idSlot), Some(sent))
    {
      if idSlot.None? {
        idSlot := Some(sent);
      }
    }

    /** A socket with one unreliable channel and every other setting at its default. */
    static method NewUnreliable(roomUrl: string) returns (socket: WebRtcSocket, future: MessageLoopFuture)
      ensures fresh(socket) && |future.links| == 1 && socket.channels == [Some(future.links[0])]
      ensures fresh(future.links[0]) && future.links[0].inbound == [] && future.links[0].outbound == []
      ensures socket.id == None && socket.idSlot == None
      ensures socket.peerStateRx == [] && socket.peers == map[]
      ensures future.config == SocketConfig(roomUrl, DefaultIceServer(), [Unreliable()], Some(3))
    {
      var builder := new WebRtcSocketBuilder(roomUrl);
      builder.AddUnreliableChannel();
      socket, future := builder.Build();
    }

    /** A socket with one reliable channel and every other setting at its default. */
    static method NewReliable(roomUrl: string) returns (socket: WebRtcSocket, future: MessageLoopFuture)
      ensures fresh(socket) && |future.links| == 1 && socket.channels == [Some(future.links[0])]
      ensures fresh(future.links[0]) && future.links[0].inbound == [] && future.links[0].outbound == []
      ensures socket.id == None && socket.idSlot == None
      ensures socket.peerStateRx == [] && socket.peers == map[]
      ensures future.config == SocketConfig(roomUrl, DefaultIceServer(), [Reliable()], Some(3))
    {
      var builder := new WebRtcSocketBuilder(roomUrl);
      builder.AddReliableChannel();
      socket, future := builder.Build();
    }
  }

  class WebRtcSocketBuilder {
    /** The signalling room to join. */
    var roomUrl: string
    /** The single ICE server. */
    var iceServer: IceServerConfig
    /** The data channels, in the order they were added. */
    var channels: seq<ChannelConfig>
    /** Signalling connection attempts; None retries forever. */
    var attempts: Option<u16>

    /** Default ICE server, no channels, three attempts. */
    constructor (roomUrl: string)
      ensures this.roomUrl == roomUrl && iceServer == DefaultIceServer()
      ensures channels == [] && attempts == Some(3)
    {
      this.roomUrl := roomUrl;
      iceServer := DefaultIceServer();
      channels := [];
      attempts := Some(3);
    }

    /** Replaces the ICE server configuration. */
    method IceServer(server: IceServerConfig)
      modifies this`iceServer
      ensures iceServer == server
    {
      iceServer := server;
    }

    /** Replaces the retry bound. */
    method ReconnectAttempts(bound: Option<u16>)
      modifies this`attempts
      ensures attempts == bound
    {
      attempts := bound;
    }

    /** Appends one channel configuration. */
    method AddChannel(config: ChannelConfig)
      modifies this`channels
      ensures channels == old(channels) + [config]
    {
      channels := channels + [config];
    }

    /** Appends a reliable channel. */
    method AddReliableChannel()
      modifies this`channels
      ensures channels == old(channels) + [Reliable()]
    {
      channels := channels + [Reliable()];
    }

    /** Appends an unreliable channel. */
    method AddUnreliableChannel()
      modifies this`channels
      ensures channels == old(channels) + [Unreliable()]
    {
      channels := channels + [Unreliable()];
    }

    /**
     * Builds the handle and its orchestration unit: one fresh, empty,
     * distinct pipe pair per configured channel, present in slot i of the
     * handle and at index i of the unit; an empty peer table and latch.
     * A builder without channels is a programming error.
     */
    method Build() returns (socket: WebRtcSocket, future: MessageLoopFuture)
      requires channels != []
      ensures fresh(socket)
      ensures future.config == SocketConfig(roomUrl, iceServer, channels, attempts)
      ensures |socket.channels| == |future.links| == |channels|
      ensures forall i :: 0 <= i < |channels| ==> socket.channels[i] == Some(future.links[i])
      ensures forall i :: 0 <= i < |future.links| ==>
        fresh(future.links[i]) && future.links[i].inbound == [] && future.links[i].outbound == []
      ensures forall i, j :: 0 <= i < j < |future.links| ==> future.links[i] != future.links[j]
      ensures socket.id == None && socket.idSlot == None
      ensures socket.peerStateRx == [] && socket.peers == map[]
    {
      var links: seq<WebRtcChannel> := [];
      var slots: seq<Option<WebRtcChannel>> := [];
      while |links| < |channels|
        invariant |slots| == |links| <= |channels|
        invariant forall i :: 0 <= i < |links| ==> slots[i] == Some(links[i])
        invariant forall i :: 0 <= i < |links| ==>
          fresh(links[i]) && links[i].inbound == [] && links[i].outbound == []
        invariant forall i, j :: 0 <= i < j < |links| ==> links[i] != links[j]
        decreases |channels| - |links|
      {
        var link := new WebRtcChannel();
        links := links + [link];
        slots := slots + [Some(link)];
      }
      socket := new WebRtcSocket(slots);
      future := MessageLoopFuture(SocketConfig(roomUrl, iceServer, channels, attempts), links);
    }
  }

  /** After take_channel(i), both channel(i) and a second take_channel(i) see None; other slots are kept. */
  method TakeChannelOnce(socket: WebRtcSocket, i: nat) returns (taken: Option<WebRtcChannel>)
    requires i < |socket.channels|
    modifies socket`channels
    ensures taken == old(socket.channels[i])
    ensures |socket.channels| == old(|socket.channels|) && socket.channels[i] == None
    ensures forall j :: 0 <= j < |socket.channels| && j != i ==> socket.channels[j] == old(socket.channels[j])
  {
    taken := socket.TakeChannel(i);
    var borrowed := socket.Channel(i);
    assert borrowed == None;
    var again := socket.TakeChannel(i);
    assert again == None;
  }

  /** A second update_peers with no new events reports nothing and leaves the table alone. */
  method UpdatePeersTwice(socket: WebRtcSocket) returns (first: seq<StateEvent>, second: seq<StateEvent>)
    modifies socket`peers, socket`peerStateRx
    ensures first == Diff(old(socket.peers), old(socket.peerStateRx)).1
    ensures second == []
    ensures socket.peers == Diff(old(socket.peers), old(socket.peerStateRx)).0
  {
    first := socket.UpdatePeers();
    second := socket.UpdatePeers();
  }

  /** Before assignment id() is None; the first id offered is latched and later offers do not change it. */
  method IdLatchesFirstOffer(socket: WebRtcSocket, first: PeerId, later: PeerId)
    returns (before: Option<PeerId>, latched: Option<PeerId>, after: Option<PeerId>)
    requires socket.id == None && socket.idSlot == None
    modifies socket`id, socket`idSlot
    ensures before == None && latched == Some(first) && after == Some(first)
  {
    before := socket.Id();
    socket.OfferId(first);
    latched := socket.Id();
    socket.OfferId(later);
    after := socket.Id();
  }
}
