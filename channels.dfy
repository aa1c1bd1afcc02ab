/**
 * One channel's pipe pair. The caller-facing handle sends onto the outbound
 * queue and drains the inbound queue; the message process owns the other
 * ends; Deliver models the message process's sending end.
 */
module Channels {
  import opened Peers

  newtype byte = x: int | 0 <= x < 0x100

  /** Opaque application payload. */
  type Packet = seq<byte>

  /** A packet addressed to, or received from, one peer. */
  type Addressed = (PeerId, Packet)

  class WebRtcChannel {
    /** Packets the caller sent, waiting for the message process (to_peer). */
    var outbound: seq<Addressed>
    /** Packets the message process received, waiting for the caller (from_peer). */
    var inbound: seq<Addressed>

    /** A fresh pipe pair with both queues empty. */
    constructor ()
      ensures outbound == [] && inbound == []
    {
      outbound := [];
      inbound := [];
    }

    /** Drains every pending inbound packet, oldest first; an empty queue gives an empty result. */
    method Receive() returns (received: seq<Addressed>)
      modifies this`inbound
      ensures received == old(inbound)
      ensures inbound == []
    {
      received := [];
      while inbound != []
        invariant received + inbound == old(inbound)
        decreases |inbound|
      {
        received := received + [inbound[0]];
        inbound := inbound[1..];
      }
    }

    /** Queues `packet` for `peer`; never blocks. */
    method Send(packet: Packet, peer: PeerId)
      modifies this`outbound
      ensures outbound == old(outbound) + [(peer, packet)]
    {
      outbound := outbound + [(peer, packet)];
    }

    /** The message process handing a packet from `peer` to the caller. */
    method Deliver(peer: PeerId, packet: Packet)
      modifies this`inbound
      ensures inbound == old(inbound) + [(peer, packet)]
    {
      inbound := inbound + [(peer, packet)];
    }
  }

  /** Packets delivered before one Receive come back together, in delivery order, and then the queue is empty. */
  method DeliverThenReceive(c: WebRtcChannel, packets: seq<Addressed>) returns (received: seq<Addressed>)
    requires c.inbound == []
    modifies c`inbound
    ensures received == packets && c.inbound == []
  {
    for i := 0 to |packets|
      invariant c.inbound == packets[..i]
    {
      c.Deliver(packets[i].0, packets[i].1);
      assert packets[..i + 1] == packets[..i] + [packets[i]];
    }
    assert packets[..|packets|] == packets;
    received := c.Receive();
  }
}
