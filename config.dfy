/**
 * Configuration values consumed by the socket builder: per-channel delivery
 * semantics and the ICE server description.
 */
module Config {
  import opened Wrappers

  /** Rust's u16, used for retransmit counts and connection attempts. */
  newtype u16 = x: int | 0 <= x < 0x1_0000

  /** Delivery semantics of one data channel. */
  datatype ChannelConfig = ChannelConfig(ordered: bool, maxRetransmits: Option<u16>)

  /** Out of order, no retransmission: packets arrive quickly or not at all. */
  function Unreliable(): (c: ChannelConfig)
    ensures !c.ordered
    ensures c.maxRetransmits == Some(0)
  {
    ChannelConfig(false, Some(0))
  }

  /** In order, retransmitted until delivered (no retransmit bound). */
  function Reliable(): (c: ChannelConfig)
    ensures c.ordered
    ensures c.maxRetransmits == None
  {
    ChannelConfig(true, None)
  }

  /** One ICE server: several URLs and optional credentials. */
  datatype IceServerConfig = IceServerConfig(
    urls: seq<string>,
    username: Option<string>,
    credential: Option<string>)

  const GoogleStun: string := "stun:stun.l.google.com:19302"
  const GoogleStun1: string := "stun:stun1.l.google.com:19302"

  /** The default ICE server: two public STUN URLs and no credentials. */
  function DefaultIceServer(): (c: IceServerConfig)
    ensures c.urls == [GoogleStun, GoogleStun1]
    ensures c.username == None && c.credential == None
  {
    IceServerConfig([GoogleStun, GoogleStun1], None, None)
  }

  /**
   * What the builder hands to the orchestrator: the room to join, the ICE
   * server, the channel list in configured order and the signalling retry bound
   * (None: retry forever).
   */
  datatype SocketConfig = SocketConfig(
    roomUrl: string,
    iceServer: IceServerConfig,
    channels: seq<ChannelConfig>,
    attempts: Option<u16>)
}
