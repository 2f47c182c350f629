/**
 * The per-connection peer handle of the network layer (`STKPeer`).
 *
 * The ENet peer it wraps is an object whose connection state, address and
 * measured round-trip time other code may change; the host's queue of
 * pending ENet commands is a log that the peer's operations append to.
 * Clock readings are parameters.
 */
module Peer {
  import opened NetworkTypes
  import opened StringUtils
  import opened Transport

  /** Samples kept for the average ping: 10 pings per second over 5 seconds. */
  const PING_WINDOW: nat := 10 * 5
  /** Milliseconds after connecting during which the ping is not yet trusted. */
  const WARM_UP_MS: nat := 3000
  /** Addresses below 0.255.255.255 + 1 stand for an IPv6 peer. */
  const IPV6_MAPPED_LIMIT: nat := 16777216

  /** The `data` argument of an ENet disconnect. */
  datatype DisconnectInfo = PdiNormal | PdiKick

  datatype Channel = EventChannelNormal | EventChannelUnencrypted

  datatype PacketFlags = FlagReliable | FlagUnsequencedUnreliableFragment

  /**
   * A packet handed to ENet: either the plain bytes with their delivery
   * flags, or the output of the session cipher for those bytes (the
   * ciphertext itself is not modelled, only what it was made from).
   */
  datatype EnetPacket =
    | PlainPacket(payload: seq<uint8>, flags: PacketFlags)
    | EncryptedPacket(plaintext: seq<uint8>, reliable: bool)

  /** A session cipher's key material. */
  datatype Crypto = Crypto(aesKey: string, aesIv: string)

  /** The transport-level peer; other parts of the network layer update it. */
  class EnetPeer {
    var connected: bool
    var address: TransportAddress
    var roundTripTime: uint32
  }

  /** A command for the host's network thread: `ECT_DISCONNECT`, `ECT_RESET`, `ECT_SEND_PACKET`. */
  datatype EnetCommand =
    | EctDisconnect(peer: EnetPeer, info: DisconnectInfo)
    | EctReset(peer: EnetPeer)
    | EctSendPacket(peer: EnetPeer, packet: EnetPacket, channel: Channel)

  /** The host, reduced to its queue of pending ENet commands. */
  class StkHost {
    var commands: seq<EnetCommand>
  }

  /** The packet `sendPacket` builds: cipher output when `encrypt`, else plain bytes. */
  function PacketFor(data: seq<uint8>, reliable: bool, encrypt: bool): EnetPacket {
    if encrypt then EncryptedPacket(data, reliable)
    else PlainPacket(data, if reliable then FlagReliable else FlagUnsequencedUnreliableFragment)
  }

  /** The channel chosen from the caller's `encrypted` argument alone. */
  function ChannelFor(encrypted: bool): Channel {
    if encrypted then EventChannelNormal else EventChannelUnencrypted
  }

  /**
   * The packet is cipher output exactly when a cipher exists and encryption
   * was asked for; the unencrypted channel never carries cipher output; and
   * a plain packet goes on the normal channel exactly when encryption was
   * asked for without a cipher.
   */
  lemma SendPacketChoices(data: seq<uint8>, reliable: bool, hasCrypto: bool, encrypted: bool)
    ensures PacketFor(data, reliable, hasCrypto && encrypted).EncryptedPacket? <==> hasCrypto && encrypted
    ensures ChannelFor(encrypted) == EventChannelUnencrypted ==> PacketFor(data, reliable, hasCrypto && encrypted).PlainPacket?
    ensures (PacketFor(data, reliable, hasCrypto && encrypted).PlainPacket? && ChannelFor(encrypted) == EventChannelNormal)
            <==> (encrypted && !hasCrypto)
    ensures !(hasCrypto && encrypted) ==>
              PacketFor(data, reliable, false).flags == (if reliable then FlagReliable else FlagUnsequencedUnreliableFragment)
  {
  }

  /** Sum of the samples, as `std::accumulate` from 0 computes it. */
  function Sum(s: seq<uint32>): nat {
    if s == [] then 0 else s[0] + Sum(s[1..])
  }

  lemma {:induction false} SumBetween(s: seq<uint32>, lo: nat, hi: nat)
    requires forall i :: 0 <= i < |s| ==> lo <= s[i] <= hi
    ensures |s| * lo <= Sum(s) <= |s| * hi
  {
    if s != [] {
      SumBetween(s[1..], lo, hi);
      assert |s| * lo == (|s| - 1) * lo + lo;
      assert |s| * hi == (|s| - 1) * hi + hi;
    }
  }

  lemma MulCancel(n: int, x: int, y: int)
    requires n > 0 && n * x <= n * y
    ensures x <= y
  {
    assert n * y - n * x == n * (y - x);
  }

  lemma DivBetween(a: nat, n: nat, lo: nat, hi: nat)
    requires n > 0 && n * lo <= a <= n * hi
    ensures lo <= a / n <= hi
  {
    var q, r := a / n, a % n;
    assert a == n * q + r && 0 <= r < n;
    assert n * q <= n * hi;
    MulCancel(n, q, hi);
    assert n * lo < n * (q + 1) by {
      assert n * (q + 1) == n * q + n;
    }
    MulCancel(n, lo, q + 1);
  }

  /** The integer mean of non-empty samples lies between their bounds. */
  lemma MeanBetween(s: seq<uint32>, lo: nat, hi: nat)
    requires |s| > 0
    requires forall i :: 0 <= i < |s| ==> lo <= s[i] <= hi
    ensures lo <= Sum(s) / |s| <= hi
  {
    SumBetween(s, lo, hi);
    DivBetween(Sum(s), |s|, lo, hi);
  }

  /** The integer mean of the samples, truncated. */
  function Mean(s: seq<uint32>): uint32
    requires |s| > 0
  {
    MeanBetween(s, 0, 0xFFFF_FFFF);
    Sum(s) / |s|
  }

  /** The last `n` elements of `s` (all of them when there are fewer). */
  function LastN<T>(s: seq<T>, n: nat): seq<T> {
    if |s| <= n then s else s[|s| - n..]
  }

  /** `getRealAddress`: the IPv4 form, or `[ipv6]:port` for an IPv6 peer. */
  function RealAddress(addr: TransportAddress, ipv6: string): (r: string)
    ensures |r| > 0 && (r[0] == '[' <==> ipv6 != "")
    ensures ipv6 != "" ==> |r| > |ipv6| + 2 && r[1..|ipv6| + 1] == ipv6 && r[|ipv6| + 1..|ipv6| + 3] == "]:"
  {
    if ipv6 == "" then ToString(addr)
    else "[" + ipv6 + "]:" + NatToString(addr.port)
  }

  /** Either form ends in ':' and the port in decimal, and the port reads back from it. */
  lemma RealAddressPort(addr: TransportAddress, ipv6: string)
    ensures AfterLast(RealAddress(addr, ipv6), ':') == NatToString(addr.port)
    ensures ParseNat(AfterLast(RealAddress(addr, ipv6), ':')) == Some(addr.port as nat)
  {
    var digits := NatToString(addr.port);
    NatToStringHasNo(addr.port, ':');
    if ipv6 == "" {
      assert RealAddress(addr, ipv6) == DottedQuad(addr.ip) + [':'] + digits;
      AfterLastOfTail(DottedQuad(addr.ip), ':', digits);
    } else {
      assert RealAddress(addr, ipv6) == "[" + ipv6 + "]" + [':'] + digits;
      AfterLastOfTail("[" + ipv6 + "]", ':', digits);
    }
    ParseNatToString(addr.port);
  }

  class StkPeer {
    const enetPeer: EnetPeer
    const host: StkHost
    const peerAddress: TransportAddress
    const ipv6Address: string
    const hostId: uint32
    const connectedTime: uint64

    var crypto: Option<Crypto>
    var validated: bool
    var averagePing: uint32
    var waitingForGame: bool
    var spectator: bool
    var disconnected: bool
    var warnedForHighPing: bool
    var lastActivity: int
    var previousPings: seq<uint32>

    /**
     * A new handle over `enet`. The clock is read twice: `connectNow` for
     * the connection time and `activityNow` for the last activity. For an
     * address in 0.x.x.x the readable IPv6 address the transport mapped to
     * it is `mappedIpv6`.
     */
    constructor (enet: EnetPeer, host: StkHost, hostId: uint32, connectNow: uint64, activityNow: uint64,
                 mappedIpv6: string)
      ensures enetPeer == enet && this.host == host && this.hostId == hostId
      ensures peerAddress == enet.address
      ensures ipv6Address == if enet.address.ip < IPV6_MAPPED_LIMIT then mappedIpv6 else ""
      ensures connectedTime == connectNow && lastActivity == activityNow
      ensures !validated && averagePing == 0 && waitingForGame && !spectator
      ensures !disconnected && !warnedForHighPing
      ensures crypto == None && previousPings == []
    {
      peerAddress := enet.address;
      this.host := host;
      ipv6Address := if enet.address.ip < IPV6_MAPPED_LIMIT then mappedIpv6 else "";
      enetPeer := enet;
      this.hostId := hostId;
      connectedTime := connectNow;
      validated := false;
      averagePing := 0;
      waitingForGame := true;
      spectator := false;
      disconnected := false;
      warnedForHighPing := false;
      lastActivity := activityNow;
      crypto := None;
      previousPings := [];
    }

    /**
     * ENet still holds this very connection: it is connected and its
     * address has not changed (ENet reuses peer slots after a disconnect).
     */
    predicate TransportMatches()
      reads enetPeer
    {
      enetPeer.connected && enetPeer.address == peerAddress
    }

    /** ENet reports the peer connected; a matching transport is always connected. */
    predicate IsConnected()
      reads enetPeer
      ensures TransportMatches() ==> IsConnected()
      ensures !IsConnected() ==> !TransportMatches()
    {
      enetPeer.connected
    }

    method Disconnect()
      modifies this`disconnected, host`commands
      ensures old(disconnected) ==> disconnected && host.commands == old(host.commands)
      ensures !old(disconnected) && !TransportMatches() ==> !disconnected && host.commands == old(host.commands)
      ensures !old(disconnected) && TransportMatches() ==>
                disconnected && host.commands == old(host.commands) + [EctDisconnect(enetPeer, PdiNormal)]
    {
      if disconnected {
        return;
      }
      if !TransportMatches() {
        return;
      }
      disconnected := true;
      host.commands := host.commands + [EctDisconnect(enetPeer, PdiNormal)];
    }

    /** Kick this peer (used by the server). */
    method Kick()
      modifies this`disconnected, host`commands
      ensures old(disconnected) ==> disconnected && host.commands == old(host.commands)
      ensures !old(disconnected) && !TransportMatches() ==> !disconnected && host.commands == old(host.commands)
      ensures !old(disconnected) && TransportMatches() ==>
                disconnected && host.commands == old(host.commands) + [EctDisconnect(enetPeer, PdiKick)]
    {
      if disconnected {
        return;
      }
      if !TransportMatches() {
        return;
      }
      disconnected := true;
      host.commands := host.commands + [EctDisconnect(enetPeer, PdiKick)];
    }

    /** Forcefully disconnect this peer (used by the server). */
    method Reset()
      modifies this`disconnected, host`commands
      ensures old(disconnected) ==> disconnected && host.commands == old(host.commands)
      ensures !old(disconnected) && !TransportMatches() ==> !disconnected && host.commands == old(host.commands)
      ensures !old(disconnected) && TransportMatches() ==>
                disconnected && host.commands == old(host.commands) + [EctReset(enetPeer)]
    {
      if disconnected {
        return;
      }
      if !TransportMatches() {
        return;
      }
      disconnected := true;
      host.commands := host.commands + [EctReset(enetPeer)];
    }

    /**
     * Queue `data` for this peer. `packetAllocated` is false when ENet or
     * the cipher fails to produce a packet (a null packet), in which case
     * nothing is queued.
     */
    method SendPacket(data: seq<uint8>, reliable: bool, encrypted: bool, packetAllocated: bool)
      modifies host`commands
      ensures disconnected || !TransportMatches() || !packetAllocated ==> host.commands == old(host.commands)
      ensures !disconnected && TransportMatches() && packetAllocated ==>
                host.commands == old(host.commands) +
                  [EctSendPacket(enetPeer, PacketFor(data, reliable, crypto.Some? && encrypted), ChannelFor(encrypted))]
    {
      if disconnected {
        return;
      }
      if !TransportMatches() {
        return;
      }
      var packet: Option<EnetPacket>;
      if crypto.Some? && encrypted {
        packet := if packetAllocated then Some(EncryptedPacket(data, reliable)) else None;
      } else {
        var flags := if reliable then FlagReliable else FlagUnsequencedUnreliableFragment;
        packet := if packetAllocated then Some(PlainPacket(data, flags)) else None;
      }
      if packet.Some? {
        var channel := if encrypted then EventChannelNormal else EventChannelUnencrypted;
        host.commands := host.commands + [EctSendPacket(enetPeer, packet.value, channel)];
      }
    }

    /** Same ENet peer underneath. */
    predicate IsSamePeer(other: StkPeer) {
      other.enetPeer == enetPeer
    }

    predicate IsSameEnetPeer(other: EnetPeer) {
      other == enetPeer
    }

    /** Still inside the first three seconds after connecting at clock reading `now`. */
    predicate InWarmUp(now: uint64)
      requires connectedTime <= now
    {
      now - connectedTime < WARM_UP_MS
    }

    /**
     * The ping to this peer. During warm-up the raw round-trip time becomes
     * the average and 0 is returned. Afterwards a server pushes the sample
     * into the window, drops the oldest until at most `PING_WINDOW` remain,
     * and re-averages after each drop.
     */
    method GetPing(now: uint64, isServer: bool) returns (ping: uint32)
      requires connectedTime <= now
      modifies this`averagePing, this`previousPings
      ensures InWarmUp(now) ==>
                ping == 0 && averagePing == enetPeer.roundTripTime && previousPings == old(previousPings)
      ensures !InWarmUp(now) ==> ping == enetPeer.roundTripTime
      ensures !InWarmUp(now) && !isServer ==>
                averagePing == old(averagePing) && previousPings == old(previousPings)
      ensures !InWarmUp(now) && isServer ==>
                previousPings == LastN(old(previousPings) + [enetPeer.roundTripTime], PING_WINDOW) &&
                |previousPings| <= PING_WINDOW
      ensures !InWarmUp(now) && isServer && |old(previousPings)| >= PING_WINDOW ==>
                averagePing == Mean(previousPings)
      ensures !InWarmUp(now) && isServer && |old(previousPings)| < PING_WINDOW ==>
                averagePing == old(averagePing)
    {
      var rtt := enetPeer.roundTripTime;
      if now - connectedTime < WARM_UP_MS {
        averagePing := rtt;
        return 0;
      }
      if isServer {
        previousPings := previousPings + [rtt];
        ghost var pushed := previousPings;
        while |previousPings| > PING_WINDOW
          invariant |previousPings| <= |pushed|
          invariant previousPings == pushed[|pushed| - |previousPings|..]
          invariant |previousPings| >= PING_WINDOW || previousPings == pushed
          invariant |previousPings| < |pushed| ==> averagePing == Mean(previousPings)
          invariant |previousPings| == |pushed| ==> averagePing == old(averagePing)
          decreases |previousPings|
        {
          previousPings := previousPings[1..];
          averagePing := Mean(previousPings);
        }
      }
      ping := rtt;
    }

    method SetCrypto(c: Option<Crypto>)
      modifies this`crypto
      ensures crypto == c
    {
      crypto := c;
    }

    function GetRealAddress(): string {
      RealAddress(peerAddress, ipv6Address)
    }
  }

  /** `isSamePeer` is an equivalence, and agrees with the ENet-peer overload. */
  lemma IsSamePeerEquivalence(a: StkPeer, b: StkPeer, c: StkPeer)
    ensures a.IsSamePeer(a)
    ensures a.IsSamePeer(b) ==> b.IsSamePeer(a)
    ensures a.IsSamePeer(b) && b.IsSamePeer(c) ==> a.IsSamePeer(c)
    ensures a.IsSamePeer(b) <==> a.IsSameEnetPeer(b.enetPeer)
  {
  }

  /**
   * Once any of disconnect, kick or reset has taken effect, the other
   * closing operations queue nothing: a successful disconnect followed by a
   * kick, a reset and another disconnect queues exactly one command.
   */
  method CloseRepeatedly(p: StkPeer)
    modifies p`disconnected, p.host`commands
    ensures p.disconnected == (old(p.disconnected) || p.TransportMatches())
    ensures !old(p.disconnected) && p.TransportMatches() ==>
              p.host.commands == old(p.host.commands) + [EctDisconnect(p.enetPeer, PdiNormal)]
    ensures old(p.disconnected) || !p.TransportMatches() ==> p.host.commands == old(p.host.commands)
  {
    p.Disconnect();
    p.Kick();
    p.Reset();
    p.Disconnect();
  }
}
