# SuperTuxKart network lobby bookkeeping and peer handle, in Dafny

This project models two stateful pieces of SuperTuxKart's network layer.

- **`ServerLobby` bookkeeping** (`src/network/protocols/server_lobby.hpp`):
  - the order of the lobby's `ServerState` enumeration and the queries
    `getCurrentState`, `allPlayersReady` and `isRacing` over it;
  - the default `KeyData` of a pending encrypted connection;
  - three in-place map updates: `resetPeersReady` (readiness map),
    `addPeerConnection` and `removeExpiredPeerConnection` (pending-connection
    table with its 45 s timeout), and `replaceKeys` (swap of the key map).
- **`STKPeer`** (`src/network/stk_peer.cpp`), the handle over one ENet peer:
  - its initial flags;
  - the guarded closing operations `disconnect`, `kick` and `reset`;
  - `sendPacket` with its channel and encryption choice;
  - the 50-sample ping window of `getPing`;
  - `isSamePeer` and the printable `getRealAddress`.

Modules:

- `NetworkTypes` (network_types.dfy): fixed-width unsigned integers and `Option`.
- `StringUtils` (string_utils.dfy): decimal rendering of a number, a parser that undoes it, and the text after a separator.
- `Transport` (transport.dfy): the IPv4 `TransportAddress` and its printable form.
- `Peer` (stk_peer.dfy): the classes `EnetPeer` and `StkHost` and the class `StkPeer`.
- `Lobby` (server_lobby.dfy): `ServerState`, `KeyData` and the class `ServerLobby`.

Encoding choices:

- Weak pointers to peers are peer ids. The ids whose peer still exists are passed in as `live`; a key outside `live` is an expired weak pointer.
- Readings of the monotonic millisecond clock are parameters: `now`, and in the peer constructor one parameter per reading.
- The key-map mutex and the atomics are sequential fields.
- The ENet peer is an object with `connected`, `address` and `roundTripTime` fields, which other code may change.
- The host's command queue is a log, `StkHost.commands`. Each operation that adds a command appends to it.
- Whether ENet or the cipher returned a packet at all is the input `packetAllocated`. When it is false, the packet was null.

The average ping is not a rolling average from the first sample on:

- The comment at stk_peer.cpp:186 says "Average ping in 5 seconds", that is, over a window of 50 samples.
- `m_average_ping` is recomputed only inside the loop that trims the window (stk_peer.cpp:190-196).
- So until the window first overflows, the server keeps the raw round-trip time stored by the last warm-up call.
- `Peer.StkPeer.GetPing` states exactly this.

## Model

| member | source | states |
|---|---|---|
| `Lobby.Ordinal` | src/network/protocols/server_lobby.hpp:50-64 | the enumerator value of a state is its position in the declared order (SetPublicAddress first, Exiting twelfth) |
| `Lobby.OrdinalOfPosition` | src/network/protocols/server_lobby.hpp:50-64 | conversely, the state declared at position i has enumerator value i, so the order is a bijection |
| `Lobby.AllPlayersReadyStates` | src/network/protocols/server_lobby.hpp:348-349 | `allPlayersReady` holds iff the state is WaitForRaceStarted or any later state (Racing, WaitForRaceStopped, ResultDisplay, ErrorLeave, Exiting) |
| `Lobby.IsRacingImpliesAllPlayersReady` | src/network/protocols/server_lobby.hpp:345-350 | `isRacing` holds iff the current state is Racing, and it implies `allPlayersReady` |
| `Lobby.NewKeyData` | src/network/protocols/server_lobby.hpp:66-73 | a fresh KeyData has not been tried, and its key, IV, name and country code are empty |
| `Lobby.ServerLobby.ResetPeersReady` | src/network/protocols/server_lobby.hpp:238-252 | afterwards the readiness map holds exactly the old keys that are live: expired peers are removed and none is added. Every remaining entry is false |
| `Lobby.ReadinessResetIdempotent` | src/network/protocols/server_lobby.hpp:240-251 | resetting the readiness map twice gives the same map as resetting it once |
| `Lobby.ServerLobby.AddPeerConnection` | src/network/protocols/server_lobby.hpp:253-256 | the address is stamped with `now`. Every other address keeps its presence and its timestamp |
| `Lobby.ElapsedMs` | src/network/protocols/server_lobby.hpp:264 | the age `now - stamp` in unsigned 64-bit arithmetic: the plain difference for a past stamp, wrapped past 2^64 for a future one |
| `Lobby.ServerLobby.RemoveExpiredPeerConnection` | src/network/protocols/server_lobby.hpp:257-269 | every surviving entry was present before with the same timestamp and is at most 45000 ms old. Every entry at most 45000 ms old survives |
| `Lobby.PendingPrunedAges` | src/network/protocols/server_lobby.hpp:257-269 | for a past stamp, the entry survives iff it is at most 45 s old. A stamp in the future is dropped unless it lies within 45 s of the 64-bit wrap |
| `Lobby.PendingPrunedIdempotent` | src/network/protocols/server_lobby.hpp:261-268 | pruning twice with the same `now` equals pruning once |
| `Lobby.ServerLobby.ReplaceKeys` | src/network/protocols/server_lobby.hpp:270-274 | the lobby now holds the caller's map, and the caller gets back the lobby's old map |
| `Lobby.ReplaceKeysTwice` | src/network/protocols/server_lobby.hpp:270-274 | swapping twice restores the lobby's own key map |
| `Peer.StkPeer.constructor` | src/network/stk_peer.cpp:37-53 | a new peer records the ENet address, the connection time from the first clock reading and the last activity from the second. It is not validated, waiting for game, not a spectator, not disconnected and not warned for high ping. Its average ping is 0, it has no cipher and an empty ping window. The IPv6 text is kept only for addresses below 16777216 |
| `Peer.StkPeer.IsConnected` | src/network/stk_peer.cpp:151-155 | the ENet peer reports itself connected. This holds whenever the transport still matches this peer, so a peer that is not connected never passes the send and close guards |
| `Peer.StkPeer.Disconnect` | src/network/stk_peer.cpp:61-71 | already disconnected: nothing changes. ENet peer not connected or its address changed: flag and queue unchanged. Otherwise the flag is set and exactly one ECT_DISCONNECT with PDI_NORMAL is queued |
| `Peer.StkPeer.Kick` | src/network/stk_peer.cpp:76-86 | the same guards as disconnect. On success the flag is set and exactly one ECT_DISCONNECT with PDI_KICK is queued |
| `Peer.StkPeer.Reset` | src/network/stk_peer.cpp:91-101 | the same guards. On success the flag is set and exactly one ECT_RESET is queued |
| `Peer.CloseRepeatedly` | src/network/stk_peer.cpp:61-101 | after one successful disconnect, a kick, a reset and a second disconnect queue nothing more. The log grows by exactly one command, or not at all when the guard fails |
| `Peer.StkPeer.SendPacket` | src/network/stk_peer.cpp:109-146 | nothing is queued when the peer is disconnected, the ENet peer is not connected or its address changed, or no packet was produced. Otherwise exactly one ECT_SEND_PACKET is queued. It carries cipher output iff a cipher exists and encryption was asked for, and goes on the channel chosen by `encrypted` |
| `Peer.SendPacketChoices` | src/network/stk_peer.cpp:120-144 | the packet is cipher output iff a cipher exists and `encrypted` is set. The unencrypted channel never carries cipher output. A plain packet goes on the normal channel iff encryption was asked for without a cipher. Plain packets are reliable, or unsequenced with unreliable fragments |
| `Peer.StkPeer.GetPing` | src/network/stk_peer.cpp:177-199 | during the first 3000 ms it returns 0 and stores the raw round-trip time as the average. Later it returns the round-trip time. On a server the window becomes the last 50 samples including the new one and never exceeds 50. When it was trimmed, the average is the integer mean of the retained samples; otherwise the average is unchanged. A client changes neither |
| `Peer.MeanBetween` | src/network/stk_peer.cpp:193-195 | the integer mean of a non-empty window lies between its smallest and largest sample, so it fits the 32-bit average |
| `Peer.StkPeer.SetCrypto` | src/network/stk_peer.cpp:202-205 | the peer holds the given cipher afterwards |
| `Peer.IsSamePeerEquivalence` | src/network/stk_peer.cpp:160-171 | `isSamePeer` is reflexive, symmetric and transitive. It agrees with the overload that takes an ENet peer |
| `Peer.RealAddress` | src/network/stk_peer.cpp:210-215 | the result starts with '[' iff an IPv6 text is present. In that case the IPv6 text follows the bracket, then "]:" |
| `Peer.RealAddressPort` | src/network/stk_peer.cpp:210-215 | in both forms the text after the last ':' is the decimal port, and it parses back to the port |
| `StringUtils.NatToString` | src/network/stk_peer.cpp:214 | the decimal form of the port is non-empty, all digits, and has no leading zero |
| `StringUtils.ParseNatToString` | src/network/stk_peer.cpp:214 | reading the decimal form back gives the number |
| `Transport.ToString` | src/network/stk_peer.cpp:212 | the IPv4 form (dotted quad, ':' and port) is non-empty and starts with a digit, so it never looks like the bracketed IPv6 form |

## Left out

- The lobby's state machine, voting, ranking, live join, handshake and ban logic. They are only declared in `server_lobby.hpp` and their bodies are not part of this model: `handleAllVotes`, `computeNewRankings`, `decryptConnectionRequest`, `canLiveJoinNow`, `getReservedId`, `checkPeersReady`, `connectionRequested` and the rest. The ranking constants are used only by those functions.
- `ResetState` and the pending-connection map of weak pointers (`m_pending_connection`): no shown operation reads or writes them.
- SQLite persistence (`m_db`, `easySQLQuery`, `ip2Country`, the table flags): a foreign library.
- Threads: the atomics, the key-map mutex and any interleaving between the network thread and the main thread. The model is sequential.
- Std::map iteration order: the loops in `ResetPeersReady` and `RemoveExpiredPeerConnection` visit the keys in any order. Each step of `ResetPeersReady` depends only on its own entry, so its result is the same as for the sorted order. For `RemoveExpiredPeerConnection` this holds only for a fixed clock reading.
- Lobby.ServerLobby.RemoveExpiredPeerConnection: the source reads the clock once per visited entry (server_lobby.hpp:264), so entries visited later are judged against a later reading. The model takes one reading, `now`, for the whole pass. Its contract is exact only when the clock does not move during the pass; near the 45000 ms boundary the source may drop an entry the model keeps.
- The IPv6 text of an address in 0.x.x.x comes from a helper that is not part of this model. It is the constructor argument `mappedIpv6`.
- `TransportAddress::toString` is not part of this model. `Transport.ToString` takes it to be the dotted quad, most significant octet first, followed by ':' and the port.
- Logging (`Log::verbose`, and the `Log::debug` call in `isConnected`), `Network::m_connection_debug`, and the contents of encrypted packets (`Crypto::encryptSend` is represented by the plaintext it encrypts and the reliability flag).
- The destructor of `STKPeer`, which does nothing.
- Peer.StkPeer.GetPing: the warm-up test `getConnectedTime() < 3.0f` on floats is modelled as `now - connectedTime < 3000` on integer milliseconds. The monotonic clock is required not to be behind the connection time.
- Peer.StkPeer.GetPing: the window sum is taken over unbounded integers. In the source, `std::accumulate` sums into a 32-bit `int`, which would wrap only if 50 round-trip times added up to 2^31 ms or more. ENet's timeouts keep round-trip times far below that.
- Peer.StkPeer.constructor: `m_last_activity` stores its clock reading cast to a signed 64-bit integer. The model stores the reading itself, which is equal for readings below 2^63 ms.
