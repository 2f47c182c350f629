/**
 * Bookkeeping of the server lobby (`ServerLobby`): its state enumeration and
 * the queries over it, and the in-place updates of three maps — which peers
 * have finished loading, which addresses have a pending connection and
 * since when, and the one-time keys of pending encrypted connections.
 *
 * Peers are referred to by id; the ids whose peer still exists are passed in
 * as `live` (a peer outside it is an expired weak reference). The monotonic
 * clock is the parameter `now`. The lock around the key map is a no-op in
 * this sequential model.
 */
module Lobby {
  import opened NetworkTypes

  /** The lobby's finite state machine, in declaration order. */
  datatype ServerState =
    | SetPublicAddress       // waiting to receive its public ip address
    | RegisterSelfAddress    // register with the online server
    | WaitingForStartGame    // in lobby, waiting for (auto) start game
    | Selecting              // kart, track, ... selection started
    | LoadWorld              // server starts loading world
    | WaitForWorldLoaded     // wait for clients and server to load world
    | WaitForRaceStarted     // wait for all clients to have started the race
    | Racing
    | WaitForRaceStopped     // wait for the server to stop all race protocols
    | ResultDisplay
    | ErrorLeave             // shutting down the server
    | Exiting

  const DECLARED_ORDER: seq<ServerState> := [
    SetPublicAddress, RegisterSelfAddress, WaitingForStartGame, Selecting,
    LoadWorld, WaitForWorldLoaded, WaitForRaceStarted, Racing,
    WaitForRaceStopped, ResultDisplay, ErrorLeave, Exiting
  ]

  /** The state's value as an unsigned enumerator: its position in the declaration. */
  function Ordinal(s: ServerState): (n: nat)
    ensures n < |DECLARED_ORDER| && DECLARED_ORDER[n] == s
  {
    match s
    case SetPublicAddress => 0
    case RegisterSelfAddress => 1
    case WaitingForStartGame => 2
    case Selecting => 3
    case LoadWorld => 4
    case WaitForWorldLoaded => 5
    case WaitForRaceStarted => 6
    case Racing => 7
    case WaitForRaceStopped => 8
    case ResultDisplay => 9
    case ErrorLeave => 10
    case Exiting => 11
  }

  /** Ordinals and positions agree both ways: every position holds the state with that ordinal. */
  lemma OrdinalOfPosition(i: nat)
    requires i < |DECLARED_ORDER|
    ensures Ordinal(DECLARED_ORDER[i]) == i
  {
  }

  /** The one-time key of a pending encrypted connection. */
  datatype KeyData = KeyData(aesKey: string, aesIv: string, name: string, countryCode: string, tried: bool)

  /** A default-constructed `KeyData`: empty strings, not yet tried. */
  function NewKeyData(): (k: KeyData)
    ensures !k.tried
    ensures k.aesKey == [] && k.aesIv == [] && k.name == [] && k.countryCode == []
  {
    KeyData("", "", "", "", false)
  }

  /** Identity of the peer behind a weak reference. */
  type PeerId = nat

  /** A pending connection older than this many milliseconds is dropped. */
  const PENDING_CONNECTION_TIMEOUT_MS: nat := 45000

  /** `now - stamp` in unsigned 64-bit arithmetic. */
  function ElapsedMs(now: uint64, stamp: uint64): (d: uint64)
    ensures stamp <= now ==> d == now - stamp
    ensures stamp > now ==> d == now + UINT64_MODULUS - stamp
  {
    (now - stamp) % UINT64_MODULUS
  }

  predicate PendingExpired(now: uint64, stamp: uint64) {
    ElapsedMs(now, stamp) > PENDING_CONNECTION_TIMEOUT_MS
  }

  /** The readiness map once reset: entries of expired peers gone, the rest false. */
  function ReadinessReset(ready: map<PeerId, bool>, live: set<PeerId>): map<PeerId, bool> {
    map p | p in ready && p in live :: false
  }

  /** The pending-connection table once expired entries are gone. */
  function PendingPruned(pending: map<string, uint64>, now: uint64): map<string, uint64> {
    map a | a in pending && !PendingExpired(now, pending[a]) :: pending[a]
  }

  lemma ReadinessResetIdempotent(ready: map<PeerId, bool>, live: set<PeerId>)
    ensures ReadinessReset(ReadinessReset(ready, live), live) == ReadinessReset(ready, live)
  {
  }

  lemma PendingPrunedIdempotent(pending: map<string, uint64>, now: uint64)
    ensures PendingPruned(PendingPruned(pending, now), now) == PendingPruned(pending, now)
  {
  }

  /**
   * With a clock that has not gone backwards past an entry, a surviving
   * entry is at most 45 s old; an entry stamped in the future is dropped
   * unless it lies within 45 s of wrapping the 64-bit clock.
   */
  lemma PendingPrunedAges(pending: map<string, uint64>, now: uint64, a: string)
    requires a in pending
    ensures a in PendingPruned(pending, now) && pending[a] <= now ==>
              now - pending[a] <= PENDING_CONNECTION_TIMEOUT_MS
    ensures pending[a] <= now && now - pending[a] <= PENDING_CONNECTION_TIMEOUT_MS ==>
              a in PendingPruned(pending, now)
    ensures now < pending[a] < now + UINT64_MODULUS - PENDING_CONNECTION_TIMEOUT_MS ==>
              a !in PendingPruned(pending, now)
  {
  }

  class ServerLobby {
    var state: ServerState
    var peersReady: map<PeerId, bool>
    var pendingPeerConnection: map<string, uint64>
    var keys: map<uint32, KeyData>

    function GetCurrentState(): ServerState
      reads this
    {
      state
    }

    predicate AllPlayersReady()
      reads this
    {
      Ordinal(state) >= Ordinal(WaitForRaceStarted)
    }

    predicate IsRacing()
      reads this
    {
      state == Racing
    }

    /**
     * Drop the readiness entries of expired peers and mark every other
     * entry not ready.
     */
    method ResetPeersReady(live: set<PeerId>)
      modifies this`peersReady
      ensures peersReady.Keys == old(peersReady).Keys * live
      ensures forall p :: p in peersReady ==> !peersReady[p]
      ensures peersReady == ReadinessReset(old(peersReady), live)
    {
      ghost var before := peersReady;
      var todo := peersReady.Keys;
      while todo != {}
        invariant todo <= before.Keys
        invariant forall p :: p in peersReady <==> p in before && (p in todo || p in live)
        invariant forall p :: p in peersReady && p !in todo ==> !peersReady[p]
        decreases todo
      {
        var p :| p in todo;
        if p !in live {
          peersReady := peersReady - {p};
        } else {
          peersReady := peersReady[p := false];
        }
        todo := todo - {p};
      }
      assert peersReady == ReadinessReset(before, live);
    }

    /** Stamp `addr` as having a pending connection at `now`. */
    method AddPeerConnection(addr: string, now: uint64)
      modifies this`pendingPeerConnection
      ensures addr in pendingPeerConnection && pendingPeerConnection[addr] == now
      ensures forall b :: b != addr ==>
                (b in pendingPeerConnection <==> b in old(pendingPeerConnection)) &&
                (b in pendingPeerConnection ==> pendingPeerConnection[b] == old(pendingPeerConnection)[b])
    {
      pendingPeerConnection := pendingPeerConnection[addr := now];
    }

    /** Drop every pending connection stamped more than 45 s before `now`. */
    method RemoveExpiredPeerConnection(now: uint64)
      modifies this`pendingPeerConnection
      ensures forall a :: a in pendingPeerConnection ==>
                a in old(pendingPeerConnection) && pendingPeerConnection[a] == old(pendingPeerConnection)[a] &&
                ElapsedMs(now, pendingPeerConnection[a]) <= PENDING_CONNECTION_TIMEOUT_MS
      ensures forall a :: a in old(pendingPeerConnection) && !PendingExpired(now, old(pendingPeerConnection)[a]) ==>
                a in pendingPeerConnection
      ensures pendingPeerConnection == PendingPruned(old(pendingPeerConnection), now)
    {
      ghost var before := pendingPeerConnection;
      var todo := pendingPeerConnection.Keys;
      while todo != {}
        invariant todo <= before.Keys
        invariant forall a :: a in pendingPeerConnection <==>
                    a in before && (a in todo || !PendingExpired(now, before[a]))
        invariant forall a :: a in pendingPeerConnection ==> pendingPeerConnection[a] == before[a]
        decreases todo
      {
        var a :| a in todo;
        if ElapsedMs(now, pendingPeerConnection[a]) > PENDING_CONNECTION_TIMEOUT_MS {
          pendingPeerConnection := pendingPeerConnection - {a};
        }
        todo := todo - {a};
      }
      assert pendingPeerConnection == PendingPruned(before, now);
    }

    /**
     * Swap the key map with the caller's: the lobby takes `newKeys` and the
     * caller gets back the map the lobby held.
     */
    method ReplaceKeys(newKeys: map<uint32, KeyData>) returns (oldKeys: map<uint32, KeyData>)
      modifies this`keys
      ensures keys == newKeys && oldKeys == old(keys)
    {
      oldKeys := keys;
      keys := newKeys;
    }
  }

  /** `allPlayersReady` holds exactly from `WaitForRaceStarted` onwards. */
  lemma AllPlayersReadyStates(lobby: ServerLobby)
    ensures lobby.AllPlayersReady() <==>
              lobby.state in {WaitForRaceStarted, Racing, WaitForRaceStopped, ResultDisplay, ErrorLeave, Exiting}
  {
  }

  /** A racing lobby has all players ready, and the state query reports the state. */
  lemma IsRacingImpliesAllPlayersReady(lobby: ServerLobby)
    ensures lobby.IsRacing() ==> lobby.AllPlayersReady()
    ensures lobby.IsRacing() <==> lobby.GetCurrentState() == Racing
  {
  }

  /** Swapping the keys twice gives the lobby back its own map. */
  method ReplaceKeysTwice(lobby: ServerLobby, newKeys: map<uint32, KeyData>)
    modifies lobby`keys
    ensures lobby.keys == old(lobby.keys)
  {
    var held := lobby.ReplaceKeys(newKeys);
    var back := lobby.ReplaceKeys(held);
    assert back == newKeys;
  }
}
