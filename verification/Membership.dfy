/** Who is in a zone, who is loading and who is leaving through a portal. These functions are the membership part of
    the zone's jobs: each gives the new membership and the database requests the job enqueues, in order. */
module Membership {
  import opened Options
  import opened WorldTypes

  datatype Presence = Presence(session: SessionId, state: PlayerState)

  datatype Members = Members(
    players: map<PlayerId, Presence>,
    sessions: map<SessionId, PlayerId>,
    spawnPending: set<SessionId>,
    portalPending: set<PlayerId>,
    closed: bool)

  const EMPTY := Members(map[], map[], {}, {}, false)

  // `portal` holds the session to answer when the save belongs to a portal.
  datatype Request =
    | SaveRequest(player: PlayerId, state: PlayerState, zone: nat, portal: Option<SessionId>)
    | LoadRequest(player: PlayerId, session: SessionId)

  datatype Outcome = Outcome(m: Members, requests: seq<Request>)

  function Enter(m: Members, session: SessionId, player: PlayerId, state: PlayerState): Members {
    m.(players := m.players[player := Presence(session, state)], sessions := m.sessions[session := player])
  }

  function Leave(m: Members, player: PlayerId): Members {
    if player in m.players
    then m.(players := m.players - {player}, sessions := m.sessions - {m.players[player].session})
    else m
  }

  function Ready(m: Members, session: SessionId, player: PlayerId): Outcome {
    if m.closed || session in m.sessions || session in m.spawnPending then Outcome(m, [])
    else Outcome(m.(spawnPending := m.spawnPending + {session}), [LoadRequest(player, session)])
  }

  // The load of `player` for `session` has come back; `loaded` is None when the row is missing or the query failed.
  function LoadDone(m: Members, session: SessionId, player: PlayerId, loaded: Option<PlayerState>): Members {
    if session !in m.spawnPending then m
    else
      var taken := m.(spawnPending := m.spawnPending - {session});
      if loaded.None? || player in m.players then taken else Enter(taken, session, player, loaded.value)
  }

  function Disconnect(m: Members, zone: nat, session: SessionId): Outcome {
    var n := m.(spawnPending := m.spawnPending - {session});
    if session !in m.sessions || m.sessions[session] !in m.players then Outcome(n, [])
    else
      var player := m.sessions[session];
      Outcome(Leave(n, player),
              if player in m.portalPending then []
              else [SaveRequest(player, m.players[player].state, zone, None)])
  }

  // A portal whose checks passed: the save carries the destination, the player stays until it is confirmed.
  function Portal(m: Members, player: PlayerId, dest: Pos, destZone: nat): Outcome {
    if player !in m.players || player in m.portalPending then Outcome(m, [])
    else
      var p := m.players[player];
      Outcome(m.(portalPending := m.portalPending + {player}),
              [SaveRequest(player, p.state.(pos := dest), destZone, Some(p.session))])
  }

  function PortalDone(m: Members, session: SessionId, player: PlayerId, ok: bool): Members {
    var n := m.(portalPending := m.portalPending - {player});
    if ok && player in m.players && m.players[player].session == session then Leave(n, player) else n
  }

  // Close comes with Shutdown; Clear also with a lost gateway. The order of the saves is the hash map's.
  function Close(m: Members): Members {
    m.(closed := true)
  }

  function Clear(m: Members): Members {
    m.(players := map[], sessions := map[], spawnPending := {})
  }

  // A job that changes no more than the states of the players present.
  ghost predicate SamePresence(a: Members, b: Members) {
    && b.players.Keys == a.players.Keys && b == a.(players := b.players)
    && forall p | p in a.players :: b.players[p].session == a.players[p].session
  }

  ghost predicate SavesExactly(m: Members, zone: nat, who: set<PlayerId>, requests: seq<Request>) {
    && (forall i | 0 <= i < |requests| ::
          && requests[i].SaveRequest? && requests[i].player in who && requests[i].player in m.players
          && requests[i] == SaveRequest(requests[i].player, m.players[requests[i].player].state, zone, None))
    && (forall i, j | 0 <= i < j < |requests| :: requests[i].player != requests[j].player)
    && (forall p | p in who :: exists i | 0 <= i < |requests| :: requests[i].player == p)
  }

  // Clear saves everybody whose portal save is not already the final word.
  ghost predicate ClearSaves(m: Members, zone: nat, requests: seq<Request>) {
    SavesExactly(m, zone, m.players.Keys - m.portalPending, requests)
  }

  // The two session indexes are inverse to each other, and a session that is loading is not present.
  ghost predicate Consistent(m: Members) {
    && (forall p | p in m.players :: m.players[p].session in m.sessions && m.sessions[m.players[p].session] == p)
    && (forall s | s in m.sessions :: m.sessions[s] in m.players && m.players[m.sessions[s]].session == s)
    && m.spawnPending !! m.sessions.Keys
  }

  lemma ReadyKeepsConsistent(m: Members, session: SessionId, player: PlayerId)
    requires Consistent(m)
    ensures Consistent(Ready(m, session, player).m)
  {
  }

  lemma LoadDoneKeepsConsistent(m: Members, session: SessionId, player: PlayerId, loaded: Option<PlayerState>)
    requires Consistent(m)
    ensures Consistent(LoadDone(m, session, player, loaded))
  {
  }

  lemma DisconnectKeepsConsistent(m: Members, zone: nat, session: SessionId)
    requires Consistent(m)
    ensures Consistent(Disconnect(m, zone, session).m)
    ensures session !in Disconnect(m, zone, session).m.sessions
          && session !in Disconnect(m, zone, session).m.spawnPending
  {
  }

  lemma PortalKeepsConsistent(m: Members, session: SessionId, player: PlayerId, dest: Pos, destZone: nat, ok: bool)
    requires Consistent(m)
    ensures Consistent(Portal(m, player, dest, destZone).m)
    ensures Consistent(PortalDone(m, session, player, ok))
  {
  }
}
