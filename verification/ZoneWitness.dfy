/** Two runs of the zone that show what it does not promise: a list that is not sent, and a player moved while its
    portal save is under way. */
module ZoneWitnesses {
  import opened Options
  import opened WorldTypes
  import opened Geometry
  import opened AoiGrids
  import opened ClientView
  import opened ZoneData
  import opened ZoneTables
  import opened ZoneHistory
  import opened ZoneJobs
  import opened Zones
  import P = Players
  import B = Monsters
  import M = Membership

  const HERE: Pos := Point(0.0, 0.0, 0.0)
  const THERE: Pos := Point(100.0, 0.0, 100.0)

  function Newcomer(p: PlayerId, hp: int): P.PlayerRecord {
    P.New(p, PlayerState(0, HERE, hp, 0), 0.0)
  }

  // The players 1 to n - 1, each behind the session of its number, all in one place.
  ghost predicate StandsHere(players: map<PlayerId, P.PlayerRecord>, n: nat) {
    && (forall p :: p in players <==> 1 <= p < n)
    && forall p | p in players :: players[p] == Newcomer(p, 1)
  }

  function UpTo(n: nat): set<PlayerId> {
    if n <= 1 then {} else UpTo(n - 1) + {n - 1}
  }

  lemma {:induction false} UpToCounts(n: nat)
    requires n >= 1
    ensures |UpTo(n)| == n - 1 && forall p :: p in UpTo(n) <==> 1 <= p < n
  {
    if n > 1 {
      UpToCounts(n - 1);
    }
  }

  // The last one sees all the others.
  lemma SeesAllOthers(players: map<PlayerId, P.PlayerRecord>, n: nat)
    requires n >= 1 && StandsHere(players, n + 1)
    ensures |Sight(PositionsOf(players), n, CellAt(HERE))| == n - 1
  {
    UpToCounts(n);
    assert Sight(PositionsOf(players), n, CellAt(HERE)).Keys == UpTo(n);
  }

  // One player too many in one place: the 738th is not sent its list of the 737 others and shows none of them.
  // Everybody before it was shown everybody else.
  method CrowdedZone(roll: nat -> nat, sqrt: real -> real) returns (zone: Zone)
    requires IsSqrt(sqrt)
    ensures fresh(zone) && zone.Valid() && StandsHere(zone.players, 739) && zone.lost == {738}
    ensures ClientOf(zone.sent, 738) != Picture(zone.Positions(), zone.Alive(), 738, CellAt(HERE))
    ensures forall p | 1 <= p < 738 ::
              ClientOf(zone.sent, p) == Picture(zone.Positions(), zone.Alive(), p, CellAt(HERE))
  {
    hide Picture, ClientOf, Zone.Valid;
    zone := new Zone(1, None, map[], map[], roll, sqrt, 0.0);
    for n := 1 to 738
      invariant zone.Valid() && fresh(zone) && fresh(zone.playerGrid) && fresh(zone.monsterGrid)
      invariant StandsHere(zone.players, n) && zone.lost == {} && zone.spawnPending == {} && zone.monsters == map[]
    {
      EnterNext(zone, n);
      assert zone.lost == {};
    }
    EnterNext(zone, 738);
    zone.EveryoneSees();
    forall p | 1 <= p < 738
      ensures ClientOf(zone.sent, p) == Picture(zone.Positions(), zone.Alive(), p, CellAt(HERE))
    {
      assert p in zone.players && zone.players[p].session == p;
    }
  }

  lemma NobodyBehind(players: map<PlayerId, P.PlayerRecord>, sessions: map<SessionId, PlayerId>, n: nat)
    requires Linked(players, sessions) && StandsHere(players, n) && n >= 1
    ensures n !in sessions
  {
    if n in sessions {
      BehindIt(players, sessions, n);
    }
  }

  lemma BehindIt(players: map<PlayerId, P.PlayerRecord>, sessions: map<SessionId, PlayerId>, s: SessionId)
    requires Linked(players, sessions) && s in sessions
    ensures sessions[s] in players && players[sessions[s]].session == s
  {
  }

  method EnterNext(zone: Zone, n: nat)
    requires zone.Valid() && 1 <= n && StandsHere(zone.players, n)
    requires zone.lost == {} && zone.spawnPending == {} && zone.monsters == map[]
    modifies zone`players, zone`sessions, zone`sent, zone`lost, zone.playerGrid
    ensures zone.Valid() && StandsHere(zone.players, n + 1)
    ensures zone.lost == if n - 1 > MAX_PLAYER_INFOS then {n} else {}
    ensures ClientOf(zone.sent, n) == Picture(zone.Positions(), zone.Alive(), n, CellAt(HERE))
          <==> n - 1 <= MAX_PLAYER_INFOS
  {
    hide Picture, ClientOf, Zone.PlayersIndexed, Zone.MonstersIndexed, Zone.Replicates, Zone.MonstersSound, PositionsOf,
      Linked, Zone.Members, Sight;
    NobodyBehind(zone.players, zone.sessions, n);
    zone.Enter(n, Newcomer(n, 1));
    SeesAllOthers(zone.players, n);
    assert MonsterSight(zone.Alive(), CellAt(HERE)) == map[];
  }

  const FIERCE: B.MonsterData := B.MonsterDataRow(10, 1, 0.0, 1.0, 1.0, 0, 0)

  // A zone with one monster and one portal, in one place.
  method Lair(roll: nat -> nat, sqrt: real -> real) returns (zone: Zone)
    requires IsSqrt(sqrt)
    ensures fresh(zone) && fresh(zone.playerGrid) && fresh(zone.monsterGrid) && zone.Valid() && zone.sqrt == sqrt
    ensures zone.spawnPoint == Some(THERE) && zone.portals == map[1 := PortalRow(HERE, 1.0, 2, HERE)]
    ensures zone.Members() == M.EMPTY && zone.players == map[] && zone.lastTick == 0.0
    ensures zone.monsters == map[1 := B.New(FIERCE, HERE)]
  {
    zone := new Zone(1, Some(THERE), map[1 := PortalRow(HERE, 1.0, 2, HERE)], map[], roll, sqrt, 0.0);
    hide Zone.Valid, B.New, Zone.Positions, Zone.Alive;
    var spawns := [(FIERCE, HERE)];
    zone.InitMonster(spawns);
    OneMonster(zone.monsters, spawns);
  }

  lemma OneMonster(monsters: map<MonsterId, B.MonsterRecord>, spawns: seq<(B.MonsterData, Pos)>)
    requires spawns == [(FIERCE, HERE)] && forall m :: m in monsters <==> 1 <= m <= |spawns|
    requires forall i | 0 <= i < |spawns| :: monsters[i + 1] == B.New(spawns[i].0, spawns[i].1)
    ensures monsters == map[1 := B.New(FIERCE, HERE)]
  {
    assert monsters[0 + 1] == B.New(spawns[0].0, spawns[0].1);
    assert monsters.Keys == {1};
  }

  // A player comes there and is chased.
  method Chased(zone: Zone)
    requires zone.Valid() && zone.Members() == M.EMPTY && zone.players == map[]
          && zone.monsters == map[1 := B.New(FIERCE, HERE)]
    modifies zone`players, zone`sessions, zone`sent, zone`lost, zone`monsters, zone.playerGrid
    ensures zone.Valid() && zone.players == map[1 := Newcomer(1, 1)] && zone.sessions == map[1 := 1]
    ensures zone.monsters == map[1 := B.StartChase(B.New(FIERCE, HERE), 1)]
    ensures zone.spawnPending == {} && zone.portalPending == {} && !zone.closed
  {
    hide Zone.Valid, Picture, FitAround, LostAround, Zone.Positions, Zone.Alive;
    zone.Enter(1, Newcomer(1, 1));
    ItselfIsWithin(HERE, 1.0);
    var found := zone.UpdateIdle(1);
    assert Eligible(zone.players, zone.portalPending, 1, HERE, 1.0);
  }

  // It asks for the portal.
  method AsksToLeave(zone: Zone)
    requires zone.Valid() && zone.players == map[1 := Newcomer(1, 1)] && zone.portalPending == {}
    requires zone.portals == map[1 := PortalRow(HERE, 1.0, 2, HERE)]
    modifies zone`portalPending, zone`requests
    ensures zone.Valid() && zone.portalPending == {1}
  {
    hide Zone.Valid;
    ItselfIsWithin(HERE, 1.0);
    ghost var m := zone.Members();
    assert InPortal(zone.players[1].state, zone.portals, 1) && 1 in m.players;
    zone.HandlePortalRequest(1, 1);
    assert zone.portalPending == zone.Members().portalPending;
  }

  // Whom the monster goes for, and what is left of it.
  lemma StruckDead(
    players: map<PlayerId, P.PlayerRecord>, portalPending: set<PlayerId>, m: B.MonsterRecord, target: Option<PlayerId>,
    after: map<PlayerId, P.PlayerRecord>, sqrt: real -> real)
    requires IsSqrt(sqrt) && players == map[1 := Newcomer(1, 1)] && m == B.StartChase(B.New(FIERCE, HERE), 1)
    requires IsTarget(players, portalPending, m, target)
    requires var r := B.ChaseTick(m, PlaceOf(players, target), 0.0, 2.0, MONSTER_ATTACK_COOLDOWN, sqrt);
             r.moved ==> after == players[target.value := P.TakeDamage(players[target.value], r.m.data.attack).p]
    ensures after.Keys == {1} && P.IsDead(after[1]) && after[1].state.pos == HERE
  {
    assert target == Some(1);
    StandingStrikes(m, 2.0, sqrt);
    hide B.ChaseTick, IsTarget, IsNearest;
  }

  // It is killed while the save is under way.
  method KilledWhileLeaving(zone: Zone)
    requires zone.Valid() && zone.players == map[1 := Newcomer(1, 1)]
    requires zone.monsters == map[1 := B.StartChase(B.New(FIERCE, HERE), 1)]
    modifies zone`monsters, zone`players, zone`sent, zone.monsterGrid
    ensures zone.Valid() && zone.players.Keys == {1} && P.IsDead(zone.players[1]) && zone.players[1].state.pos == HERE
  {
    assert IsSqrt(zone.sqrt);
    ghost var m, players := zone.monsters[1], zone.players;
    B.AtSpawn(HERE, 30.0);
    assert 0.0 <= B.Reach(m.data);
    hide Zone.Valid, B.ChaseTick, StrikeNews, NoNews, IsTarget, P.TakeDamage, B.StartChase, B.New, P.New;
    var target := zone.UpdateChase(1, 0.0, 2.0);
    StruckDead(players, zone.portalPending, m, target, zone.players, zone.sqrt);
  }

  lemma ItselfIsWithin(at: Pos, range: real)
    requires range >= 0.0
    ensures IsWithin(at, at, range)
  {
    B.AtSpawn(at, range);
  }

  // A chasing monster that stands where its target stands, at its spawn point, strikes.
  lemma StandingStrikes(m: B.MonsterRecord, now: real, sqrt: real -> real)
    requires IsSqrt(sqrt) && m == B.StartChase(B.New(FIERCE, HERE), 1) && now == 2.0
    ensures B.InLeash(m)
    ensures var r := B.ChaseTick(m, Some(HERE), 0.0, now, MONSTER_ATTACK_COOLDOWN, sqrt); r.moved && r.m.data == FIERCE
  {
    B.AtSpawn(HERE, 30.0);
    B.AtSpawn(HERE, 1.0);
  }

  lemma ReviveKeepsMembers(portals: map<nat, PortalData>, a: M.Members, b: M.Members, requests: seq<M.Request>)
    requires PacketFollows(portals, a, b, requests, 1, ReviveMe)
    ensures b.players.Keys == a.players.Keys && b.portalPending == a.portalPending
  {
  }

  // Then its own request to be revived moves it, though its portal save is under way.
  method MovedWhileLeaving(roll: nat -> nat, sqrt: real -> real) returns (zone: Zone, ghost before: Pos)
    requires IsSqrt(sqrt)
    ensures fresh(zone) && zone.Valid() && 1 in zone.players && 1 in zone.portalPending
    ensures zone.players[1].state.pos != before
  {
    hide Zone.Valid, Zone.Members, B.New, B.StartChase, P.New, P.IsDead;
    zone := Lair(roll, sqrt);
    Chased(zone);
    AsksToLeave(zone);
    KilledWhileLeaving(zone);
    before := zone.players[1].state.pos;
    ReviveLeaving(zone);
  }

  method ReviveLeaving(zone: Zone)
    requires zone.Valid() && zone.players.Keys == {1} && P.IsDead(zone.players[1]) && zone.players[1].state.pos == HERE
    requires zone.portalPending == {1} && zone.spawnPoint == Some(THERE) && zone.sessions == map[1 := 1] && !zone.closed
    modifies zone, zone.playerGrid, zone.monsterGrid
    ensures zone.Valid() && zone.players.Keys == {1} && 1 in zone.portalPending && zone.players[1].state.pos != HERE
  {
    hide Zone.Valid, PacketFollows, MonstersAdvance;
    ghost var m := zone.Members();
    assert m.players.Keys == {1};
    ghost var requests0 := zone.requests;
    zone.HandleClientPacket(1, ReviveMe, 2.0);
    ReviveKeepsMembers(zone.portals, m, zone.Members(), zone.requests[|requests0|..]);
    assert zone.Members().players.Keys == zone.players.Keys;
  }
}
