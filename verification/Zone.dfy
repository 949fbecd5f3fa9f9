/** The zone: players, monsters, sessions, the two grids and what its jobs send and save. */
module Zones {
  import opened Options
  import opened WorldTypes
  import opened Geometry
  import opened AoiGrids
  import opened ClientView
  import opened Replicas
  import opened ZoneData
  import opened ZoneTables
  import opened ZoneOutcomes
  import opened ZoneHistory
  import opened ZoneJobs
  import P = Players
  import B = Monsters
  import M = Membership

  class Zone {
    const zoneId: nat
    const sqrt: real -> real
    const spawnPoint: Option<Pos>
    const portals: map<nat, PortalData>
    const skills: map<nat, SkillData>
    // The experience the n-th reward roll of the zone's life yields.
    const roll: nat -> nat
    const playerGrid: AoiGrid
    const monsterGrid: AoiGrid

    var players: map<PlayerId, P.PlayerRecord>
    var sessions: map<SessionId, PlayerId>
    var monsters: map<MonsterId, B.MonsterRecord>
    var nextMonster: nat
    var spawnPending: set<SessionId>
    var portalPending: set<PlayerId>
    var closed: bool

    var lastTick: real
    var regenTimer: real
    var autoSaveTimer: real
    var autoSaveSlice: nat

    // Everything sent to clients, every database request, every monster death, in order.
    var sent: seq<Send>
    var requests: seq<M.Request>
    var deaths: seq<MonsterId>
    // The sessions to which a spawn list was not sent because it would exceed a packet.
    ghost var lost: set<SessionId>

    ghost function Positions(): map<PlayerId, Pos>
      reads this`players
    {
      PositionsOf(players)
    }

    ghost function Alive(): map<MonsterId, Pos>
      reads this`monsters
    {
      AliveOf(monsters)
    }

    ghost function View(): Scene
      reads this`players, this`monsters, this`sessions
    {
      Scene(Positions(), Alive(), sessions)
    }

    ghost function Members(): M.Members
      reads this`players, this`sessions, this`spawnPending, this`portalPending, this`closed
    {
      M.Members(PresenceOf(players), sessions, spawnPending, portalPending, closed)
    }

    ghost function Now(): Situation
      reads this`players, this`monsters, this`sessions, this`portalPending, this`deaths, this`sent, this`lost
    {
      Situation(players, sessions, portalPending, monsters, deaths, sent, lost)
    }

    // Every player is in the cell it stands in, and in no other.
    ghost predicate PlayersIndexed()
      reads this`players, playerGrid
    {
      playerGrid.Valid() && playerGrid.where == SpotsOf(Positions()) && 0 !in players
    }

    // So is every monster, if and only if it lives.
    ghost predicate MonstersIndexed()
      reads this`monsters, monsterGrid
    {
      monsterGrid.Valid() && monsterGrid.where == SpotsOf(Alive())
    }

    ghost predicate MonstersSound()
      reads this`monsters, this`nextMonster
    {
      AllSound(monsters, nextMonster)
    }

    ghost predicate Replicates()
      reads this`lost, this`sent, this`players, this`monsters, this`sessions
    {
      Faithful(sent, View(), lost)
    }

    // The five indexes agree.
    ghost predicate Tables()
      reads this`players, this`sessions, this`monsters, this`nextMonster, this`spawnPending, playerGrid, monsterGrid
    {
      && playerGrid != monsterGrid && IsSqrt(sqrt)
      && PlayersIndexed() && MonstersIndexed()
      && Linked(players, sessions) && spawnPending !! sessions.Keys
    }

    // What holds between any two jobs.
    ghost predicate Valid()
      reads this`players, this`sessions, this`monsters, this`nextMonster, this`spawnPending, this`sent, this`lost
      reads playerGrid, monsterGrid
    {
      Tables() && MonstersSound() && Replicates()
    }

    constructor (
      zoneId: nat, spawnPoint: Option<Pos>, portals: map<nat, PortalData>, skills: map<nat, SkillData>,
      roll: nat -> nat,
      sqrt: real -> real, now: real)
      requires IsSqrt(sqrt)
      ensures Valid() && fresh(playerGrid) && fresh(monsterGrid)
      ensures Members() == M.EMPTY && players == map[] && monsters == map[] && nextMonster == 0 && lastTick == now
      ensures sent == [] && requests == [] && deaths == [] && lost == {}
      ensures this.zoneId == zoneId && this.spawnPoint == spawnPoint && this.portals == portals && this.skills == skills
      ensures this.sqrt == sqrt
    {
      this.zoneId, this.spawnPoint, this.portals, this.skills, this.roll, this.sqrt
        := zoneId, spawnPoint, portals, skills, roll, sqrt;
      playerGrid := new AoiGrid();
      monsterGrid := new AoiGrid();
      players, sessions, monsters, nextMonster, spawnPending, portalPending := map[], map[], map[], 0, {}, {};
      closed, lost, sent, requests, deaths := false, {}, [], [], [];
      lastTick, regenTimer, autoSaveTimer, autoSaveSlice := now, 0.0, 0.0, 0;
      new;
      assert SpotsOf(Positions()) == {} && SpotsOf(Alive()) == {};
    }

    // Called once, before anybody can be in the zone.
    method InitMonster(spawns: seq<(B.MonsterData, Pos)>)
      requires Valid() && players == map[] && monsters == map[] && nextMonster == 0
      modifies this`monsters, this`nextMonster, monsterGrid
      ensures Valid() && nextMonster == |spawns| && forall m :: m in monsters <==> 1 <= m <= |spawns|
      ensures forall i | 0 <= i < |spawns| :: monsters[i + 1] == B.New(spawns[i].0, spawns[i].1)
    {
      hide Tables, Faithful, PlayersIndexed, Linked, MonstersIndexed, AliveOf, PresenceOf, AllSound, Replicates;
      for i := 0 to |spawns|
        invariant Valid() && nextMonster == i && forall m :: m in monsters <==> 1 <= m <= i
        invariant forall j | 0 <= j < i :: monsters[j + 1] == B.New(spawns[j].0, spawns[j].1)
      {
        AddMonster(spawns[i].0, spawns[i].1);
      }
    }

    method AddMonster(data: B.MonsterData, at: Pos)
      requires Valid() && players == map[]
      modifies this`monsters, this`nextMonster, monsterGrid
      ensures Valid()
      ensures nextMonster == old(nextMonster) + 1 && monsters == old(monsters)[nextMonster := B.New(data, at)]
    {
      nextMonster := nextMonster + 1;
      var monster := B.New(data, at);
      NewIsSound(data, at);
      ghost var alive := Alive();
      MonsterUpdated(monsters, nextMonster, monster);
      SpotAdded(alive, nextMonster, at);
      monsters := monsters[nextMonster := monster];
      CellFits(at, 0.0, 0.0);
      monsterGrid.Add(nextMonster, CellAt(at));
    }

    static lemma NewIsSound(data: B.MonsterData, at: Pos)
      ensures B.Sound(B.New(data, at))
    {
      B.AtSpawn(at, B.LeashBound(data));
      B.AtSpawn(at, 0.1);
    }

    // ---------------------------------------------------------------------------------------------- sending

    method SendTo(session: SessionId, msg: Message)
      modifies this`sent
      ensures sent == old(sent) + [Send(session, msg)]
    {
      sent := sent + [Send(session, msg)];
    }

    // A message that changes no picture.
    method SendNote(session: SessionId, msg: Message)
      requires Replicates() && IsQuiet(msg)
      modifies this`sent
      ensures Replicates() && sent == old(sent) + [Send(session, msg)]
    {
      QuietSendKeepsFaithful(sent, View(), session, msg, lost);
      SendTo(session, msg);
    }

    method MulticastTo(targets: seq<PlayerId>, msg: Message)
      requires Linked(players, sessions) && Distinct(targets) && forall p | p in targets :: p in players
      modifies this`sent
      ensures Told(old(sent), sent, sessions, ToSet(targets), msg) && old(sent) <= sent
    {
      for i := 0 to |targets|
        invariant old(sent) <= sent
        invariant Told(old(sent), sent, sessions, ToSet(targets[..i]), msg)
      {
        var session := players[targets[i]].session;
        ToldOneMore(old(sent), sent, sessions, targets, i, session, msg);
        sent := sent + [Send(session, msg)];
      }
      assert targets[..|targets|] == targets;
    }

    method PresentAmong(ids: seq<nat>, except: PlayerId) returns (out: seq<PlayerId>)
      requires Distinct(ids)
      ensures Distinct(out) && forall p :: p in out <==> p in ids && p in players && p != except
    {
      out := [];
      for i := 0 to |ids|
        invariant Distinct(out)
        invariant forall p :: p in out <==> p in ids[..i] && p in players && p != except
      {
        assert ids[..i + 1] == ids[..i] + [ids[i]];
        if ids[i] != except && ids[i] in players {
          out := out + [ids[i]];
        }
      }
    }

    method CollectPlayers(cells: seq<Cell>, except: PlayerId) returns (out: seq<PlayerId>)
      requires PlayersIndexed() && Distinct(cells) && forall c | c in cells :: Fits(c)
      ensures Distinct(out)
      ensures forall p :: p in out <==> p in players && p != except && CellAt(players[p].state.pos) in cells
    {
      out := [];
      for i := 0 to |cells|
        invariant Distinct(out)
        invariant forall p :: p in out <==> p in players && p != except && CellAt(players[p].state.pos) in cells[..i]
      {
        assert cells[..i + 1] == cells[..i] + [cells[i]];
        assert cells[i] in cells && cells[i] !in cells[..i];
        var ids := playerGrid.IdsInCell(cells[i]);
        SpotsAreExact(Positions());
        assert forall p :: p in ids <==> p in Positions() && CellAt(Positions()[p]) == cells[i];
        var more := PresentAmong(ids, except);
        assert forall p :: p in more <==> p in players && p != except && CellAt(players[p].state.pos) == cells[i];
        DistinctConcat(out, more);
        out := out + more;
      }
    }

    method CollectMonsters(cells: seq<Cell>) returns (out: seq<MonsterId>)
      requires MonstersIndexed() && Distinct(cells) && forall c | c in cells :: Fits(c)
      ensures Distinct(out)
      ensures forall m :: m in out <==> m in Alive() && CellAt(Alive()[m]) in cells
    {
      out := [];
      for i := 0 to |cells|
        invariant Distinct(out)
        invariant forall m :: m in out <==> m in Alive() && CellAt(Alive()[m]) in cells[..i]
      {
        assert cells[..i + 1] == cells[..i] + [cells[i]];
        assert cells[i] in cells && cells[i] !in cells[..i];
        var more := monsterGrid.IdsInCell(cells[i]);
        SpotsAreExact(Alive());
        assert forall m :: m in more <==> m in Alive() && CellAt(Alive()[m]) == cells[i];
        DistinctConcat(out, more);
        out := out + more;
      }
    }

    // 0 excepts nobody: no player has that id.
    method BroadcastNear(center: Cell, msg: Message, except: PlayerId := 0)
      requires PlayersIndexed() && Linked(players, sessions) && forall c | IsNear(c, center) :: Fits(c)
      modifies this`sent
      ensures Told(old(sent), sent, sessions, Around(Positions(), center) - {except}, msg)
    {
      var cells := NearCells(center);
      var targets := CollectPlayers(cells, except);
      MulticastTo(targets, msg);
      assert ToSet(targets) == Around(Positions(), center) - {except};
    }

    method SendSpawns(session: SessionId, list: seq<PlayerId>)
      requires forall p | p in list :: p in players
      modifies this`sent, this`lost
      ensures lost == old(lost) + if |list| > MAX_PLAYER_INFOS then {session} else {}
      ensures sent == old(sent) + PlayerList(players, session, list)
    {
      if list == [] {
        return;
      }
      var infos: seq<PlayerInfo> := [];
      for i := 0 to |list|
        invariant infos == InfosOf(players, list[..i])
      {
        infos := infos + [InfoOf(list[i], players[list[i]])];
      }
      assert list[..|list|] == list;
      if |list| > MAX_PLAYER_INFOS {
        lost := lost + {session};
      } else {
        SendTo(session, Spawn(infos));
      }
    }

    method SendMonsterSpawns(session: SessionId, list: seq<MonsterId>)
      requires forall m | m in list :: m in monsters
      modifies this`sent, this`lost
      ensures lost == old(lost) + if |list| > MAX_MONSTER_INFOS then {session} else {}
      ensures sent == old(sent) + MonsterList(monsters, session, list)
    {
      if list == [] {
        return;
      }
      var infos: seq<MonsterInfo> := [];
      for i := 0 to |list|
        invariant infos == MonsterInfosOf(monsters, list[..i])
      {
        infos := infos + [MonsterInfoOf(list[i], monsters[list[i]])];
      }
      assert list[..|list|] == list;
      if |list| > MAX_MONSTER_INFOS {
        lost := lost + {session};
      } else {
        SendTo(session, MonsterSpawn(infos));
      }
    }

    method SpawnPlayerTo(me: PlayerInfo, viewers: seq<PlayerId>)
      requires Linked(players, sessions) && Distinct(viewers) && forall p | p in viewers :: p in players
      modifies this`sent
      ensures Told(old(sent), sent, sessions, ToSet(viewers), Spawn([me])) && old(sent) <= sent
    {
      if viewers == [] {
        return;
      }
      MulticastTo(viewers, Spawn([me]));
    }

    method DespawnPlayerTo(player: PlayerId, viewers: seq<PlayerId>)
      requires Linked(players, sessions) && Distinct(viewers) && forall p | p in viewers :: p in players
      modifies this`sent
      ensures Told(old(sent), sent, sessions, ToSet(viewers), Despawn(player))
    {
      MulticastTo(viewers, Despawn(player));
    }

    // ---------------------------------------------------------------------------------------------- coming and going

    ghost predicate Indexed()
      reads this`players, this`sessions, this`spawnPending, playerGrid
    {
      PlayersIndexed() && Linked(players, sessions) && spawnPending !! sessions.Keys
    }

    method Register(player: PlayerId, record: P.PlayerRecord)
      requires Indexed() && playerGrid != monsterGrid
      requires 0 < player && player !in players && record.session !in sessions && record.session !in spawnPending
      modifies this`players, this`sessions, playerGrid
      ensures Indexed()
      ensures players == old(players)[player := record] && sessions == old(sessions)[record.session := player]
      ensures Positions() == old(Positions())[player := record.state.pos]
    {
      ghost var positions := Positions();
      CellFits(record.state.pos, 0.0, 0.0);
      PlayerUpdated(players, player, record);
      SpotAdded(positions, player, record.state.pos);
      LinkedWith(players, sessions, player, record);
      players := players[player := record];
      sessions := sessions[record.session := player];
      playerGrid.Add(player, CellAt(record.state.pos));
    }

    method Unregister(player: PlayerId)
      requires Indexed() && playerGrid != monsterGrid && player in players
      modifies this`players, this`sessions, playerGrid
      ensures Indexed()
      ensures players == old(players) - {player} && sessions == old(sessions) - {old(players)[player].session}
      ensures Positions() == old(Positions()) - {player}
    {
      var record := players[player];
      ghost var positions := Positions();
      CellFits(record.state.pos, 0.0, 0.0);
      PlayerRemoved(players, player);
      SpotRemoved(positions, player);
      LinkedWithout(players, sessions, player);
      playerGrid.Remove(player, CellAt(record.state.pos));
      sessions := sessions - {record.session};
      players := players - {player};
    }

    method NearbyPlayers(me: PlayerId, at: Cell, cells: seq<Cell>) returns (nearby: seq<PlayerId>)
      requires PlayersIndexed() && me !in players && Distinct(cells) && forall c :: c in cells <==> IsNear(c, at)
      requires forall c | IsNear(c, at) :: Fits(c)
      ensures NamesExactly(players, nearby, Sight(Positions(), me, at)) && ToSet(nearby) == Around(Positions(), at)
    {
      nearby := CollectPlayers(cells, 0);
    }

    method NearbyMonsters(at: Cell, cells: seq<Cell>) returns (nearby: seq<MonsterId>)
      requires MonstersIndexed() && Distinct(cells) && forall c :: c in cells <==> IsNear(c, at)
      requires forall c | IsNear(c, at) :: Fits(c)
      ensures NamesMonsters(monsters, nearby, MonsterSight(Alive(), at))
    {
      nearby := CollectMonsters(cells);
    }

    // The newcomer is told of its surroundings.
    method ShowSurroundings(session: SessionId, me: PlayerInfo, exp: nat) returns (nearby: seq<PlayerId>)
      requires PlayersIndexed() && MonstersIndexed() && me.id !in players
      modifies this`sent, this`lost
      ensures lost == LostAround(old(lost), session, Positions(), Alive(), me.id, CellAt(me.pos))
      ensures ClientOf(old(sent), session) != Broken ==>
                ClientOf(sent, session) == Welcomed(Positions(), Alive(), me.id, CellAt(me.pos))
      ensures forall s | s != session :: Trace(sent, s) == Trace(old(sent), s)
      ensures Distinct(nearby) && ToSet(nearby) == Around(Positions(), CellAt(me.pos))
      ensures BeginsWith(old(sent), sent, session, EnterGame(me, exp))
    {
      hide PlayersIndexed, MonstersIndexed, Sight, MonsterSight, PositionsOf, AliveOf, SpotsOf, Around, NamesMonsters,
        NamesExactly;
      CellFits(me.pos, 0.0, 0.0);
      SendTo(session, EnterGame(me, exp));
      var cells := NearCells(CellAt(me.pos));
      nearby := NearbyPlayers(me.id, CellAt(me.pos), cells);
      SendSpawns(session, nearby);
      var nearMonsters := NearbyMonsters(CellAt(me.pos), cells);
      SendMonsterSpawns(session, nearMonsters);
      ghost var sight, monsterSight := Sight(Positions(), me.id, CellAt(me.pos)), MonsterSight(Alive(), CellAt(me.pos));
      UnseenByItself(Positions(), me.id, CellAt(me.pos));
      SurroundingsSent(old(sent), session, me, exp, players, monsters, nearby, nearMonsters, sight, monsterSight);
    }

    // It is told before it is registered, and so are those around it.
    method Greet(player: PlayerId, record: P.PlayerRecord)
      requires PlayersIndexed() && MonstersIndexed() && Linked(players, sessions) && Replicates()
      requires player !in players && record.session !in sessions
      modifies this`sent, this`lost
      ensures Faithful(sent, Scene(Positions()[player := record.state.pos], Alive(),
            sessions[record.session := player]), lost)
      ensures lost == LostAround(old(lost), record.session, Positions(), Alive(), player, CellAt(record.state.pos))
      ensures record.session !in old(lost) ==>
                ClientOf(sent, record.session) == Welcomed(Positions(), Alive(), player, CellAt(record.state.pos))
      ensures BeginsWith(old(sent), sent, record.session, EnterGame(InfoOf(player, record), record.state.exp))
    {
      ghost var sent0, lost0 := sent, lost;
      var me := InfoOf(player, record);
      var nearby := ShowSurroundings(record.session, me, record.state.exp);
      ghost var sent1 := sent;
      assert forall p | p in nearby :: p in ToSet(nearby);
      SpawnPlayerTo(me, nearby);
      WelcomedRightly(Positions(), Alive(), player, CellAt(record.state.pos));
      MoreLost(sent0, View(), lost0, lost);
      EnterIsFaithful(sent0, sent1, sent, View(), record.session, me, lost);
      ToldClient(sent1, sent, sessions, ToSet(nearby), Spawn([me]), record.session);
    }

    // The newcomer's picture is right if and only if what surrounds it fits the two lists.
    method Enter(player: PlayerId, record: P.PlayerRecord)
      requires Valid() && 0 < player && player !in players && record.session !in sessions
            && record.session !in spawnPending
      modifies this`players, this`sessions, this`sent, this`lost, playerGrid
      ensures Valid()
      ensures EnterDone(old(Now()), Now(), player, record)
    {
      hide PositionsOf, Sight, AliveOf, BeginsWith;
      Greet(player, record);
      WelcomedRightly(Positions(), Alive(), player, CellAt(record.state.pos));
      OwnPositionIsUnseen(Positions(), Alive(), player, record.state.pos, CellAt(record.state.pos));
      Register(player, record);
    }

    // Those around hear of it; `w` is the zone as it was with the player in it.
    method Farewell(player: PlayerId, record: P.PlayerRecord, ghost w: Scene)
      requires PlayersIndexed() && Linked(players, sessions)
      requires Faithful(sent, w, lost)
      requires OnlySession(w, record.session) && w.sessions[record.session] == player
            && w.positions[player] == record.state.pos
      requires View() == w.(positions := w.positions - {player}, sessions := w.sessions - {record.session})
      modifies this`sent
      ensures Replicates()
      ensures Told(old(sent), sent, sessions, Around(Positions(), CellAt(record.state.pos)), Despawn(player))
    {
      ghost var sent0 := sent;
      var cell := CellAt(record.state.pos);
      CellFits(record.state.pos, 0.0, 0.0);
      BroadcastNear(cell, Despawn(player));
      assert Around(Positions(), cell) - {0} == Around(Positions(), cell);
      LeaveIsFaithful(sent0, sent, w, record.session, lost);
    }

    method Leave(player: PlayerId)
      requires Valid()
      modifies this`players, this`sessions, this`sent, playerGrid
      ensures Valid() && LeaveDone(old(Now()), Now(), player)
    {
      hide AliveOf, Members, Told, MonsterSight, PresenceOf, Faithful, Around, SpotsOf, Linked, OnlySession;
      if player !in players {
        return;
      }
      ghost var w := View();
      var record := players[player];
      PlayerRemoved(players, player);
      RecordReplaced(players, sessions, Alive(), player, record);
      Unregister(player);
      Farewell(player, record, w);
    }

    method HandleReadyToSpawn(session: SessionId, player: PlayerId)
      requires Valid() && !closed
      modifies this`spawnPending, this`requests
      ensures Valid()
      ensures var r := M.Ready(old(Members()), session, player);
              Members() == r.m && requests == old(requests) + r.requests
    {
      if session in sessions {
        return;
      }
      if session in spawnPending {
        return;
      }
      spawnPending := spawnPending + {session};
      requests := requests + [M.LoadRequest(player, session)];
    }

    method TakeSpawnPending(session: SessionId) returns (was: bool)
      requires Valid()
      modifies this`spawnPending
      ensures Valid() && spawnPending == old(spawnPending) - {session}
      ensures was <==> session in old(spawnPending)
    {
      was := session in spawnPending;
      spawnPending := spawnPending - {session};
    }

    // The row of `player`, read for `session`, has come back; `born` is when the database thread built the player.
    method SpawnLoaded(session: SessionId, player: PlayerId, row: Option<PlayerState>, born: real)
      requires Valid() && (row.Some? ==> 0 < player)
      modifies this`players, this`sessions, this`spawnPending, this`sent, this`lost, playerGrid
      ensures Valid() && old(lost) <= lost <= old(lost) + {session}
      ensures Members() == M.LoadDone(old(Members()), session, player, row)
      ensures if session in old(spawnPending) && row.Some? && player !in old(players)
              then EnterDone(old(Now()), Now(), player, P.New(session, row.value, born)) else Now() == old(Now())
    {
      hide Replicates, View, AliveOf, MonstersIndexed, FitAround, Faithful, ClientOf, Linked, PlayersIndexed;
      var waiting := TakeSpawnPending(session);
      if !waiting {
        assert spawnPending == old(spawnPending);
        return;
      }
      if row.None? || player in players {
        return;
      }
      PlayerUpdated(players, player, P.New(session, row.value, born));
      Enter(player, P.New(session, row.value, born));
    }

    method SaveAndLeave(player: PlayerId)
      requires Valid() && player in players
      modifies this`players, this`sessions, this`sent, this`requests, playerGrid
      ensures Valid() && Members() == M.Leave(old(Members()), player) && LeaveDone(old(Now()), Now(), player)
      ensures requests == old(requests) + if player in portalPending then []
                                          else [M.SaveRequest(player, old(players)[player].state, zoneId, None)]
    {
      LeftMembers(Members(), players, player);
      if player !in portalPending {
        requests := requests + [M.SaveRequest(player, players[player].state, zoneId, None)];
      }
      Leave(player);
    }

    method HandleDisconnect(session: SessionId)
      requires Valid()
      modifies this`players, this`sessions, this`spawnPending, this`sent, this`requests, playerGrid
      ensures Valid()
      ensures var r := M.Disconnect(old(Members()), zoneId, session);
              Members() == r.m && requests == old(requests) + r.requests
      ensures if session in old(sessions) then LeaveDone(old(Now()), Now(), old(sessions)[session])
              else Now() == old(Now())
    {
      var _ := TakeSpawnPending(session);
      if session !in sessions {
        return;
      }
      var player := sessions[session];
      SaveAndLeave(player);
    }

    // Saves everybody whose last word is not a portal save, in the order of the hash map.
    method SaveAll()
      modifies this`requests
      ensures old(requests) <= requests && M.ClearSaves(Members(), zoneId, requests[|old(requests)|..])
    {
      ghost var m := Members();
      ghost var saves: seq<M.Request> := [];
      ghost var done: set<PlayerId> := {};
      var rest := players.Keys;
      while rest != {}
        invariant rest <= players.Keys && requests == old(requests) + saves
        invariant done == players.Keys - rest - portalPending && M.SavesExactly(m, zoneId, done, saves)
        decreases rest
      {
        var player :| player in rest;
        rest := rest - {player};
        if player !in portalPending {
          OneMoreSave(m, zoneId, done, player, saves);
          saves := saves + [M.SaveRequest(player, m.players[player].state, zoneId, None)];
          requests := requests + [M.SaveRequest(player, players[player].state, zoneId, None)];
          done := done + {player};
        }
      }
      assert requests[|old(requests)|..] == saves;
      assert done == m.players.Keys - m.portalPending;
    }

    method SaveAllAndClear()
      requires Valid()
      modifies this`players, this`sessions, this`spawnPending, this`requests, playerGrid
      ensures Valid() && Members() == M.Clear(old(Members()))
      ensures players == map[] && sessions == map[]
      ensures old(requests) <= requests && M.ClearSaves(old(Members()), zoneId, requests[|old(requests)|..])
    {
      SaveAll();
      ClearPlayers();
    }

    method ClearPlayers()
      requires Valid()
      modifies this`players, this`sessions, this`spawnPending, playerGrid
      ensures Valid() && Members() == M.Clear(old(Members())) && players == map[] && sessions == map[]
    {
      EmptyFor(sent, View(), lost);
      players, sessions, spawnPending := map[], map[], {};
      playerGrid.Clear();
      assert PresenceOf(players) == map[] && Positions() == map[] && SpotsOf(Positions()) == {};
    }

    static lemma EmptyFor(sent: seq<Send>, w: Scene, lost: set<SessionId>)
      ensures Faithful(sent, w, lost) ==> Faithful(sent, w.(positions := map[], sessions := map[]), lost)
    {
    }

    method Close()
      requires Valid()
      modifies this`closed
      ensures Valid() && Members() == M.Close(old(Members()))
    {
      closed := true;
    }

    method HandlePortal(player: PlayerId, portal: nat)
      requires Valid()
      modifies this`portalPending, this`requests
      ensures Valid()
      ensures if portal !in portals then Members() == old(Members()) && requests == old(requests)
              else var r := M.Portal(old(Members()), player, portals[portal].dest, portals[portal].destZone);
                   Members() == r.m && requests == old(requests) + r.requests
      ensures player in players && portal in portals && player !in old(portalPending) ==>
                && |requests| == |old(requests)| + 1
                && SentThroughPortal(requests[|old(requests)|], player, players[player], portals[portal])
    {
      if player !in players || portal !in portals {
        return;
      }
      if player in portalPending {
        return;
      }
      portalPending := portalPending + {player};
      var p, data := players[player], portals[portal];
      requests := requests + [M.SaveRequest(player, p.state.(pos := data.dest), data.destZone, Some(p.session))];
    }

    // Alive, and within the portal's radius.
    method HandlePortalRequest(player: PlayerId, portal: nat)
      requires Valid() && player in players
      modifies this`portalPending, this`requests
      ensures Valid()
      ensures if !InPortal(players[player].state, portals, portal) then Members() == old(Members())
            && requests == old(requests)
              else var r := M.Portal(old(Members()), player, portals[portal].dest, portals[portal].destZone);
                   Members() == r.m && requests == old(requests) + r.requests
    {
      if P.IsDead(players[player]) {
        return;
      }
      if portal !in portals {
        return;
      }
      var data := portals[portal];
      if !IsWithin(data.pos, players[player].state.pos, data.radius) {
        return;
      }
      HandlePortal(player, portal);
    }

    // The save of the portal has succeeded or failed. Whoever entered since under another session stays.
    method LeaveThroughPortal(session: SessionId, player: PlayerId, nextZone: nat)
      requires Valid() && player in players && players[player].session == session
      modifies this`players, this`sessions, this`sent, playerGrid
      ensures Valid() && Members() == M.Leave(old(Members()), player)
      ensures |sent| > 0 && sent[|sent| - 1] == Send(session, ZoneLeaveCompleted(player, nextZone))
      ensures LeaveDone(old(Now()), Now().(sent := sent[..|sent| - 1]), player)
    {
      hide PositionsOf, Faithful, M.Leave, AllSound, Replicates;
      LeftMembers(Members(), players, player);
      Leave(player);
      ghost var told := sent;
      SendNote(session, ZoneLeaveCompleted(player, nextZone));
      assert sent[..|sent| - 1] == told;
    }

    method PortalAnswered(session: SessionId, player: PlayerId, nextZone: nat, ok: bool)
      requires Valid()
      modifies this`players, this`sessions, this`portalPending, this`sent, playerGrid
      ensures Valid()
      ensures Members() == M.PortalDone(old(Members()), session, player, ok)
      ensures PortalDone(old(Now()), Now(), session, player, nextZone, ok)
    {
      portalPending := portalPending - {player};
      if ok && player in players && players[player].session == session {
        LeaveThroughPortal(session, player, nextZone);
      }
    }

    // ---------------------------------------------------------------------------------------------- moving

    // A move under way: `w` is the zone before it, and only the mover's position differs.
    ghost predicate Moving(player: PlayerId, w: Scene)
      reads this`players, this`sessions, this`monsters
    {
      && player in players && player in w.positions && 0 !in players
      && Linked(players, sessions) && OnlySession(w, players[player].session)
      && w.sessions[players[player].session] == player
      && View() == w.(positions := w.positions[player := players[player].state.pos])
    }

    method ExchangeSpawns(player: PlayerId, from: Cell, to: Cell, appeared: seq<PlayerId>, ghost w: Scene)
      requires Moving(player, w) && from == CellAt(w.positions[player]) && to == CellAt(players[player].state.pos)
      requires Distinct(appeared) && forall p :: p in appeared <==> p in Entering(w.positions, player, from, to)
      requires Faithful(sent, w, lost)
      modifies this`sent, this`lost
      ensures lost == old(lost) + if |Entering(w.positions, player, from, to)| > MAX_PLAYER_INFOS
                                  then {players[player].session} else {}
      ensures var session, before := players[player].session, PictureOf(w, players[player].session);
              var came := Delivered(Entering(w.positions, player, from, to), MAX_PLAYER_INFOS);
              Stage(sent, w, InfoOf(player, players[player]), session, before.(players := before.players + came),
                    ToSet(appeared), {}, old(lost))
    {
      var session, info := players[player].session, InfoOf(player, players[player]);
      ghost var sent0, lost0, came := sent, lost, Entering(w.positions, player, from, to);
      assert forall p | p in appeared :: p in came && p in Positions();
      ListSize(appeared, came);
      SendSpawns(session, appeared);
      ghost var sent1 := sent;
      StageStarts(sent0, w, info, session, lost0);
      ListForOneOnly(sent0, session, PlayerList(players, session, appeared));
      StageSelf(sent0, sent1, w, info, session, PictureOf(w, session), {}, {}, lost0);
      if session !in lost0 {
        SpawnListSent(sent0, session, players, appeared, came);
      }
      SpawnPlayerTo(info, appeared);
      StageShown(sent1, sent, w, info, session, ClientOf(sent1, session), ToSet(appeared), lost0);
    }

    // Someone else's despawns, sent to one session.
    method DespawnAllTo(session: SessionId, gone: seq<PlayerId>)
      requires Distinct(gone)
      modifies this`sent
      ensures forall s | s != session :: Trace(sent, s) == Trace(old(sent), s)
      ensures var c := ClientOf(old(sent), session);
              c.InZone? && (forall q | q in gone :: q in c.players) ==>
                ClientOf(sent, session) == c.(players := c.players - ToSet(gone))
    {
      ghost var c := ClientOf(sent, session);
      ghost var sound := c.InZone? && forall q | q in gone :: q in c.players;
      if sound {
        assert c.players - ToSet(gone[..0]) == c.players;
      }
      for i := 0 to |gone|
        invariant forall s | s != session :: Trace(sent, s) == Trace(old(sent), s)
        invariant sound ==> ClientOf(sent, session) == c.(players := c.players - ToSet(gone[..i]))
      {
        forall s {
          SentOne(sent, session, Despawn(gone[i]), s);
        }
        assert gone[..i + 1] == gone[..i] + [gone[i]];
        if sound {
          assert gone[i] in gone && gone[i] !in gone[..i];
          assert c.players - ToSet(gone[..i + 1]) == c.players - ToSet(gone[..i]) - {gone[i]};
        }
        SendTo(session, Despawn(gone[i]));
      }
      assert gone[..|gone|] == gone;
    }

    method DespawnMonstersTo(session: SessionId, gone: seq<MonsterId>)
      requires Distinct(gone)
      modifies this`sent
      ensures forall s | s != session :: Trace(sent, s) == Trace(old(sent), s)
      ensures var c := ClientOf(old(sent), session);
              c.InZone? && (forall q | q in gone :: q in c.monsters) ==>
                ClientOf(sent, session) == c.(monsters := c.monsters - ToSet(gone))
    {
      ghost var c := ClientOf(sent, session);
      ghost var sound := c.InZone? && forall q | q in gone :: q in c.monsters;
      if sound {
        assert c.monsters - ToSet(gone[..0]) == c.monsters;
      }
      for i := 0 to |gone|
        invariant forall s | s != session :: Trace(sent, s) == Trace(old(sent), s)
        invariant sound ==> ClientOf(sent, session) == c.(monsters := c.monsters - ToSet(gone[..i]))
      {
        forall s {
          SentOne(sent, session, MonsterDespawn(gone[i]), s);
        }
        assert gone[..i + 1] == gone[..i] + [gone[i]];
        if sound {
          assert gone[i] in gone && gone[i] !in gone[..i];
          assert c.monsters - ToSet(gone[..i + 1]) == c.monsters - ToSet(gone[..i]) - {gone[i]};
        }
        SendTo(session, MonsterDespawn(gone[i]));
      }
      assert gone[..|gone|] == gone;
    }

    // `mine` is what the mover's client shows, unless it was lost before.
    method ExchangeDespawns(
      player: PlayerId, from: Cell, to: Cell, disappeared: seq<PlayerId>, ghost w: Scene, ghost mine: Client,
      ghost shown: set<PlayerId>, ghost lost0: set<SessionId>)
      requires Moving(player, w) && from == CellAt(w.positions[player]) && to == CellAt(players[player].state.pos)
      requires Distinct(disappeared) && forall p :: p in disappeared <==> p in Entering(w.positions, player, to, from)
      requires mine.InZone? && (forall p | p in disappeared :: p in mine.players) && shown !! ToSet(disappeared)
      requires Stage(sent, w, InfoOf(player, players[player]), players[player].session, mine, shown, {}, lost0)
      modifies this`sent
      ensures Stage(sent, w, InfoOf(player, players[player]), players[player].session,
                    mine.(players := mine.players - ToSet(disappeared)), shown, ToSet(disappeared), lost0)
    {
      var session, info := players[player].session, InfoOf(player, players[player]);
      ghost var sent0 := sent;
      DespawnAllTo(session, disappeared);
      ghost var sent1 := sent;
      StageSelf(sent0, sent1, w, info, session, mine, shown, {}, lost0);
      assert forall p | p in disappeared :: p in Entering(w.positions, player, to, from) && p in Positions();
      DespawnPlayerTo(player, disappeared);
      StageHidden(sent1, sent, w, info, session, ClientOf(sent1, session), shown, ToSet(disappeared), lost0);
    }

    // A list of monsters that come into view, for one session. `mine` is what its client shows.
    method ListMonstersTo(session: SessionId, appeared: seq<MonsterId>, ghost came: map<MonsterId, Pos>,
        ghost mine: Client)
      requires NamesMonsters(monsters, appeared, came)
      requires mine.InZone? && forall m | m in came :: m !in mine.monsters
      modifies this`sent, this`lost
      ensures lost == old(lost) + if |came| > MAX_MONSTER_INFOS then {session} else {}
      ensures forall s | s != session :: Trace(sent, s) == Trace(old(sent), s)
      ensures ClientOf(old(sent), session) == mine ==>
                ClientOf(sent, session) == mine.(monsters := mine.monsters + Delivered(came, MAX_MONSTER_INFOS))
    {
      ListSize(appeared, came);
      SendMonsterSpawns(session, appeared);
      ListForOneOnly(old(sent), session, MonsterList(monsters, session, appeared));
      if ClientOf(old(sent), session) == mine {
        MonsterSpawnListSent(old(sent), session, monsters, appeared, came);
      }
    }

    // Monsters that come into view and that go out of view, for the mover only.
    method ExchangeMonsters(
      player: PlayerId, from: Cell, to: Cell, appeared: seq<MonsterId>, disappeared: seq<MonsterId>, ghost w: Scene,
      ghost mine: Client, ghost shown: set<PlayerId>, ghost hidden: set<PlayerId>, ghost lost0: set<SessionId>)
      requires player in players && OnlySession(w, players[player].session)
      requires NamesMonsters(monsters, appeared, MonstersEntering(w.alive, from, to))
      requires Distinct(disappeared) && forall m :: m in disappeared <==> m in MonstersEntering(w.alive, to, from)
      requires mine.InZone? && mine.monsters == MonsterSight(w.alive, from)
      requires Stage(sent, w, InfoOf(player, players[player]), players[player].session, mine, shown, hidden, lost0)
      modifies this`sent, this`lost
      ensures lost == old(lost) + if |MonstersEntering(w.alive, from, to)| > MAX_MONSTER_INFOS
                                  then {players[player].session} else {}
      ensures var came := Delivered(MonstersEntering(w.alive, from, to), MAX_MONSTER_INFOS);
              Stage(sent, w, InfoOf(player, players[player]), players[player].session,
                    mine.(monsters := mine.monsters + came - ToSet(disappeared)), shown, hidden, lost0)
    {
      hide NamesMonsters, PictureOf, Delivered;
      var session := players[player].session;
      ghost var sent0, came := sent, MonstersEntering(w.alive, from, to);
      ListMonstersTo(session, appeared, came, mine);
      DespawnMonstersTo(session, disappeared);
      StageSelf(sent0, sent, w, InfoOf(player, players[player]), session, mine, shown, hidden, lost0);
    }

    // The player has moved in the tables; now the grid and the clients follow, border by border. The mover's picture is
    // right if and only if what came into view fits the two lists.
    method OnPlayerCellChanged(player: PlayerId, from: Cell, to: Cell, ghost w: Scene)
      requires Moving(player, w) && from == CellAt(w.positions[player]) && to == CellAt(players[player].state.pos)
      requires playerGrid != monsterGrid && playerGrid.Valid() && playerGrid.where == SpotsOf(w.positions)
            && MonstersIndexed()
      requires Faithful(sent, w, lost)
      modifies this`sent, this`lost, playerGrid
      ensures PlayersIndexed() && Crossing(sent, w, InfoOf(player, players[player]), lost)
      ensures MoverFollows(sent, w, player, players[player].session, from, to, old(lost), lost)
    {
      SpotMoved(w.positions, player, players[player].state.pos);
      if from == to {
        NoCrossing(sent, w, InfoOf(player, players[player]), players[player].session, to, lost);
        return;
      }
      CellFits(w.positions[player], 0.0, 0.0);
      CellFits(players[player].state.pos, 0.0, 0.0);
      playerGrid.Move(player, from, to);
      Cross(player, from, to, w);
    }

    // New neighbours and the mover are shown to each other, lost neighbours are hidden from each other.
    method CrossPlayers(player: PlayerId, from: Cell, to: Cell, entered: seq<Cell>, left: seq<Cell>, ghost w: Scene)
      returns (ghost mine: Client)
      requires Moving(player, w) && from == CellAt(w.positions[player]) && to == CellAt(players[player].state.pos)
      requires PlayersIndexed() && Distinct(entered) && Distinct(left)
      requires forall c | c in entered || c in left :: Fits(c)
      requires forall c :: c in entered <==> IsNear(c, to) && !IsNear(c, from)
      requires forall c :: c in left <==> IsNear(c, from) && !IsNear(c, to)
      requires Faithful(sent, w, lost)
      modifies this`sent, this`lost
      ensures lost == old(lost) + if |Entering(w.positions, player, from, to)| > MAX_PLAYER_INFOS
                                  then {players[player].session} else {}
      ensures mine == PlayersCrossed(w.positions, w.alive, player, from, to)
      ensures Stage(sent, w, InfoOf(player, players[player]), players[player].session, mine,
                    Entering(w.positions, player, from, to).Keys, Entering(w.positions, player, to, from).Keys,
                      old(lost))
    {
      hide Stage, Faithful, Linked, Delivered, Entering, PositionsOf, AliveOf, SpotsOf;
      var appeared, disappeared := PassedPlayers(player, from, to, entered, left, w);
      mine := PictureOf(w, players[player].session);
      ghost var lost0 := lost;
      ExchangeSpawns(player, from, to, appeared, w);
      mine := mine.(players := mine.players + Delivered(Entering(w.positions, player, from, to), MAX_PLAYER_INFOS));
      GoneWereSeen(w.positions, player, from, to, mine.players);
      ExchangeDespawns(player, from, to, disappeared, w, mine, ToSet(appeared), lost0);
      mine := mine.(players := mine.players - ToSet(disappeared));
    }

    method PassedPlayers(player: PlayerId, from: Cell, to: Cell, entered: seq<Cell>, left: seq<Cell>, ghost w: Scene)
      returns (appeared: seq<PlayerId>, disappeared: seq<PlayerId>)
      requires Moving(player, w) && PlayersIndexed() && Distinct(entered) && Distinct(left)
      requires forall c | c in entered || c in left :: Fits(c)
      requires forall c :: c in entered <==> IsNear(c, to) && !IsNear(c, from)
      requires forall c :: c in left <==> IsNear(c, from) && !IsNear(c, to)
      ensures Distinct(appeared) && ToSet(appeared) == Entering(w.positions, player, from, to).Keys
      ensures Distinct(disappeared) && ToSet(disappeared) == Entering(w.positions, player, to, from).Keys
      ensures forall p :: p in appeared <==> p in Entering(w.positions, player, from, to)
      ensures forall p :: p in disappeared <==> p in Entering(w.positions, player, to, from)
      ensures ToSet(appeared) !! ToSet(disappeared)
    {
      OthersStand(players, w.positions, player);
      appeared := CollectPlayers(entered, player);
      disappeared := CollectPlayers(left, player);
    }

    // Then the monsters, after which the mover's client has crossed.
    method CrossMonsters(
      player: PlayerId, from: Cell, to: Cell, entered: seq<Cell>, left: seq<Cell>, ghost w: Scene, ghost mine: Client,
      ghost shown: set<PlayerId>, ghost hidden: set<PlayerId>, ghost lost0: set<SessionId>)
      requires Moving(player, w) && MonstersIndexed() && Distinct(entered) && Distinct(left)
      requires forall c | c in entered || c in left :: Fits(c)
      requires forall c :: c in entered <==> IsNear(c, to) && !IsNear(c, from)
      requires forall c :: c in left <==> IsNear(c, from) && !IsNear(c, to)
      requires mine == PlayersCrossed(w.positions, w.alive, player, from, to)
      requires Stage(sent, w, InfoOf(player, players[player]), players[player].session, mine, shown, hidden, lost0)
      modifies this`sent, this`lost
      ensures lost == old(lost) + if |MonstersEntering(w.alive, from, to)| > MAX_MONSTER_INFOS
                                  then {players[player].session} else {}
      ensures Stage(sent, w, InfoOf(player, players[player]), players[player].session,
                    Crossed(w.positions, w.alive, player, from, to), shown, hidden, lost0)
    {
      hide Stage, Linked, Entering, Sight, PositionsOf, AliveOf, SpotsOf;
      var appeared := CollectMonsters(entered);
      var disappeared := CollectMonsters(left);
      assert w.alive == Alive() && ToSet(disappeared) == MonstersEntering(w.alive, to, from).Keys;
      AliveStand(monsters);
      ExchangeMonsters(player, from, to, appeared, disappeared, w, mine, shown, hidden, lost0);
    }

    method CrossAll(
      player: PlayerId, from: Cell, to: Cell, entered: seq<Cell>, left: seq<Cell>, ghost w: Scene,
      ghost shown: set<PlayerId>,
      ghost hidden: set<PlayerId>)
      requires Moving(player, w) && from == CellAt(w.positions[player]) && to == CellAt(players[player].state.pos)
      requires PlayersIndexed() && MonstersIndexed() && Distinct(entered) && Distinct(left)
      requires forall c | c in entered || c in left :: Fits(c)
      requires forall c :: c in entered <==> IsNear(c, to) && !IsNear(c, from)
      requires forall c :: c in left <==> IsNear(c, from) && !IsNear(c, to)
      requires Faithful(sent, w, lost)
      requires shown == Entering(w.positions, player, from, to).Keys
            && hidden == Entering(w.positions, player, to, from).Keys
      modifies this`sent, this`lost
      ensures lost == LostOnWay(old(lost), players[player].session, w.positions, w.alive, player, from, to)
      ensures Stage(sent, w, InfoOf(player, players[player]), players[player].session,
                    Crossed(w.positions, w.alive, player, from, to), shown, hidden, old(lost))
    {
      hide Stage, Crossing, Faithful, Linked, Entering, Sight, PositionsOf, AliveOf, SpotsOf, PlayersCrossed, Crossed;
      ghost var lost0 := lost;
      ghost var mine := CrossPlayers(player, from, to, entered, left, w);
      CrossMonsters(player, from, to, entered, left, w, mine, shown, hidden, lost0);
    }

    method Cross(player: PlayerId, from: Cell, to: Cell, ghost w: Scene)
      requires Moving(player, w) && from == CellAt(w.positions[player]) && to == CellAt(players[player].state.pos)
      requires PlayersIndexed() && MonstersIndexed()
      requires forall c | IsNear(c, from) || IsNear(c, to) :: Fits(c)
      requires Faithful(sent, w, lost)
      modifies this`sent, this`lost
      ensures Crossing(sent, w, InfoOf(player, players[player]), lost)
      ensures MoverFollows(sent, w, player, players[player].session, from, to, old(lost), lost)
    {
      hide Stage, Crossing, MoverFollows, Faithful, Linked, Entering, Sight, PositionsOf, AliveOf, SpotsOf, Crossed,
        FitOnWay;
      var entered, left := DiffNear(from, to);
      ghost var shown, hidden := Entering(w.positions, player, from, to).Keys,
          Entering(w.positions, player, to, from).Keys;
      ghost var lost0 := lost;
      CrossAll(player, from, to, entered, left, w, shown, hidden);
      CrossingEnds(sent, w, InfoOf(player, players[player]), players[player].session, from, to, lost0);
    }

    // A change of a player that moves it nowhere.
    method SetPlayer(player: PlayerId, p: P.PlayerRecord)
      requires PlayersIndexed() && Linked(players, sessions)
      requires player in players && p.session == players[player].session && p.state.pos == players[player].state.pos
      modifies this`players
      ensures PlayersIndexed() && Linked(players, sessions)
      ensures players == old(players)[player := p] && View() == old(View())
    {
      RecordReplaced(players, sessions, Alive(), player, p);
      assert Positions()[player := p.state.pos] == Positions();
      players := players[player := p];
    }

    method AnnounceMove(player: PlayerId, msg: Message, except: PlayerId, ghost w: Scene)
      requires PlayersIndexed() && Moving(player, w) && forall s | s in w.sessions :: w.sessions[s] in w.positions
      requires Crossing(sent, w, InfoOf(player, players[player]), lost)
      requires msg == Move(player, players[player].state.pos)
            || (msg.Revive? && msg.id == player && msg.pos == players[player].state.pos)
      requires except == player || except == 0
      modifies this`sent
      ensures Replicates()
      ensures Told(old(sent), sent, sessions, Around(Positions(), CellAt(players[player].state.pos)) - {except}, msg)
    {
      ghost var sent0 := sent;
      var to := CellAt(players[player].state.pos);
      CellFits(players[player].state.pos, 0.0, 0.0);
      BroadcastNear(to, msg, except);
      MoveIsFaithful(sent0, sent, w, InfoOf(player, players[player]), Around(Positions(), to) - {except}, msg, lost);
    }

    // A change of a player that moves it: everybody around its new place is told, the mover itself if it is not
    // excepted. The mover's picture is right if and only if what came into view fits the two lists.
    method Relocate(player: PlayerId, p: P.PlayerRecord, msg: Message, except: PlayerId)
      requires Valid() && player in players && p.session == players[player].session
      requires msg == Move(player, p.state.pos) || (msg.Revive? && msg.id == player && msg.pos == p.state.pos)
      requires except == player || except == 0
      modifies this`players, this`sent, this`lost, playerGrid
      ensures Valid() && players == old(players)[player := p]
      ensures MoverFollows(sent, View(), player, p.session, CellAt(old(players)[player].state.pos), CellAt(p.state.pos),
                           old(lost), lost)
      ensures LastHeard(sent, sessions, Around(Positions(), CellAt(p.state.pos)) - {except}, msg)
    {
      hide FitOnWay, Linked, AllSound, MonstersIndexed, AliveOf, Told, LastHeard, Members, PresenceOf, Sight, Faithful,
        OnlySession, LostOnWay, ClientOf, MonstersSound, Around;
      ghost var w, lost0 := View(), lost;
      var from, to := CellAt(players[player].state.pos), CellAt(p.state.pos);
      RecordReplaced(players, sessions, Alive(), player, p);
      players := players[player := p];
      OnPlayerCellChanged(player, from, to, w);
      ghost var sent1 := sent;
      AnnounceMove(player, msg, except, w);
      MoverStillFollows(sent1, sent, w, player, p.session, from, to, lost0, lost, p.state.pos,
                        Around(Positions(), to) - {except}, msg);
      ToldIsLastHeard(sent1, sent, sessions, Around(Positions(), to) - {except}, msg);
    }

    method Correct(player: PlayerId, p: P.PlayerRecord)
      requires Valid() && player in players && p.session == players[player].session
            && p.state.pos == players[player].state.pos
      modifies this`players, this`sent
      ensures Valid() && players == old(players)[player := p]
      ensures sent == old(sent) + [Send(p.session, Move(player, p.state.pos))]
    {
      SetPlayer(player, p);
      SendCorrection(player, p.session, p.state.pos);
    }

    method SendCorrection(player: PlayerId, session: SessionId, pos: Pos)
      requires Replicates() && session in sessions && sessions[session] == player
      modifies this`sent
      ensures Replicates() && sent == old(sent) + [Send(session, Move(player, pos))]
    {
      CorrectionKeepsFaithful(sent, View(), session, pos, lost);
      SendTo(session, Move(player, pos));
    }

    // A rejected move is answered with the position the server holds.
    method HandleMove(player: PlayerId, target: Option<Pos>, now: real)
      requires Valid()
      modifies this`players, this`sent, this`lost, playerGrid
      ensures Valid()
      ensures MoveDone(old(Now()), Now(), player, target, now, sqrt)
    {
      if player in portalPending {
        return;
      }
      if player !in players || P.IsDead(players[player]) {
        return;
      }
      var tried := P.TryMove(players[player], target, now, MAX_MOVE_SPEED, sqrt);
      if !tried.ok {
        Correct(player, tried.p);
        return;
      }
      Relocate(player, tried.p, Move(player, tried.p.state.pos), player);
    }

    method HandleRevive(player: PlayerId)
      requires Valid() && player in players
      modifies this`players, this`sent, this`lost, playerGrid
      ensures Valid()
      ensures ReviveDone(old(Now()), Now(), player, spawnPoint)
    {
      if !P.IsDead(players[player]) {
        return;
      }
      if spawnPoint.None? {
        return;
      }
      var revived := P.Revive(players[player], spawnPoint.value, players[player].maxHp);
      Relocate(player, revived, Revive(player, revived.state.pos, revived.state.hp), 0);
      assert Around(Positions(), CellAt(revived.state.pos)) - {0} == Around(Positions(), CellAt(revived.state.pos));
    }

    // ---------------------------------------------------------------------------------------------- monsters

    method FindNearestPlayer(at: Pos, range: Range) returns (nearest: Option<PlayerId>)
      requires PlayersIndexed() && range >= 0.0
      ensures IsNearest(players, portalPending, at, range, nearest)
    {
      nearest := None;
      var best := range * range;
      CellFits(at, -range, -range);
      CellFits(at, range, range);
      SpotsAreExact(Positions());
      var ids := playerGrid.IdsInRange(at.x, at.z, range);
      for i := 0 to |ids|
        invariant nearest.None? ==> best == range * range
        invariant nearest.Some? ==>
                    && Eligible(players, portalPending, nearest.value, at, range)
                    && best == DistSq(at, players[nearest.value].state.pos)
        invariant forall p | p in ids[..i] && Eligible(players, portalPending, p, at, range) ::
                    nearest.Some? && best <= DistSq(at, players[p].state.pos)
      {
        assert ids[..i + 1] == ids[..i] + [ids[i]];
        var id := ids[i];
        if id !in portalPending && id in players && !P.IsDead(players[id]) {
          var d := DistSq(at, players[id].state.pos);
          if d <= best {
            best, nearest := d, Some(id);
          }
        }
      }
      assert ids[..|ids|] == ids;
      forall p | p in players && Eligible(players, portalPending, p, at, range) ensures p in ids {
        RangeCoversCell(at, players[p].state.pos, range);
        assert p in Positions() && Spot(p, CellAt(players[p].state.pos)) in playerGrid.where;
      }
    }

    // A change of a monster that moves it nowhere and neither kills nor revives it.
    method SetMonster(uid: MonsterId, m: B.MonsterRecord)
      requires MonstersIndexed() && MonstersSound() && uid in monsters && B.Sound(m)
      requires m.pos == monsters[uid].pos && m.phase.Dead? == monsters[uid].phase.Dead?
      modifies this`monsters
      ensures MonstersIndexed() && MonstersSound() && View() == old(View()) && monsters == old(monsters)[uid := m]
    {
      assert AliveOf(monsters[uid := m]) == AliveOf(monsters);
      monsters := monsters[uid := m];
    }

    // The monster has moved in the tables; now the grid and the clients around its borders follow.
    method OnMonsterCellChanged(uid: MonsterId, from: Cell, to: Cell, ghost w: Scene)
      requires playerGrid != monsterGrid && PlayersIndexed() && Linked(players, sessions)
      requires monsterGrid.Valid() && monsterGrid.where == SpotsOf(w.alive)
      requires uid in monsters && uid in w.alive && View() == w.(alive := w.alive[uid := monsters[uid].pos])
      requires from == CellAt(w.alive[uid]) && to == CellAt(monsters[uid].pos)
      requires Faithful(sent, w, lost)
      modifies this`sent, monsterGrid
      ensures MonstersIndexed() && NoNews(old(sent), sent)
      ensures MonsterCrossing(sent, w, MonsterInfoOf(uid, monsters[uid]), lost)
    {
      SpotMoved(w.alive, uid, monsters[uid].pos);
      if from == to {
        SameCellMonsterCrosses(sent, w, MonsterInfoOf(uid, monsters[uid]), lost);
        return;
      }
      CellFits(w.alive[uid], 0.0, 0.0);
      CellFits(monsters[uid].pos, 0.0, 0.0);
      monsterGrid.Move(uid, from, to);
      CrossMonster(uid, from, to, w);
    }

    // Who starts and who stops seeing something that goes from one cell to another.
    method Viewers(from: Cell, to: Cell) returns (viewersIn: seq<PlayerId>, viewersOut: seq<PlayerId>)
      requires PlayersIndexed() && forall c | IsNear(c, from) || IsNear(c, to) :: Fits(c)
      ensures Distinct(viewersIn) && ToSet(viewersIn) == Around(Positions(), to) - Around(Positions(), from)
      ensures Distinct(viewersOut) && ToSet(viewersOut) == Around(Positions(), from) - Around(Positions(), to)
    {
      var entered, left := DiffNear(from, to);
      viewersIn := CollectPlayers(entered, 0);
      viewersOut := CollectPlayers(left, 0);
    }

    method SpawnMonsterTo(info: MonsterInfo, viewers: seq<PlayerId>)
      requires Linked(players, sessions) && Distinct(viewers) && forall p | p in viewers :: p in players
      modifies this`sent
      ensures Told(old(sent), sent, sessions, ToSet(viewers), MonsterSpawn([info]))
    {
      if viewers == [] {
        return;
      }
      MulticastTo(viewers, MonsterSpawn([info]));
    }

    method CrossMonster(uid: MonsterId, from: Cell, to: Cell, ghost w: Scene)
      requires PlayersIndexed() && Linked(players, sessions)
      requires uid in monsters && uid in w.alive && Positions() == w.positions && sessions == w.sessions
      requires from == CellAt(w.alive[uid]) && to == CellAt(monsters[uid].pos)
      requires forall c | IsNear(c, from) || IsNear(c, to) :: Fits(c)
      requires Faithful(sent, w, lost)
      modifies this`sent
      ensures NoNews(old(sent), sent)
      ensures MonsterCrossing(sent, w, MonsterInfoOf(uid, monsters[uid]), lost)
    {
      hide Told, MonsterCrossing, Faithful, NoNews, News, SpotsOf;
      ghost var sent0 := sent;
      var info := MonsterInfoOf(uid, monsters[uid]);
      var viewersIn, viewersOut := Viewers(from, to);
      assert forall p | p in viewersIn :: p in ToSet(viewersIn);
      assert forall p | p in viewersOut :: p in ToSet(viewersOut);
      SpawnMonsterTo(info, viewersIn);
      ghost var sent1 := sent;
      MulticastTo(viewersOut, MonsterDespawn(uid));
      MonsterCrosses(sent0, sent1, sent, w, info, ToSet(viewersIn), ToSet(viewersOut), lost);
      ToldIsNews(sent0, sent1, sessions, ToSet(viewersIn), MonsterSpawn([info]));
      ToldIsNews(sent1, sent, sessions, ToSet(viewersOut), MonsterDespawn(uid));
      NoNewsTwice(sent0, sent1, sent);
    }


    // A monster on its way: `w` is the zone before it moved, `info` where it is.
    ghost predicate Roaming(uid: MonsterId, w: Scene, info: MonsterInfo)
      reads this`players, this`sessions, this`monsters, this`sent, this`lost
    {
      && info.uid == uid && uid in w.alive
      && View() == w.(alive := w.alive[uid := info.pos])
      && MonsterCrossing(sent, w, info, lost)
    }

    // The only way a monster changes its place while it lives.
    method MoveMonsterToward(uid: MonsterId, t: Pos, step: real, stopDist: real)
      returns (moved: bool, ghost w: Scene, ghost info: MonsterInfo)
      requires Valid() && uid in monsters && !monsters[uid].phase.Dead? && stopDist >= 0.0
      requires B.Sound(B.MoveToward(monsters[uid], t, step, stopDist, sqrt).m)
      modifies this`monsters, this`sent, monsterGrid
      ensures Tables() && MonstersSound() && w == old(View()) && Roaming(uid, w, info) && NoNews(old(sent), sent)
      ensures var r := B.MoveToward(old(monsters)[uid], t, step, stopDist, sqrt);
              monsters == old(monsters)[uid := r.m] && moved == r.moved && info.pos == r.m.pos
    {
      w := View();
      var r := B.MoveToward(monsters[uid], t, step, stopDist, sqrt);
      moved, info := r.moved, MonsterInfoOf(uid, r.m);
      if !moved {
        assert monsters[uid := r.m] == monsters && w.alive[uid := info.pos] == w.alive;
        SameCellMonsterCrosses(sent, w, info, lost);
        return;
      }
      var from := CellAt(monsters[uid].pos);
      MonsterUpdated(monsters, uid, r.m);
      monsters := monsters[uid := r.m];
      OnMonsterCellChanged(uid, from, CellAt(r.m.pos), w);
    }

    method BroadcastMonsterMove(uid: MonsterId, ghost w: Scene, ghost info: MonsterInfo)
      requires Tables() && Roaming(uid, w, info) && uid in monsters && info.pos == monsters[uid].pos
      modifies this`sent
      ensures Replicates() && NoNews(old(sent), sent)
    {
      ghost var sent0 := sent;
      var cell := CellAt(monsters[uid].pos);
      CellFits(monsters[uid].pos, 0.0, 0.0);
      BroadcastNear(cell, MonsterMove(uid, monsters[uid].pos));
      LinkedScene(players, sessions);
      ToldIsNews(sent0, sent, sessions, Around(Positions(), cell) - {0}, MonsterMove(uid, monsters[uid].pos));
      assert Around(Positions(), cell) - {0} == Around(Positions(), cell);
      MonsterMoveIsFaithful(sent0, sent, w, info, lost);
    }

    method FinishMove(uid: MonsterId, moved: bool, ghost w: Scene, ghost info: MonsterInfo)
      requires Tables() && Roaming(uid, w, info) && uid in monsters && info.pos == monsters[uid].pos
      requires !moved ==> info.pos == w.alive[uid]
      modifies this`sent
      ensures Replicates() && NoNews(old(sent), sent)
    {
      if moved {
        BroadcastMonsterMove(uid, w, info);
      } else {
        assert w.alive[uid := info.pos] == w.alive;
        LinkedScene(players, sessions);
        UnmovedIsFaithful(sent, w, info, lost);
      }
    }

    // A message that changes no picture, to everybody around, while a monster is on its way.
    method NoteWhileRoaming(center: Cell, msg: Message, uid: MonsterId, ghost w: Scene, ghost info: MonsterInfo)
      requires Tables() && Roaming(uid, w, info) && IsQuiet(msg) && forall c | IsNear(c, center) :: Fits(c)
      modifies this`sent
      ensures Roaming(uid, w, info) && Told(old(sent), sent, sessions, Around(Positions(), center), msg)
    {
      ghost var sent0 := sent;
      BroadcastNear(center, msg);
      assert Around(Positions(), center) - {0} == Around(Positions(), center);
      QuietKeepsMonsterCrossing(sent0, sent, w, info, Around(Positions(), center), msg, lost);
    }

    method MonsterAttack(uid: MonsterId, target: PlayerId, ghost w: Scene, ghost info: MonsterInfo)
      requires Tables() && Roaming(uid, w, info) && uid in monsters && target in players
      modifies this`players, this`sent
      ensures Tables() && Roaming(uid, w, info)
      ensures var h := P.TakeDamage(old(players)[target], monsters[uid].data.attack);
              && players == old(players)[target := h.p]
              && Told(old(sent), sent, sessions, Around(Positions(), CellAt(h.p.state.pos)),
                      PlayerHit(uid, target, h.applied, h.p.state.hp))
    {
      var h := P.TakeDamage(players[target], monsters[uid].data.attack);
      SetPlayer(target, h.p);
      CellFits(h.p.state.pos, 0.0, 0.0);
      NoteWhileRoaming(CellAt(h.p.state.pos), PlayerHit(uid, target, h.applied, h.p.state.hp), uid, w, info);
    }

    method BroadcastMonsterHp(uid: MonsterId, ghost w: Scene, ghost info: MonsterInfo)
      requires Tables() && Roaming(uid, w, info) && uid in monsters
      modifies this`sent
      ensures Roaming(uid, w, info)
      ensures Told(old(sent), sent, sessions, Around(Positions(), CellAt(monsters[uid].pos)),
            MonsterHp(uid, monsters[uid].hp))
    {
      CellFits(monsters[uid].pos, 0.0, 0.0);
      NoteWhileRoaming(CellAt(monsters[uid].pos), MonsterHp(uid, monsters[uid].hp), uid, w, info);
    }

    method UpdateIdle(uid: MonsterId) returns (target: Option<PlayerId>)
      requires Valid() && uid in monsters && monsters[uid].phase.Idle?
      modifies this`monsters
      ensures Valid() && IsNearest(players, portalPending, old(monsters)[uid].pos, old(monsters)[uid].data.aggroRange,
            target)
      ensures monsters == if target.None? then old(monsters)
            else old(monsters)[uid := B.StartChase(old(monsters)[uid], target.value)]
    {
      target := FindNearestPlayer(monsters[uid].pos, monsters[uid].data.aggroRange);
      if target.Some? {
        SetMonster(uid, B.StartChase(monsters[uid], target.value));
      }
    }

    // The player chased, if it is there and alive, otherwise the nearest in sight.
    method FindTarget(m: B.MonsterRecord) returns (target: Option<PlayerId>)
      requires PlayersIndexed()
      ensures IsTarget(players, portalPending, m, target)
    {
      if m.target in players && !P.IsDead(players[m.target]) {
        return Some(m.target);
      }
      target := FindNearestPlayer(m.pos, m.data.aggroRange);
    }

    // Within reach and off cooldown, it hits.
    method Strike(uid: MonsterId, target: PlayerId, now: real, ghost w: Scene, ghost info: MonsterInfo)
      requires Tables() && MonstersSound() && Roaming(uid, w, info) && uid in monsters && target in players
      requires monsters[uid].phase.Chase?
      modifies this`monsters, this`players, this`sent
      ensures Tables() && MonstersSound() && Roaming(uid, w, info)
      ensures var p := old(players)[target];
              var r := B.Struck(old(monsters)[uid], p.state.pos, now, MONSTER_ATTACK_COOLDOWN);
              var h := P.TakeDamage(p, r.m.data.attack);
              && monsters == old(monsters)[uid := r.m]
              && players == (if r.moved then old(players)[target := h.p] else old(players))
              && StrikeNews(old(sent), sent, sessions, Positions(), r.moved, uid, target, h.p, h.applied)
    {
      var m := monsters[uid];
      if IsWithin(m.pos, players[target].state.pos, m.data.attackRange) {
        var tried := B.TryUseAttack(m, now, MONSTER_ATTACK_COOLDOWN);
        SetMonster(uid, tried.m);
        if tried.moved {
          ghost var sent0, h := sent, P.TakeDamage(players[target], m.data.attack);
          MonsterAttack(uid, target, w, info);
          ToldIsNews(sent0, sent, sessions, Around(Positions(), CellAt(h.p.state.pos)),
                     PlayerHit(uid, target, h.applied, h.p.state.hp));
        }
      }
    }

    // A tick of a chase inside the leash.
    method GoFor(uid: MonsterId, target: PlayerId, step: real, now: real)
      requires Valid() && uid in monsters && monsters[uid].phase.Chase? && target in players
      requires 0.0 <= step <= B.Reach(monsters[uid].data)
      requires B.InLeash(monsters[uid])
      modifies this`monsters, this`players, this`sent, monsterGrid
      ensures Valid()
      ensures var m, p := old(monsters)[uid], old(players)[target];
              var r := B.ChaseTick(m, Some(p.state.pos), step, now, MONSTER_ATTACK_COOLDOWN, sqrt);
              var h := P.TakeDamage(p, r.m.data.attack);
              && monsters == old(monsters)[uid := r.m]
              && players == (if r.moved then old(players)[target := h.p] else old(players))
              && StrikeNews(old(sent), sent, sessions, Positions(), r.moved, uid, target, h.p, h.applied)
    {
      var m, t := monsters[uid], players[target].state.pos;
      var stop := B.StopDist(m);
      assert B.Sound(B.MoveToward(m, t, step, stop, sqrt).m) by { B.ChaseMoveKeepsSound(m, t, step, sqrt); }
      var moved, w, info := MoveMonsterToward(uid, t, step, stop);
      ghost var n, struck := monsters[uid], B.Struck(monsters[uid], t, now, MONSTER_ATTACK_COOLDOWN);
      assert old(monsters)[uid := n][uid := struck.m] == old(monsters)[uid := struck.m] by {
        UpdatedTwice(old(monsters), uid, n, struck.m);
      }
      B.ChaseTickInLeash(m, t, step, now, MONSTER_ATTACK_COOLDOWN, sqrt);
      ghost var sent1, h := sent, P.TakeDamage(players[target], struck.m.data.attack);
      Strike(uid, target, now, w, info);
      ghost var sent2 := sent;
      FinishMove(uid, moved, w, info);
      StrikeAmongMoves(old(sent), sent1, sent2, sent, sessions, Positions(), struck.moved, uid, target, h.p, h.applied);
    }

    method UpdateChase(uid: MonsterId, step: real, now: real) returns (target: Option<PlayerId>)
      requires Valid() && uid in monsters && monsters[uid].phase.Chase?
      requires 0.0 <= step <= B.Reach(monsters[uid].data)
      modifies this`monsters, this`players, this`sent, monsterGrid
      ensures Valid() && IsTarget(old(players), portalPending, old(monsters)[uid], target)
      ensures var m := old(monsters)[uid];
              var r := B.ChaseTick(m, PlaceOf(old(players), target), step, now, MONSTER_ATTACK_COOLDOWN, sqrt);
              && monsters == old(monsters)[uid := r.m]
              && (!r.moved ==> players == old(players) && NoNews(old(sent), sent))
              && (r.moved ==>
                    var h := P.TakeDamage(old(players)[target.value], r.m.data.attack);
                    && players == old(players)[target.value := h.p]
                    && StrikeNews(old(sent), sent, sessions, Positions(), true, uid, target.value, h.p, h.applied))
    {
      var m := monsters[uid];
      target := FindTarget(m);
      if !B.InLeash(m) || target.None? {
        SetMonster(uid, B.StartReturn(m));
        return;
      }
      GoFor(uid, target.value, step, now);
    }

    // Home: idle again, and healed.
    method Arrive(uid: MonsterId, ghost w: Scene, ghost info: MonsterInfo)
      requires Tables() && MonstersSound() && Roaming(uid, w, info) && uid in monsters && !monsters[uid].phase.Dead?
      modifies this`monsters, this`sent
      ensures Tables() && MonstersSound() && Roaming(uid, w, info)
      ensures var m := old(monsters)[uid]; var n := B.Arrived(m);
              && monsters == old(monsters)[uid := n]
              && if m.hp != n.hp then
                   Told(old(sent), sent, sessions, Around(Positions(), CellAt(n.pos)), MonsterHp(uid, n.hp))
                 else sent == old(sent)
    {
      var n := monsters[uid];
      if B.IsHome(n) {
        SetMonster(uid, B.SetIdle(n).(hp := n.data.maxHp));
        if n.hp != n.data.maxHp {
          BroadcastMonsterHp(uid, w, info);
        }
      }
    }

    method UpdateReturn(uid: MonsterId, step: real)
      requires Valid() && uid in monsters && monsters[uid].phase.Return? && 0.0 <= step
      modifies this`monsters, this`sent, monsterGrid
      ensures Valid()
      ensures var m := old(monsters)[uid]; var n := B.ReturnTick(m, step, sqrt);
              && monsters == old(monsters)[uid := n]
              && ArrivalNews(old(sent), sent, sessions, Positions(), uid, m, n)
    {
      hide MonstersIndexed, Roaming, Replicates, PlayersIndexed, ArrivalNews, SpotsOf, Linked;
      var m := monsters[uid];
      B.ReturnMoveKeepsSound(m, step, sqrt);
      var moved, w, info := MoveMonsterToward(uid, m.spawn, step, 0.0);
      UpdatedTwice(old(monsters), uid, monsters[uid], B.Arrived(monsters[uid]));
      ghost var sent1 := sent;
      Arrive(uid, w, info);
      ghost var sent2 := sent;
      FinishMove(uid, moved, w, info);
      ArrivalAmongMoves(old(sent), sent1, sent2, sent, sessions, Positions(), uid, m, monsters[uid]);
    }

    method RespawnMonster(uid: MonsterId)
      requires Valid() && uid in monsters && monsters[uid].phase.Dead?
      modifies this`monsters, this`sent, monsterGrid
      ensures Valid() && monsters == old(monsters)[uid := B.Respawn(old(monsters)[uid])]
      ensures var info := MonsterInfoOf(uid, monsters[uid]);
              Told(old(sent), sent, sessions, Around(Positions(), CellAt(info.pos)), MonsterSpawn([info]))
    {
      ghost var w := View();
      var m := B.Respawn(monsters[uid]);
      B.RespawnIsSound(monsters[uid]);
      MonsterUpdated(monsters, uid, m);
      SpotAdded(w.alive, uid, m.pos);
      CellFits(m.pos, 0.0, 0.0);
      monsters := monsters[uid := m];
      monsterGrid.Add(uid, CellAt(m.pos));
      ShowRespawn(uid, w);
    }

    method ShowRespawn(uid: MonsterId, ghost w: Scene)
      requires Tables() && uid in monsters && uid !in w.alive
            && View() == w.(alive := w.alive[uid := monsters[uid].pos])
      requires Faithful(sent, w, lost)
      modifies this`sent
      ensures Replicates()
      ensures var info := MonsterInfoOf(uid, monsters[uid]);
              Told(old(sent), sent, sessions, Around(Positions(), CellAt(info.pos)), MonsterSpawn([info]))
    {
      ghost var sent0 := sent;
      var info := MonsterInfoOf(uid, monsters[uid]);
      CellFits(info.pos, 0.0, 0.0);
      BroadcastNear(CellAt(info.pos), MonsterSpawn([info]));
      assert Around(Positions(), CellAt(info.pos)) - {0} == Around(Positions(), CellAt(info.pos));
      RespawnIsFaithful(sent0, sent, w, info, lost);
    }

    // ---------------------------------------------------------------------------------------------- fighting

    // A change of a monster that moves it nowhere, within a job: it may be left without hit points.
    method HurtMonster(uid: MonsterId, m: B.MonsterRecord)
      requires MonstersIndexed() && uid in monsters
      requires m.pos == monsters[uid].pos && m.phase.Dead? == monsters[uid].phase.Dead?
      modifies this`monsters
      ensures MonstersIndexed() && View() == old(View()) && monsters == old(monsters)[uid := m]
    {
      assert AliveOf(monsters[uid := m]) == AliveOf(monsters);
      monsters := monsters[uid := m];
    }

    // It dies, those around stop seeing it, and it leaves the grid.
    method TakeOut(uid: MonsterId, now: real)
      requires Tables() && Replicates() && uid in monsters && !monsters[uid].phase.Dead?
      modifies this`monsters, this`sent, monsterGrid
      ensures Tables() && Replicates() && monsters == old(monsters)[uid := B.Die(old(monsters)[uid], now)]
      ensures Told(old(sent), sent, sessions, Around(Positions(), CellAt(old(monsters)[uid].pos)), MonsterDespawn(uid))
    {
      ghost var w := View();
      var pos, dead := monsters[uid].pos, B.Die(monsters[uid], now);
      assert AliveOf(monsters[uid := dead]) == w.alive - {uid} by { MonsterUpdated(monsters, uid, dead); }
      SpotRemoved(w.alive, uid);
      CellFits(pos, 0.0, 0.0);
      monsters := monsters[uid := dead];
      ShowDeath(uid, CellAt(pos), w);
      monsterGrid.Remove(uid, CellAt(pos));
    }

    method ShowDeath(uid: MonsterId, cell: Cell, ghost w: Scene)
      requires PlayersIndexed() && Linked(players, sessions) && forall c | IsNear(c, cell) :: Fits(c)
      requires uid in w.alive && cell == CellAt(w.alive[uid]) && View() == w.(alive := w.alive - {uid})
      requires Faithful(sent, w, lost)
      modifies this`sent
      ensures Replicates() && Told(old(sent), sent, sessions, Around(Positions(), cell), MonsterDespawn(uid))
    {
      ghost var sent0 := sent;
      BroadcastNear(cell, MonsterDespawn(uid));
      assert Around(Positions(), cell) - {0} == Around(Positions(), cell);
      DeathIsFaithful(sent0, sent, w, uid, lost);
    }

    method GiveRewards(player: PlayerId, exp: nat)
      requires Tables() && Replicates() && player in players
      modifies this`players, this`sent
      ensures Tables() && Replicates() && players == old(players)[player := P.Rewarded(old(players)[player], exp)]
      ensures NoNews(old(sent), sent)
      ensures sent == old(sent) + if exp == 0 then []
            else [Send(players[player].session, Exp(exp, players[player].state.exp))]
    {
      if exp == 0 {
        assert P.Rewarded(players[player], exp) == players[player];
        return;
      }
      SetPlayer(player, P.Rewarded(players[player], exp));
      SentIsNoNews(sent, players[player].session, Exp(exp, players[player].state.exp));
      SendNote(players[player].session, Exp(exp, players[player].state.exp));
    }

    // One death, one removal, one reward roll.
    method OnMonsterDead(uid: MonsterId, killer: PlayerId, now: real)
      requires Tables() && Replicates() && uid in monsters && !monsters[uid].phase.Dead? && killer in players
      modifies this`monsters, this`players, this`sent, this`deaths, monsterGrid
      ensures Tables() && Replicates() && monsters == old(monsters)[uid := B.Die(old(monsters)[uid], now)]
      ensures deaths == old(deaths) + [uid] && NoNews(old(sent), sent)
      ensures players == old(players)[killer := P.Rewarded(old(players)[killer], roll(|old(deaths)|))]
    {
      ghost var at := CellAt(monsters[uid].pos);
      TakeOut(uid, now);
      ghost var sent1 := sent;
      ToldIsNews(old(sent), sent, sessions, Around(Positions(), at), MonsterDespawn(uid));
      var exp := roll(|deaths|);
      deaths := deaths + [uid];
      GiveRewards(killer, exp);
      NoNewsTwice(old(sent), sent1, sent);
    }

    method HandleAttack(attacker: PlayerId, atMonster: bool, uid: MonsterId, now: real)
      requires Valid() && attacker in players
      modifies this`monsters, this`players, this`sent, this`deaths, monsterGrid
      ensures Valid()
      ensures AttackDone(old(Now()), Now(), attacker, atMonster, uid, now, roll)
    {
      hide Faithful, View, Linked, News, AllSound, AliveOf, MonstersIndexed, PlayersIndexed;
      if P.IsDead(players[attacker]) || attacker in portalPending || !atMonster {
        return;
      }
      if uid !in monsters || monsters[uid].phase.Dead? || monsters[uid].phase.Return? {
        return;
      }
      var range := ATTACK_RANGE + ATTACK_RANGE_TOLERANCE;
      if !IsWithin(monsters[uid].pos, players[attacker].state.pos, range) {
        return;
      }
      var tried := P.TryUseAttack(players[attacker], now, ATTACK_COOLDOWN);
      if !tried.ok {
        return;
      }
      SetPlayer(attacker, tried.p);
      LandAttack(attacker, uid, now);
    }

    method LandAttack(attacker: PlayerId, uid: MonsterId, now: real)
      requires Valid() && attacker in players && uid in monsters && !monsters[uid].phase.Dead?
      modifies this`monsters, this`players, this`sent, this`deaths, monsterGrid
      ensures Valid()
      ensures var h := B.Attacked(old(monsters)[uid], ATTACK_DAMAGE, attacker);
              && monsters == old(monsters)[uid := B.Survived(h, now)]
              && deaths == old(deaths) + (if h.hp <= 0 then [uid] else [])
              && players == (if h.hp <= 0 then old(players)[attacker := P.Rewarded(old(players)[attacker],
                roll(|old(deaths)|))]
                             else old(players))
              && News(old(sent), sent, sessions, Around(Positions(), CellAt(h.pos)),
                      MonsterHit(attacker, uid, B.TakeDamage(old(monsters)[uid], ATTACK_DAMAGE).applied, h.hp))
    {
      hide PlayersIndexed, Sight, MonstersIndexed, SpotsOf, AliveOf, Told, Linked, Fits;
      var damage := B.TakeDamage(monsters[uid], ATTACK_DAMAGE).applied;
      var h := B.Attacked(monsters[uid], ATTACK_DAMAGE, attacker);
      B.SurvivedIsSound(monsters[uid], ATTACK_DAMAGE, attacker, now);
      UpdatedTwice(monsters, uid, h, B.Survived(h, now));
      TellHit(attacker, uid, damage, h);
      ghost var sent1, who := sent, Around(Positions(), CellAt(h.pos));
      if h.hp <= 0 {
        OnMonsterDead(uid, attacker, now);
        NewsThenNone(old(sent), sent1, sent, sessions, who, MonsterHit(attacker, uid, damage, h.hp));
      }
    }

    method TellHit(attacker: PlayerId, uid: MonsterId, damage: int, h: B.MonsterRecord)
      requires Tables() && Replicates() && uid in monsters
      requires h.pos == monsters[uid].pos && h.phase.Dead? == monsters[uid].phase.Dead?
      modifies this`monsters, this`sent
      ensures Tables() && Replicates() && monsters == old(monsters)[uid := h]
      ensures News(old(sent), sent, sessions, Around(Positions(), CellAt(h.pos)),
                   MonsterHit(attacker, uid, damage, h.hp))
    {
      HurtMonster(uid, h);
      CellFits(h.pos, 0.0, 0.0);
      Note(CellAt(h.pos), MonsterHit(attacker, uid, damage, h.hp));
      ToldIsNews(old(sent), sent, sessions, Around(Positions(), CellAt(h.pos)),
                 MonsterHit(attacker, uid, damage, h.hp));
    }

    // A message that changes no picture, to everybody around.
    method Note(center: Cell, msg: Message)
      requires Tables() && Replicates() && IsQuiet(msg) && forall c | IsNear(c, center) :: Fits(c)
      modifies this`sent
      ensures Replicates() && Told(old(sent), sent, sessions, Around(Positions(), center), msg)
    {
      ghost var sent0 := sent;
      BroadcastNear(center, msg);
      assert Around(Positions(), center) - {0} == Around(Positions(), center);
      QuietKeepsFaithful(sent0, sent, View(), Around(Positions(), center), msg, lost);
    }

    // The index of a nearest of them.
    method NearestOf(found: seq<MonsterId>, at: Point) returns (k: nat)
      requires found != [] && forall u | u in found :: u in monsters
      ensures k < |found| && forall u | u in found :: DistSq(at, monsters[found[k]].pos) <= DistSq(at, monsters[u].pos)
    {
      k := 0;
      for i := 1 to |found|
        invariant k < i
        invariant forall j | 0 <= j < i :: DistSq(at, monsters[found[k]].pos) <= DistSq(at, monsters[found[j]].pos)
      {
        if DistSq(at, monsters[found[i]].pos) < DistSq(at, monsters[found[k]].pos) {
          k := i;
        }
      }
    }

    // What std::partial_sort leaves in the first n places.
    method PartialSort(found: seq<MonsterId>, at: Point, n: nat) returns (out: seq<MonsterId>)
      requires Distinct(found) && n <= |found| && forall u | u in found :: u in monsters
      ensures |out| == n && Distinct(out) && (forall u | u in out :: u in found) && NearestFirst(monsters, at, out)
      ensures forall u | u in found && u !in out :: NoNearer(monsters, at, u, out)
    {
      out := [];
      var rest := found;
      for i := 0 to n
        invariant |out| == i && |rest| == |found| - i && Distinct(out) && Distinct(rest)
        invariant forall u :: u in found <==> u in out || u in rest
        invariant forall u | u in out :: u !in rest
        invariant NearestFirst(monsters, at, out)
        invariant forall u | u in rest :: NoNearer(monsters, at, u, out)
      {
        var k := NearestOf(rest, at);
        var u := rest[k];
        TakenOut(rest, k);
        assert NoNearer(monsters, at, u, out);
        out := out + [u];
        rest := rest[..k] + rest[k + 1..];
      }
    }

    method CollectMonstersInRadius(at: Pos, radius: Range, most: nat) returns (out: seq<MonsterId>)
      requires MonstersIndexed() && radius >= 0.0
      ensures AreNearest(monsters, at, radius, most, out)
    {
      CellFits(at, -radius, -radius);
      CellFits(at, radius, radius);
      SpotsAreExact(Alive());
      var ids := monsterGrid.IdsInRange(at.x, at.z, radius);
      var found: seq<MonsterId> := [];
      for i := 0 to |ids|
        invariant Distinct(found)
        invariant forall u :: u in found <==> u in ids[..i] && InReach(monsters, u, at, radius)
      {
        assert ids[..i + 1] == ids[..i] + [ids[i]];
        if InReach(monsters, ids[i], at, radius) {
          found := found + [ids[i]];
        }
      }
      assert ids[..|ids|] == ids;
      forall u | u in monsters && InReach(monsters, u, at, radius) ensures u in found {
        RangeCoversCell(at, monsters[u].pos, radius);
        assert u in Alive() && Spot(u, CellAt(monsters[u].pos)) in monsterGrid.where;
      }
      var n := if |found| < most then |found| else most;
      out := PartialSort(found, at, n);
      forall u | u in found && u !in out ensures |out| == most {
        if n == |found| {
          AllTaken(found, out);
        }
      }
    }

    method ChooseTargets(at: Pos, skill: SkillData, uid: MonsterId) returns (targets: seq<MonsterId>)
      requires MonstersIndexed() && !skill.target.NoTarget?
      requires !skill.target.SelfArea? ==> IsTargetable(monsters, uid)
      ensures AreTargets(monsters, at, skill, uid, targets)
      ensures Distinct(targets) && forall u | u in targets :: u in monsters && IsTargetable(monsters, u)
    {
      match skill.target
      case Single => targets := [uid];
      case SelfArea => targets := CollectMonstersInRadius(at, skill.radius, SKILL_MAX_TARGETS);
      case TargetArea => targets := CollectMonstersInRadius(monsters[uid].pos, skill.radius, SKILL_MAX_TARGETS);
    }

    method DamageAll(targets: seq<MonsterId>, damage: int, attacker: PlayerId) returns (hits: seq<SkillHit>)
      requires MonstersIndexed() && Distinct(targets) && forall u | u in targets ::
            u in monsters && IsTargetable(monsters, u)
      modifies this`monsters
      ensures MonstersIndexed() && View() == old(View()) && AllHit(old(monsters), monsters, targets, damage, attacker)
      ensures hits == Hits(old(monsters), targets, damage, attacker)
    {
      hits := [];
      for i := 0 to |targets|
        invariant MonstersIndexed() && View() == old(View())
        invariant AllHit(old(monsters), monsters, targets[..i], damage, attacker)
        invariant hits == Hits(old(monsters), targets[..i], damage, attacker)
      {
        var uid := targets[i];
        assert uid in targets;
        AllHitNext(old(monsters), monsters, targets, i, damage, attacker);
        var applied := B.TakeDamage(monsters[uid], damage).applied;
        HurtMonster(uid, B.Attacked(monsters[uid], damage, attacker));
        hits := hits + [SkillHit(uid, applied, monsters[uid].hp)];
      }
      assert targets[..|targets|] == targets;
    }

    method SettleDeaths(targets: seq<MonsterId>, killer: PlayerId, now: real)
      requires Tables() && Replicates() && killer in players && Distinct(targets)
      requires forall u | u in targets :: u in monsters && !monsters[u].phase.Dead?
      modifies this`monsters, this`players, this`sent, this`deaths, monsterGrid
      ensures Tables() && Replicates() && NoNews(old(sent), sent)
      ensures Settled(old(Fight(monsters, players, deaths)), Fight(monsters, players, deaths), targets, killer, now,
            roll)
    {
      hide Settled, NoNews, Faithful, Linked, SpotsOf, PositionsOf, AliveOf;
      ghost var start := Fight(monsters, players, deaths);
      NothingSettled(start, killer, now, roll);
      NothingTold(sent);
      assert targets[..0] == [];
      for i := 0 to |targets|
        invariant Tables() && Replicates() && NoNews(old(sent), sent) && killer in players
        invariant Settled(start, Fight(monsters, players, deaths), targets[..i], killer, now, roll)
      {
        SettledNext(start, Fight(monsters, players, deaths), targets, i, killer, now, roll);
        if monsters[targets[i]].hp <= 0 {
          ghost var sent1 := sent;
          OnMonsterDead(targets[i], killer, now);
          NoNewsTwice(old(sent), sent1, sent);
        }
      }
      assert targets[..|targets|] == targets;
    }

    // Paying, damage and the news of it.
    method PayAndDamage(caster: PlayerId, id: nat, target: Option<MonsterId>, targets: seq<MonsterId>, now: real)
      requires Tables() && Replicates() && caster in players && id in skills && Distinct(targets)
      requires forall u | u in targets :: u in monsters && IsTargetable(monsters, u)
      requires target.Some? ==> target.value in monsters
      modifies this`monsters, this`players, this`sent
      ensures Tables() && Replicates() && AllHit(old(monsters), monsters, targets, skills[id].damage, caster)
      ensures players == old(players)[caster := Spent(old(players)[caster], skills[id], id, now)]
      ensures CastTold(old(sent), sent, sessions, Positions(), old(Fight(monsters, players, deaths)), caster,
            skills[id], id,
                       target, targets, now)
    {
      hide Faithful, PositionsOf, Told, Linked, SpotsOf, MonstersIndexed;
      SetPlayer(caster, Spent(players[caster], skills[id], id, now));
      var hits := DamageAll(targets, skills[id].damage, caster);
      var center := if target.Some? then monsters[target.value].pos else players[caster].state.pos;
      CellFits(center, 0.0, 0.0);
      Note(CellAt(center), SkillCast(caster, id, players[caster].state.hp, players[caster].state.mp, hits));
    }

    // Then the deaths. `start` is the fight before the cast.
    method FinishCast(caster: PlayerId, id: nat, targets: seq<MonsterId>, now: real, ghost start: Fight)
      requires Tables() && Replicates() && caster in players && id in skills && Distinct(targets)
      requires caster in start.players && AllSound(start.monsters, nextMonster)
      requires forall u | u in targets :: u in start.monsters && IsTargetable(start.monsters, u)
      requires AllHit(start.monsters, monsters, targets, skills[id].damage, caster) && deaths == start.deaths
      requires players == start.players[caster := Spent(start.players[caster], skills[id], id, now)]
      modifies this`monsters, this`players, this`sent, this`deaths, monsterGrid
      ensures Valid() && NoNews(old(sent), sent) && View().positions == old(View()).positions
      ensures CastDone(start, Fight(monsters, players, deaths), caster, skills[id], id, targets, now, roll)
    {
      hide Faithful, Linked, SpotsOf, AllSound, CastDone, Settled, NoNews, AllHit;
      ghost var middle := Fight(monsters, players, deaths);
      HitIsAlive(start.monsters, monsters, targets, skills[id].damage, caster);
      SettleDeaths(targets, caster, now);
      SettledKeepsPositions(middle, Fight(monsters, players, deaths), targets, caster, now, roll);
      CastKeepsSound(start, middle, Fight(monsters, players, deaths), caster, skills[id], id, targets, now, roll,
        nextMonster);
    }

    method Cast(caster: PlayerId, id: nat, target: Option<MonsterId>, targets: seq<MonsterId>, now: real)
      requires Valid() && caster in players && id in skills && Distinct(targets)
      requires forall u | u in targets :: u in monsters && IsTargetable(monsters, u)
      requires target.Some? ==> target.value in monsters
      modifies this`monsters, this`players, this`sent, this`deaths, monsterGrid
      ensures Valid()
      ensures CastDone(old(Fight(monsters, players, deaths)), Fight(monsters, players, deaths), caster, skills[id], id,
                       targets, now, roll)
      ensures CastNews(old(sent), sent, sessions, Positions(), old(Fight(monsters, players, deaths)), caster,
            skills[id], id,
                       target, targets, now)
    {
      hide Faithful, Linked, SpotsOf, AllSound, CastDone, NoNews, AllHit, CastNews, CastTold, PositionsOf, AliveOf;
      ghost var start := Fight(monsters, players, deaths);
      PayAndDamage(caster, id, target, targets, now);
      ghost var sent1 := sent;
      FinishCast(caster, id, targets, now, start);
      CastIsNews(start, old(sent), sent1, sent, sessions, Positions(), caster, skills[id], id, target, targets, now);
    }

    method HandleSkillCast(caster: PlayerId, id: nat, atMonster: bool, uid: MonsterId, now: real)
      returns (targets: seq<MonsterId>)
      requires Valid() && caster in players
      modifies this`monsters, this`players, this`sent, this`deaths, monsterGrid
      ensures Valid()
      ensures SkillDone(old(Now()), Now(), caster, skills, id, atMonster, uid, targets, now, roll)
    {
      targets := [];
      if caster in portalPending {
        return;
      }
      var failure := CastFailure(players, monsters, skills, caster, id, atMonster, uid, now);
      if failure.Some? {
        SendNote(players[caster].session, SkillFail(id, failure.value));
        return;
      }
      targets := ChooseTargets(players[caster].state.pos, skills[id], uid);
      Cast(caster, id, if skills[id].target.SelfArea? then None else Some(uid), targets, now);
    }

    // ---------------------------------------------------------------------------------------------- ticking

    method UpdateMonster(uid: MonsterId, dt: real, now: real) returns (target: Option<PlayerId>)
      requires Valid() && uid in monsters && !monsters[uid].phase.Dead? && 0.0 <= dt <= B.MAX_TICK_DT
      modifies this`monsters, this`players, this`sent, monsterGrid
      ensures Valid() && TurnDone(old(Now()), Now(), uid, target, dt, now, sqrt)
    {
      hide Faithful, PlayersIndexed, MonstersIndexed, Linked, AllSound, StrikeNews, ArrivalNews, NoNews, IsNearest,
        PositionsOf, AliveOf;
      target := None;
      var step := B.StepOf(monsters[uid], dt);
      B.StepIsBounded(monsters[uid], dt);
      match monsters[uid].phase {
        case Idle => target := UpdateIdle(uid);
        case Chase => target := UpdateChase(uid, step, now);
        case Return => UpdateReturn(uid, step);
        case Dead =>
      }
    }

    // A tick of one monster, dead ones included.
    method TickMonster(uid: MonsterId, dt: real, now: real) returns (target: Option<PlayerId>)
      requires Valid() && uid in monsters && 0.0 <= dt <= B.MAX_TICK_DT
      modifies this`monsters, this`players, this`sent, monsterGrid
      ensures Valid() && TurnDone(old(Now()), Now(), uid, target, dt, now, sqrt)
    {
      hide Faithful, PlayersIndexed, MonstersIndexed, Linked, AllSound, StrikeNews, ArrivalNews, NoNews, IsNearest,
        PositionsOf, AliveOf, ChaseDone, LookDone;
      target := None;
      if monsters[uid].phase.Dead? {
        if B.CanRespawn(monsters[uid], now) {
          RespawnMonster(uid);
        }
      } else {
        target := UpdateMonster(uid, dt, now);
      }
    }

    // Every monster takes its turn once, in the order of the hash map.
    method TickMonsters(dt: real, now: real) returns (ghost rounds: seq<Situation>, ghost turns: seq<Turn>)
      requires Valid() && 0.0 <= dt <= B.MAX_TICK_DT
      modifies this`monsters, this`players, this`sent, monsterGrid
      ensures Valid() && SameStands(old(players), players)
      ensures AllTicked(old(monsters), monsters, {}, dt, now, sqrt)
      ensures AllTurns(rounds, turns, dt, now, sqrt) && EachOnce(turns, old(monsters).Keys)
      ensures rounds[0] == old(Now()) && rounds[|turns|] == Now()
    {
      hide PlayersIndexed, MonstersIndexed, Faithful, MonstersSound, Replicates, AliveOf, B.Ticked;
      assert IsSqrt(sqrt);
      hide Valid, AllTicked, TurnDone, AllTurns, EachOnce;
      rounds, turns := [Now()], [];
      NoTurns(Now(), dt, now, sqrt);
      NobodyTicked(monsters, dt, now, sqrt);
      var rest := monsters.Keys;
      assert monsters.Keys - rest == {};
      while rest != {}
        invariant Valid() && SameStands(old(players), players) && rest <= old(monsters).Keys
        invariant AllTicked(old(monsters), monsters, rest, dt, now, sqrt)
        invariant AllTurns(rounds, turns, dt, now, sqrt) && EachOnce(turns, old(monsters).Keys - rest)
        invariant |rounds| == |turns| + 1 && rounds[0] == old(Now()) && rounds[|turns|] == Now()
        decreases rest
      {
        var uid :| uid in rest;
        ghost var before := Now();
        TickedAmong(old(monsters), monsters, rest, uid, dt, now, sqrt);
        var target := TickMonster(uid, dt, now);
        TurnTicks(before, Now(), uid, target, dt, now, sqrt);
        TickedNext(old(monsters), before.monsters, rest, uid, monsters[uid], dt, now, sqrt);
        StandsAgain(old(players), before.players, players);
        TurnsGrow(rounds, turns, old(monsters).Keys - rest, Now(), Turn(uid, target), dt, now, sqrt);
        assert old(monsters).Keys - (rest - {uid}) == old(monsters).Keys - rest + {uid};
        rounds, turns := rounds + [Now()], turns + [Turn(uid, target)];
        rest := rest - {uid};
      }
      assert old(monsters).Keys - {} == old(monsters).Keys;
    }

    method RegenPlayer(player: PlayerId)
      requires Tables() && Replicates() && player in players
      modifies this`players, this`sent
      ensures Tables() && Replicates() && View() == old(View())
      ensures players == old(players)[player := P.Regen(old(players)[player], HP_REGEN, MP_REGEN).p]
      ensures var t := P.Regen(old(players)[player], HP_REGEN, MP_REGEN);
              if !t.ok then sent == old(sent)
              else News(old(sent), sent, sessions, Around(Positions(), CellAt(t.p.state.pos)), StatOf(player, t.p))
    {
      var t := P.Regen(players[player], HP_REGEN, MP_REGEN);
      SetPlayer(player, t.p);
      if t.ok {
        CellFits(t.p.state.pos, 0.0, 0.0);
        Note(CellAt(t.p.state.pos), StatOf(player, t.p));
        ToldIsNews(old(sent), sent, sessions, Around(Positions(), CellAt(t.p.state.pos)), StatOf(player, t.p));
      }
    }

    method RegenPlayers()
      requires Tables() && Replicates()
      modifies this`players, this`sent
      ensures Tables() && Replicates() && View() == old(View()) && players.Keys == old(players).Keys
      ensures SameStands(old(players), players)
      ensures forall p | p in players :: players[p] == if p in portalPending then old(players)[p]
                                                       else P.Regen(old(players)[p], HP_REGEN, MP_REGEN).p
      ensures RegenNews(old(sent), sent, sessions, old(players), players.Keys - portalPending)
    {
      hide PositionsOf, Replicates, Faithful, SpotsOf, MonsterSight, PlayersIndexed, Linked, News, AliveOf,
        MonstersIndexed, AllSound, PresenceOf, Around, SameStands;
      var rest := players.Keys;
      while rest != {}
        invariant Tables() && Replicates() && View() == old(View())
        invariant players.Keys == old(players).Keys && rest <= players.Keys
        invariant forall p | p in players ::
          players[p] == if p in rest || p in portalPending then old(players)[p]
                        else P.Regen(old(players)[p], HP_REGEN, MP_REGEN).p
        invariant RegenNews(old(sent), sent, sessions, old(players), players.Keys - rest - portalPending)
        decreases rest
      {
        var player :| player in rest;
        rest := rest - {player};
        if player !in portalPending {
          ghost var sent1, done := sent, players.Keys - rest - portalPending - {player};
          RegenPlayer(player);
          RegenNewsNext(old(sent), sent1, sent, sessions, old(players), done, player);
          assert players.Keys - rest - portalPending == done + {player};
        } else {
          assert players.Keys - (rest + {player}) - portalPending == players.Keys - rest - portalPending;
        }
      }
      assert players.Keys - {} - portalPending == players.Keys - portalPending;
      StandsUnchanged(old(players), players, sessions);
    }

    // Saves one slice of the players: those alive, not leaving, and changed since their last save.
    method AutoSaveTick()
      requires Tables() && Replicates()
      modifies this`players, this`requests, this`autoSaveSlice
      ensures Tables() && Replicates() && View() == old(View())
      ensures autoSaveSlice == NextSlice(old(autoSaveSlice))
      ensures players == AfterAutoSave(old(players), DueForSave(old(players), portalPending, old(autoSaveSlice)))
      ensures old(requests) <= requests
      ensures M.SavesExactly(Members(), zoneId, DueForSave(old(players), portalPending, old(autoSaveSlice)),
                             requests[|old(requests)|..])
      ensures SameStands(old(players), players)
    {
      var slice := autoSaveSlice;
      autoSaveSlice := NextSlice(autoSaveSlice);
      SaveSlice(slice);
      SavingKeepsPresence(old(players), DueForSave(old(players), portalPending, slice));
      StandsUnchanged(old(players), players, sessions);
    }

    method SaveSlice(slice: nat)
      requires Tables() && Replicates()
      modifies this`players, this`requests
      ensures Tables() && Replicates() && View() == old(View())
      ensures players == AfterAutoSave(old(players), DueForSave(old(players), portalPending, slice))
      ensures old(requests) <= requests
      ensures M.SavesExactly(old(Members()), zoneId, DueForSave(old(players), portalPending, slice),
            requests[|old(requests)|..])
    {
      hide AfterAutoSave, PositionsOf, AliveOf, Tables, PlayersIndexed, Replicates, DueForSave, PresenceOf;
      ghost var before, m := players, Members();
      ghost var saves: seq<M.Request> := [];
      var rest := players.Keys;
      NothingSaved(m, before, portalPending, slice, zoneId);
      while rest != {}
        invariant Tables() && Replicates() && View() == old(View())
        invariant rest <= before.Keys && requests == old(requests) + saves
        invariant SliceSaved(m, before, players, portalPending, slice, rest, saves, zoneId)
        decreases rest
      {
        var player :| player in rest;
        SavedNext(m, before, players, portalPending, slice, rest, saves, zoneId, player);
        if IsDueForSave(players[player], player, portalPending, slice) {
          saves := saves + [M.SaveRequest(player, players[player].state, zoneId, None)];
        }
        SaveIfDue(player, slice);
        rest := rest - {player};
      }
      assert requests[|old(requests)|..] == saves;
      assert DueForSave(before, portalPending, slice) - {} == DueForSave(before, portalPending, slice);
    }

    method SaveIfDue(player: PlayerId, slice: nat)
      requires Tables() && Replicates() && player in players
      modifies this`players, this`requests
      ensures Tables() && Replicates() && View() == old(View())
      ensures if IsDueForSave(old(players)[player], player, portalPending, slice)
              then && players == old(players)[player := P.ConsumeChanged(old(players)[player]).p]
                   && requests == old(requests) + [M.SaveRequest(player, old(players)[player].state, zoneId, None)]
              else players == old(players) && requests == old(requests)
    {
      if SliceOf(player) != slice {
        return;
      }
      if player in portalPending || P.IsDead(players[player]) {
        return;
      }
      var changed := P.ConsumeChanged(players[player]);
      if !changed.ok {
        return;
      }
      SetPlayer(player, changed.p);
      requests := requests + [M.SaveRequest(player, players[player].state, zoneId, None)];
    }

    // The tick job. Nothing happens in a zone that is shutting down. `fit` is the players as regeneration left them.
    method Update(now: real) returns (
        ghost rounds: seq<Situation>, ghost turns: seq<Turn>, ghost fit: map<PlayerId, P.PlayerRecord>)
      requires Valid() && lastTick <= now
      modifies this`monsters, this`players, this`sent, this`requests, this`lastTick, this`regenTimer,
               this`autoSaveTimer, this`autoSaveSlice, monsterGrid
      ensures Valid() && old(lastTick) <= lastTick <= now && SameStands(old(players), players)
      ensures old(requests) <= requests
      ensures old(closed) ==> Snap() == old(Snap())
      ensures !old(closed) ==>
                && AllTicked(old(monsters), monsters, {}, Min(now - old(lastTick), B.MAX_TICK_DT), now, sqrt)
                && TickDone(old(Snap()), Snap(), rounds, turns, fit, now, TheRules())
    {
      hide AllSound, View, Faithful, MonstersIndexed, PlayersIndexed, Tables, PositionsOf, AllTicked, AllTurns,
        EachOnce,
        TimersDone, TimersAfter;
      rounds, turns, fit := [Now()], [], players;
      if closed {
        return;
      }
      var dt := Min(now - lastTick, B.MAX_TICK_DT);
      lastTick := now;
      rounds, turns := TickMonsters(dt, now);
      ghost var struck := players;
      fit := RunTimers(dt);
      StandsAgain(old(players), struck, players);
    }

    // Once a second everybody regenerates.
    method RegenTimer(dt: real)
      requires Tables() && Replicates()
      modifies this`players, this`sent, this`regenTimer
      ensures Tables() && Replicates() && SameStands(old(players), players) && players.Keys == old(players).Keys
      ensures Regenerated(old(players), players, portalPending, old(regenTimer) + dt)
      ensures if old(regenTimer) + dt < REGEN_INTERVAL then sent == old(sent)
              else RegenNews(old(sent), sent, sessions, old(players), old(players).Keys - portalPending)
      ensures regenTimer == Wound(old(regenTimer) + dt, REGEN_INTERVAL)
    {
      hide Tables, MonsterSight, AliveOf, PresenceOf, Replicates, RegenNews, Linked, MonstersIndexed;
      regenTimer := regenTimer + dt;
      if regenTimer >= REGEN_INTERVAL {
        regenTimer := regenTimer - REGEN_INTERVAL;
        RegenPlayers();
      }
    }

    // Every ten seconds one slice is saved.
    method SaveTimer(dt: real)
      requires Tables() && Replicates()
      modifies this`players, this`requests, this`autoSaveTimer, this`autoSaveSlice
      ensures Tables() && Replicates() && SameStands(old(players), players)
      ensures Saved(old(players), players, portalPending, old(autoSaveSlice), old(autoSaveTimer) + dt)
      ensures old(requests) <= requests
      ensures M.SavesExactly(Members(), zoneId, SavedNow(old(players), portalPending, old(autoSaveSlice),
                               old(autoSaveTimer) + dt), requests[|old(requests)|..])
      ensures autoSaveTimer == Wound(old(autoSaveTimer) + dt, AUTOSAVE_INTERVAL)
      ensures autoSaveSlice == if old(autoSaveTimer) + dt < AUTOSAVE_INTERVAL then old(autoSaveSlice)
                               else NextSlice(old(autoSaveSlice))
    {
      hide Tables, AfterAutoSave, MonsterSight, AliveOf, PresenceOf, Replicates, Linked, MonstersIndexed;
      autoSaveTimer := autoSaveTimer + dt;
      if autoSaveTimer >= AUTOSAVE_INTERVAL {
        autoSaveTimer := autoSaveTimer - AUTOSAVE_INTERVAL;
        AutoSaveTick();
      }
    }

    method RunTimers(dt: real) returns (ghost fit: map<PlayerId, P.PlayerRecord>)
      requires Tables() && Replicates()
      modifies this`players, this`sent, this`requests, this`regenTimer, this`autoSaveTimer, this`autoSaveSlice
      ensures Tables() && Replicates() && SameStands(old(players), players)
      ensures TimersDone(old(Now()), Now(), fit, old(Clock()), dt) && Clock() == TimersAfter(old(Clock()), dt)
      ensures old(requests) <= requests
      ensures M.SavesExactly(Members(), zoneId, SavedNow(fit, portalPending, old(autoSaveSlice),
                               old(autoSaveTimer) + dt), requests[|old(requests)|..])
    {
      hide Tables, MonsterSight, AliveOf, PresenceOf, Replicates, RegenNews, Linked, MonstersIndexed, Regenerated,
        Saved,
        SavedNow, M.SavesExactly, SameStands;
      RegenTimer(dt);
      fit := players;
      SaveTimer(dt);
      StandsAgain(old(players), fit, players);
    }

    // ---------------------------------------------------------------------------------------------- jobs

    ghost function Snap(): Snapshot
      reads this`monsters, this`deaths, this`sent, this`requests, this`players, this`sessions, this`spawnPending,
            this`portalPending, this`closed, this`lost, this`lastTick, this`regenTimer, this`autoSaveTimer,
            this`autoSaveSlice
    {
      Snapshot(players, monsters, deaths, sent, requests, Members(), lost, lastTick, Clock())
    }

    ghost function Clock(): Timers
      reads this`regenTimer, this`autoSaveTimer, this`autoSaveSlice
    {
      Timers(regenTimer, autoSaveTimer, autoSaveSlice)
    }

    ghost function TheRules(): Rules {
      Rules(zoneId, spawnPoint, portals, skills, roll, sqrt)
    }

    // A job has carried the monsters, the lost sessions and the clock on.
    twostate predicate Carried(deed: Deed)
      requires IsSqrt(sqrt)
      reads this`monsters, this`deaths, this`lost, this`lastTick
    {
      && old(deaths) <= deaths && MonstersAdvance(old(monsters), monsters, deaths[|old(deaths)|..], deed, sqrt)
      && old(lost) <= lost <= old(lost) + deed.lists && old(lastTick) <= lastTick
    }

    // The membership has followed the job, and so have the requests to the database.
    twostate predicate Requested(job: Job)
      reads this`players, this`sessions, this`spawnPending, this`portalPending, this`closed, this`requests
    {
      && old(requests) <= requests
      && MembersFollow(zoneId, portals, old(Members()), Members(), requests[|old(requests)|..], job)
    }

    // All of it: the job has been done, and done right.
    twostate predicate Advanced(job: Job, now: real)
      requires IsSqrt(sqrt)
      reads this`monsters, this`deaths, this`sent, this`requests, this`players, this`sessions, this`spawnPending,
            this`portalPending, this`closed, this`lost, this`lastTick, this`regenTimer, this`autoSaveTimer,
            this`autoSaveSlice
    {
      JobAdvances(old(Snap()), Snap(), TimedJob(job, now), TheRules())
    }

    // Whether a request of this player to be revived moves it.
    predicate ReviveMoves(player: PlayerId)
      reads this`players
    {
      && player in players && P.IsDead(players[player]) && spawnPoint.Some?
      && spawnPoint.value != players[player].state.pos
    }

    ghost function MovedBy(player: PlayerId, packet: ClientPacket): set<PlayerId>
      reads this`players
    {
      if packet.ReviveMe? && ReviveMoves(player) then {player} else {}
    }

    // Of the players whose portal save is under way, those a job moves.
    ghost function Moved(job: Job): set<PlayerId>
      reads this`players, this`sessions, this`closed
    {
      if !closed && job.FromClient? && job.session in sessions then MovedBy(sessions[job.session], job.packet) else {}
    }

    method AttackJob(attacker: PlayerId, atMonster: bool, uid: MonsterId, now: real, ghost deed: Deed)
      requires Valid() && attacker in players && deed.time.None? && deed.damage == ATTACK_DAMAGE
      modifies this`monsters, this`players, this`sent, this`deaths, monsterGrid
      ensures Valid() && SameStands(old(players), players) && Carried(deed)
      ensures AttackDone(old(Now()), Now(), attacker, atMonster, uid, now, roll)
    {
      ghost var before := Now();
      HandleAttack(attacker, atMonster, uid, now);
      AttackCarries(before, Now(), attacker, atMonster, uid, now, roll, deed, sqrt);
    }

    method MoveJob(player: PlayerId, target: Option<Pos>, now: real, ghost deed: Deed)
      requires Valid() && player in players && deed.time.None? && players[player].session in deed.lists
      modifies this`players, this`sent, this`lost, playerGrid
      ensures Valid() && Carried(deed) && SamePlayers(old(players), players)
      ensures StandStill(old(players), players, portalPending)
      ensures MoveDone(old(Now()), Now(), player, target, now, sqrt)
    {
      NobodyDied(monsters, deaths, deed, sqrt);
      HandleMove(player, target, now);
    }

    method ReviveJob(player: PlayerId, ghost deed: Deed)
      requires Valid() && player in players && deed.time.None? && players[player].session in deed.lists
      modifies this`players, this`sent, this`lost, playerGrid
      ensures Valid() && Carried(deed) && SamePlayers(old(players), players)
      ensures OnlyMove(old(players), players, portalPending, old(MovedBy(player, ReviveMe)))
      ensures ReviveDone(old(Now()), Now(), player, spawnPoint)
    {
      hide AliveOf, PositionsOf, News, NoNews, SameStands, LivesOn, PlayersIndexed, SpotsOf;
      NobodyDied(monsters, deaths, deed, sqrt);
      HandleRevive(player);
    }

    method SkillJob(caster: PlayerId, id: nat, atMonster: bool, uid: MonsterId, now: real, ghost deed: Deed)
      returns (targets: seq<MonsterId>)
      requires Valid() && caster in players && deed.time.None? && deed.damage == SkillDamage(skills, id)
      modifies this`monsters, this`players, this`sent, this`deaths, monsterGrid
      ensures Valid() && SameStands(old(players), players) && Carried(deed)
      ensures SkillDone(old(Now()), Now(), caster, skills, id, atMonster, uid, targets, now, roll)
    {
      ghost var before := Now();
      targets := HandleSkillCast(caster, id, atMonster, uid, now);
      SkillCarries(before, Now(), caster, skills, id, atMonster, uid, targets, now, roll, deed, sqrt);
    }

    method TickJob(now: real)
      requires Valid() && lastTick <= now
      modifies this`monsters, this`players, this`sent, this`requests, this`lastTick, this`regenTimer,
               this`autoSaveTimer, this`autoSaveSlice, monsterGrid
      ensures Valid() && lastTick <= now && SameStands(old(players), players) && Advanced(Tick, now)
    {
      hide PositionsOf, AliveOf, PlayersIndexed, MonstersIndexed, Faithful, Replicates, View, Linked, AllSound,
        MonstersAdvance,
        MembersFollow, JobDone, AllTicked, LivesOn, TickDone, TickFollows;
      ghost var before, deed := Snap(), DeedOf(skills, Tick, now, closed, lastTick);
      ghost var rounds, turns, fit := Update(now);
      SamePlayersSamePresence(before.players, players, before.members);
      assert deaths[|before.deaths|..] == [];
      if !closed {
        TickKillsNobody(before.monsters, monsters, Min(now - before.lastTick, B.MAX_TICK_DT), now, deed, sqrt);
        TickRequests(before, Snap(), rounds, turns, fit, now, TheRules());
      } else {
        NobodyDied(monsters, deaths, deed, sqrt);
        assert requests[|before.requests|..] == [];
        NobodySaved(before.members, zoneId);
      }
      TickAdvances(before, Snap(), now, TheRules());
    }

    // What a player does besides asking for a portal changes nobody's presence.
    method Act(player: PlayerId, packet: ClientPacket, now: real, ghost deed: Deed)
      requires Valid() && player in players && !packet.UsePortal?
      requires deed == PacketDeed(skills, players[player].session, packet)
      modifies this`monsters, this`players, this`sent, this`deaths, this`lost, playerGrid, monsterGrid
      ensures Valid() && Carried(deed) && SamePlayers(old(players), players)
      ensures OnlyMove(old(players), players, portalPending, old(MovedBy(player, packet)))
      ensures ActDone(old(Now()), Now(), player, packet, now, TheRules())
    {
      hide Faithful, Replicates, PlayersIndexed, MonstersIndexed, Linked, AllSound, MoveDone, AttackDone, ReviveDone,
        SkillDone, MonstersAdvance;
      NobodyDied(monsters, deaths, deed, sqrt);
      match packet
      case MoveTo(target) => MoveJob(player, target, now, deed);
      case Attack(atMonster, uid) => AttackJob(player, atMonster, uid, now, deed);
      case ReviveMe => ReviveJob(player, deed);
      case CastSkill(skill, atMonster, uid) =>
        var targets := SkillJob(player, skill, atMonster, uid, now, deed);
      case _ =>
    }

    // Asking for a portal changes nothing but the pending set.
    method PortalPacket(player: PlayerId, portal: nat, ghost deed: Deed)
      requires Valid() && player in players && deed.time.None? && !closed
      modifies this`requests, this`portalPending
      ensures Valid() && Carried(deed) && Requested(FromClient(players[player].session, UsePortal(portal)))
    {
      hide Faithful, Replicates, PlayersIndexed, MonstersIndexed, AllSound, MonstersAdvance, PositionsOf, AliveOf;
      NobodyDied(monsters, deaths, deed, sqrt);
      HandlePortalRequest(player, portal);
    }

    method HandlePlayerPacket(player: PlayerId, packet: ClientPacket, now: real)
      requires Valid() && player in players && !closed && !packet.ReadyToSpawn?
      modifies this`monsters, this`players, this`sent, this`deaths, this`requests, this`portalPending, this`lost,
               playerGrid, monsterGrid
      ensures Valid() && Carried(PacketDeed(skills, old(players)[player].session, packet))
      ensures Requested(FromClient(old(players)[player].session, packet))
      ensures OnlyMove(old(players), players, old(portalPending), old(MovedBy(player, packet)))
      ensures ActDone(old(Now()), Now(), player, packet, now, TheRules())
    {
      hide PositionsOf, View, PresenceOf, AliveOf, Replicates, Faithful, PlayersIndexed, MonstersAdvance, MoveDone,
        AttackDone, ReviveDone, SkillDone;
      ghost var deed := PacketDeed(skills, players[player].session, packet);
      if packet.UsePortal? {
        PortalPacket(player, packet.portal, deed);
        return;
      }
      ghost var m, players0 := Members(), players;
      Act(player, packet, now, deed);
      SamePlayersSamePresence(players0, players, m);
    }

    // A packet of a player in the zone comes to what its kind says; everything else to nothing.
    method HandleClientPacket(session: SessionId, packet: ClientPacket, now: real)
      requires Valid()
      modifies this`monsters, this`players, this`sent, this`deaths, this`requests, this`spawnPending,
               this`portalPending, this`lost, playerGrid, monsterGrid
      ensures Valid() && Carried(PacketDeed(skills, session, packet)) && Requested(FromClient(session, packet))
      ensures OnlyMove(old(players), players, old(portalPending), old(Moved(FromClient(session, packet))))
      ensures PacketDone(old(Now()), Now(), old(closed), session, packet, now, TheRules())
      ensures old(closed) ==> Members() == old(Members()) && requests == old(requests)
    {
      hide Faithful, Replicates, PlayersIndexed, MonstersIndexed, AllSound, MonstersAdvance, MoveDone, AttackDone,
        ReviveDone, SkillDone;
      NobodyDied(monsters, deaths, PacketDeed(skills, session, packet), sqrt);
      if closed {
        return;
      }
      if packet.ReadyToSpawn? {
        HandleReadyToSpawn(session, packet.player);
        return;
      }
      if session !in sessions {
        return;
      }
      HandlePlayerPacket(sessions[session], packet, now);
    }

    method PacketJob(session: SessionId, packet: ClientPacket, now: real)
      requires Valid() && lastTick <= now
      modifies this`monsters, this`players, this`sent, this`deaths, this`requests, this`spawnPending,
               this`portalPending, this`lost, playerGrid, monsterGrid
      ensures Valid() && Advanced(FromClient(session, packet), now)
      ensures OnlyMove(old(players), players, old(portalPending), old(Moved(FromClient(session, packet))))
    {
      hide PositionsOf, AliveOf, PlayersIndexed, MonstersIndexed, Faithful, Replicates, View, Linked, AllSound,
        MonstersAdvance,
        MembersFollow, JobDone, PacketDone;
      ghost var before := Snap();
      HandleClientPacket(session, packet, now);
      PacketIsDone(before, Snap(), session, packet, now, TheRules());
    }

    method DisconnectJob(session: SessionId, ghost now: real)
      requires Valid() && lastTick <= now
      modifies this`players, this`sessions, this`spawnPending, this`sent, this`requests, playerGrid
      ensures Valid() && Advanced(Disconnected(session), now)
      ensures StandStill(old(players), players, old(players).Keys)
    {
      hide PositionsOf, AliveOf, PlayersIndexed, MonstersIndexed, Faithful, Replicates, View, Linked, AllSound,
        MonstersAdvance,
        MembersFollow, JobDone, LeaveDone;
      ghost var before := Snap();
      NobodyDied(monsters, deaths, IDLE_DEED, sqrt);
      HandleDisconnect(session);
      PresenceKeepsStands(old(players), players);
      DisconnectFollows(before, Snap(), session, now, TheRules());
    }

    method PortalJob(session: SessionId, player: PlayerId, nextZone: nat, ok: bool, ghost now: real)
      requires Valid() && lastTick <= now
      modifies this`players, this`sessions, this`portalPending, this`sent, playerGrid
      ensures Valid() && Advanced(PortalSaved(session, player, nextZone, ok), now)
      ensures StandStill(old(players), players, old(players).Keys)
    {
      hide PositionsOf, AliveOf, PlayersIndexed, MonstersIndexed, Faithful, Replicates, View, Linked, AllSound,
        MonstersAdvance,
        MembersFollow, JobDone, PortalDone;
      ghost var before := Snap();
      NobodyDied(monsters, deaths, IDLE_DEED, sqrt);
      PortalAnswered(session, player, nextZone, ok);
      PresenceKeepsStands(old(players), players);
      PortalFollows(before, Snap(), session, player, nextZone, ok, now, TheRules());
    }

    method ClearJob(ghost now: real)
      requires Valid() && lastTick <= now
      modifies this`players, this`sessions, this`spawnPending, this`requests, playerGrid
      ensures Valid() && Advanced(ClearZone, now)
      ensures StandStill(old(players), players, old(players).Keys)
    {
      hide PositionsOf, AliveOf, PlayersIndexed, MonstersIndexed, Faithful, Replicates, View, Linked, AllSound,
        MonstersAdvance,
        MembersFollow, JobDone;
      ghost var before := Snap();
      NobodyDied(monsters, deaths, IDLE_DEED, sqrt);
      SaveAllAndClear();
      PresenceKeepsStands(old(players), players);
      ClearFollows(before, Snap(), now, TheRules());
    }

    method SpawnJob(session: SessionId, player: PlayerId, row: Option<PlayerState>, born: real, ghost now: real)
      requires Valid() && (row.Some? ==> 0 < player) && lastTick <= now
      modifies this`players, this`sessions, this`spawnPending, this`sent, this`lost, playerGrid
      ensures Valid() && Advanced(SpawnRow(session, player, row, born), now)
      ensures StandStill(old(players), players, old(players).Keys)
    {
      hide PositionsOf, AliveOf, PlayersIndexed, MonstersIndexed, Faithful, Replicates, View, Linked, AllSound,
        MonstersAdvance,
        MembersFollow, JobDone, EnterDone;
      ghost var before := Snap();
      NobodyDied(monsters, deaths, Deed(0, None, {session}), sqrt);
      SpawnLoaded(session, player, row, born);
      PresenceKeepsStands(old(players), players);
      SpawnFollows(before, Snap(), session, player, row, born, now, TheRules());
    }

    method CloseJob(ghost now: real)
      requires Valid() && lastTick <= now
      modifies this`closed
      ensures Valid() && Advanced(CloseZone, now)
    {
      hide PositionsOf, AliveOf, PlayersIndexed, MonstersIndexed, Faithful, Replicates, View, Linked, AllSound,
        MonstersAdvance,
        MembersFollow, JobDone;
      ghost var before := Snap();
      NobodyDied(monsters, deaths, IDLE_DEED, sqrt);
      Close();
      CloseFollows(before, Snap(), now, TheRules());
    }

    method RunJob(job: Job, now: real)
      requires Valid() && lastTick <= now && RowIsReal(job)
      modifies this, playerGrid, monsterGrid
      ensures Valid() && lastTick <= now && JobAdvances(old(Snap()), Snap(), TimedJob(job, now), TheRules())
      // A player whose portal save is under way, and who stays, changes place exactly when the job is its own request
      // to be revived, it is dead, and the zone has another place to put it.
      ensures OnlyMove(old(players), players, old(portalPending), old(Moved(job)))
    {
      hide PositionsOf, AliveOf, PlayersIndexed, MonstersIndexed, Faithful, Replicates, View, Linked, AllSound,
        MonstersAdvance,
        MembersFollow, JobDone, JobAdvances;
      match job
      case FromClient(session, packet) => PacketJob(session, packet, now);
      case Disconnected(session) => DisconnectJob(session, now);
      case SpawnRow(session, player, row, born) => SpawnJob(session, player, row, born, now);
      case PortalSaved(session, player, nextZone, ok) => PortalJob(session, player, nextZone, ok, now);
      case Tick => TickJob(now);
      case ClearZone => ClearJob(now);
      case CloseZone => CloseJob(now);
    }

    // Every run of jobs, in any order a client, the database and the clock may cause. The history is what the zone was
    // before the first job and after each.
    method RunJobs(jobs: seq<TimedJob>) returns (ghost history: seq<Snapshot>)
      requires Valid() && InOrder(lastTick, jobs) && forall i | 0 <= i < |jobs| :: RowIsReal(jobs[i].job)
      modifies this, playerGrid, monsterGrid
      ensures Valid() && IsHistory(history, jobs, TheRules()) && history[0] == old(Snap()) && history[|jobs|] == Snap()
      ensures forall p | p in players && players[p].session !in lost ::
                ClientOf(sent, players[p].session) == Picture(Positions(), Alive(), p, CellAt(players[p].state.pos))
      ensures forall s | s !in lost :: ClientOf(sent, s) != Broken
      ensures M.Consistent(Members())
    {
      history := [Snap()];
      for i := 0 to |jobs|
        invariant Valid() && InOrder(lastTick, jobs[i..])
        invariant |history| == i + 1 && history[0] == old(Snap()) && history[i] == Snap()
        invariant IsHistory(history, jobs[..i], TheRules())
      {
        NextInOrder(lastTick, jobs, i);
        RunJob(jobs[i].job, jobs[i].now);
        assert IsHistory(history + [Snap()], jobs[..i + 1], TheRules()) by {
          HistoryGrows(history, jobs, i, Snap(), TheRules());
        }
        history := history + [Snap()];
        LaterStart(lastTick, jobs[i].now, jobs[i + 1..]);
      }
      assert jobs[..|jobs|] == jobs;
      LinkedIsConsistent(Members(), players, sessions);
      EveryoneSees();
    }

    lemma EveryoneSees()
      requires Valid()
      ensures forall p | p in players && players[p].session !in lost ::
                ClientOf(sent, players[p].session) == Picture(Positions(), Alive(), p, CellAt(players[p].state.pos))
    {
      forall p | p in players && players[p].session !in lost
        ensures ClientOf(sent, players[p].session) == Picture(Positions(), Alive(), p, CellAt(players[p].state.pos))
      {
        assert sessions[players[p].session] == p;
      }
    }

    static lemma NextInOrder(start: real, jobs: seq<TimedJob>, i: nat)
      requires i < |jobs| && InOrder(start, jobs[i..])
      ensures start <= jobs[i].now && InOrder(jobs[i].now, jobs[i + 1..])
    {
      assert jobs[i..][0] == jobs[i] && jobs[i..][1..] == jobs[i + 1..];
    }

    static lemma LaterStart(start: real, now: real, jobs: seq<TimedJob>)
      requires start <= now && InOrder(now, jobs)
      ensures InOrder(start, jobs)
    {
    }
  }
}
