/** What the zone sends to its clients, and the picture of the world a client builds from it: the replica. */
module ClientView {
  import opened WorldTypes
  import opened AoiGrids

  datatype PlayerInfo = PlayerInfo(id: PlayerId, pos: Pos, hp: int, maxHp: int, mp: int, maxMp: int)
  datatype MonsterInfo = MonsterInfo(uid: MonsterId, pos: Pos, hp: int, maxHp: int)
  datatype SkillHit = SkillHit(uid: MonsterId, damage: int, hp: int)

  datatype FailReason = InvalidSkill | Cooldown | NotEnoughCost | InvalidTarget | OutOfRange | CasterDead

  datatype Message =
    | EnterGame(me: PlayerInfo, exp: nat)
    | Spawn(infos: seq<PlayerInfo>)
    | Despawn(id: PlayerId)
    | MonsterSpawn(monsters: seq<MonsterInfo>)
    | MonsterDespawn(uid: MonsterId)
    | Move(id: PlayerId, pos: Pos)
    | MonsterMove(uid: MonsterId, pos: Pos)
    | Revive(id: PlayerId, pos: Pos, hp: int)
    // The rest moves nothing and changes no visibility.
    | PlayerHit(monster: MonsterId, id: PlayerId, damage: int, hp: int)
    | MonsterHit(id: PlayerId, monster: MonsterId, damage: int, hp: int)
    | MonsterHp(uid: MonsterId, hp: int)
    | SkillCast(id: PlayerId, skill: nat, hp: int, mp: int, hits: seq<SkillHit>)
    | SkillFail(skill: nat, reason: FailReason)
    | PlayerStat(id: PlayerId, hp: int, maxHp: int, mp: int, maxMp: int)
    | Exp(gained: nat, total: nat)
    | ZoneLeaveCompleted(id: PlayerId, nextZone: nat)

  // A client's picture. Broken marks a message that made no sense to it, for good: a spawn of something it already
  // shows, a despawn or move of something it does not show, or world news before it has entered.
  datatype Client =
    | Outside
    | InZone(me: PlayerId, players: map<PlayerId, Pos>, monsters: map<MonsterId, Pos>)
    | Broken

  function AddPlayers(c: Client, infos: seq<PlayerInfo>): Client {
    if infos == [] then c
    else
      var before, last := AddPlayers(c, infos[..|infos| - 1]), infos[|infos| - 1];
      if before.InZone? && last.id != before.me && last.id !in before.players
      then before.(players := before.players[last.id := last.pos]) else Broken
  }

  function AddMonsters(c: Client, infos: seq<MonsterInfo>): Client {
    if infos == [] then c
    else
      var before, last := AddMonsters(c, infos[..|infos| - 1]), infos[|infos| - 1];
      if before.InZone? && last.uid !in before.monsters
      then before.(monsters := before.monsters[last.uid := last.pos]) else Broken
  }

  function MovePlayer(c: Client, id: PlayerId, pos: Pos): Client {
    if !c.InZone? then Broken
    else if id == c.me then c
    else if id in c.players then c.(players := c.players[id := pos])
    else Broken
  }

  function Receive(c: Client, msg: Message): Client {
    match msg
    case EnterGame(me, _) => if c.Broken? then Broken else InZone(me.id, map[], map[])
    case Spawn(infos) => if c.InZone? then AddPlayers(c, infos) else Broken
    case Despawn(id) => if c.InZone? && id in c.players then c.(players := c.players - {id}) else Broken
    case MonsterSpawn(infos) => if c.InZone? then AddMonsters(c, infos) else Broken
    case MonsterDespawn(uid) => if c.InZone? && uid in c.monsters then c.(monsters := c.monsters - {uid}) else Broken
    case Move(id, pos) => MovePlayer(c, id, pos)
    case MonsterMove(uid, pos) =>
      if c.InZone? && uid in c.monsters then c.(monsters := c.monsters[uid := pos]) else Broken
    case Revive(id, pos, _) => MovePlayer(c, id, pos)
    case _ => c
  }

  // The message makes no picture change.
  predicate IsQuiet(msg: Message) {
    || msg.PlayerHit? || msg.MonsterHit? || msg.MonsterHp? || msg.SkillCast? || msg.SkillFail? || msg.PlayerStat?
    || msg.Exp? || msg.ZoneLeaveCompleted?
  }

  datatype Send = Send(to: SessionId, msg: Message)

  // What session s has been sent, in order.
  ghost function Trace(sent: seq<Send>, s: SessionId): seq<Message> {
    if sent == [] then []
    else
      var before, last := Trace(sent[..|sent| - 1], s), sent[|sent| - 1];
      if last.to == s then before + [last.msg] else before
  }

  ghost function Fold(msgs: seq<Message>): Client {
    if msgs == [] then Outside else Receive(Fold(msgs[..|msgs| - 1]), msgs[|msgs| - 1])
  }

  // The picture session s has built from everything sent so far.
  ghost function ClientOf(sent: seq<Send>, s: SessionId): Client {
    Fold(Trace(sent, s))
  }

  // A picture that has gone wrong stays wrong, whatever the client is sent afterwards.
  lemma {:induction false} NothingMendsAPicture(msgs: seq<Message>, more: seq<Message>)
    requires Fold(msgs).Broken?
    ensures Fold(msgs + more).Broken?
    decreases |more|
  {
    if more == [] {
      assert msgs + more == msgs;
    } else {
      NothingMendsAPicture(msgs, more[..|more| - 1]);
      assert (msgs + more)[..|msgs + more| - 1] == msgs + more[..|more| - 1];
    }
  }

  lemma SentOne(sent: seq<Send>, to: SessionId, msg: Message, s: SessionId)
    ensures Trace(sent + [Send(to, msg)], s) == if s == to then Trace(sent, s) + [msg] else Trace(sent, s)
    ensures ClientOf(sent + [Send(to, msg)], s)
         == if s == to then Receive(ClientOf(sent, s), msg) else ClientOf(sent, s)
  {
    assert (sent + [Send(to, msg)])[..|sent|] == sent;
    assert (Trace(sent, s) + [msg])[..|Trace(sent, s)|] == Trace(sent, s);
  }

  // The first thing sent after sent0 is msg, to session s.
  predicate BeginsWith(sent0: seq<Send>, sent1: seq<Send>, s: SessionId, msg: Message) {
    sent0 < sent1 && sent1[|sent0|] == Send(s, msg)
  }

  // Going from one trace to the other, every session of a player in `who` was sent msg once, and nobody else anything.
  ghost predicate Told(
    sent0: seq<Send>, sent1: seq<Send>, sessions: map<SessionId, PlayerId>, who: set<PlayerId>, msg: Message)
  {
    forall s :: Trace(sent1, s) == Trace(sent0, s) + if s in sessions && sessions[s] in who then [msg] else []
  }

  lemma ToldClient(
    sent0: seq<Send>, sent1: seq<Send>, sessions: map<SessionId, PlayerId>, who: set<PlayerId>, msg: Message,
    s: SessionId)
    requires Told(sent0, sent1, sessions, who, msg)
    ensures ClientOf(sent1, s)
         == if s in sessions && sessions[s] in who then Receive(ClientOf(sent0, s), msg) else ClientOf(sent0, s)
  {
    assert Trace(sent1, s) == Trace(sent0, s) + if s in sessions && sessions[s] in who then [msg] else [];
    assert Trace(sent0, s) + [] == Trace(sent0, s);
    assert (Trace(sent0, s) + [msg])[..|Trace(sent0, s)|] == Trace(sent0, s);
  }

  // What clients are told about somebody's hit points, skills and stats.
  predicate IsNews(msg: Message) {
    msg.PlayerHit? || msg.MonsterHit? || msg.MonsterHp? || msg.SkillCast? || msg.PlayerStat?
  }

  // How often session s has been sent msg.
  ghost function Heard(sent: seq<Send>, s: SessionId, msg: Message): nat {
    multiset(Trace(sent, s))[msg]
  }

  // The only news from one trace to the other is msg, and everybody in `who` was sent it once, nobody else.
  ghost predicate News(
    sent0: seq<Send>, sent1: seq<Send>, sessions: map<SessionId, PlayerId>, who: set<PlayerId>, msg: Message)
  {
    forall s, m | IsNews(m) ::
      Heard(sent1, s, m) == Heard(sent0, s, m) + if m == msg && s in sessions && sessions[s] in who then 1 else 0
  }

  ghost predicate NoNews(sent0: seq<Send>, sent1: seq<Send>) {
    forall s, m | IsNews(m) :: Heard(sent1, s, m) == Heard(sent0, s, m)
  }

  lemma NothingTold(sent: seq<Send>)
    ensures NoNews(sent, sent)
  {
  }

  lemma ToldIsNews(
    sent0: seq<Send>, sent1: seq<Send>, sessions: map<SessionId, PlayerId>, who: set<PlayerId>, msg: Message)
    requires Told(sent0, sent1, sessions, who, msg)
    ensures News(sent0, sent1, sessions, who, msg)
    ensures !IsNews(msg) ==> NoNews(sent0, sent1)
  {
    forall s, m
      ensures Heard(sent1, s, m) == Heard(sent0, s, m) + if m == msg && s in sessions && sessions[s] in who then 1
            else 0
    {
      var more := if s in sessions && sessions[s] in who then [msg] else [];
      assert Trace(sent1, s) == Trace(sent0, s) + more;
      assert multiset(more)[m] == if m == msg && s in sessions && sessions[s] in who then 1 else 0;
    }
  }

  lemma SentIsNoNews(sent: seq<Send>, to: SessionId, msg: Message)
    requires !IsNews(msg)
    ensures NoNews(sent, sent + [Send(to, msg)])
  {
    forall s, m | IsNews(m) ensures Heard(sent + [Send(to, msg)], s, m) == Heard(sent, s, m) {
      SentOne(sent, to, msg, s);
      assert multiset([msg])[m] == 0;
    }
  }

  lemma NewsThenNone(
    sent0: seq<Send>, sent1: seq<Send>, sent2: seq<Send>, sessions: map<SessionId, PlayerId>, who: set<PlayerId>,
    msg: Message)
    requires News(sent0, sent1, sessions, who, msg) && NoNews(sent1, sent2)
    ensures News(sent0, sent2, sessions, who, msg)
  {
    forall s, m | IsNews(m)
      ensures Heard(sent2, s, m) == Heard(sent0, s, m) + if m == msg && s in sessions && sessions[s] in who then 1
            else 0
    {
      assert Heard(sent2, s, m) == Heard(sent1, s, m);
    }
  }

  lemma NoneThenNews(
    sent0: seq<Send>, sent1: seq<Send>, sent2: seq<Send>, sessions: map<SessionId, PlayerId>, who: set<PlayerId>,
    msg: Message)
    requires NoNews(sent0, sent1) && News(sent1, sent2, sessions, who, msg)
    ensures News(sent0, sent2, sessions, who, msg)
  {
    forall s, m | IsNews(m)
      ensures Heard(sent2, s, m) == Heard(sent0, s, m) + if m == msg && s in sessions && sessions[s] in who then 1
            else 0
    {
      assert Heard(sent1, s, m) == Heard(sent0, s, m);
    }
  }

  lemma NoNewsTwice(sent0: seq<Send>, sent1: seq<Send>, sent2: seq<Send>)
    requires NoNews(sent0, sent1) && NoNews(sent1, sent2)
    ensures NoNews(sent0, sent2)
  {
    forall s, m | IsNews(m) ensures Heard(sent2, s, m) == Heard(sent0, s, m) {
      assert Heard(sent2, s, m) == Heard(sent1, s, m);
    }
  }

  // It is the last thing each of them heard.
  ghost predicate LastHeard(sent: seq<Send>, sessions: map<SessionId, PlayerId>, who: set<PlayerId>, msg: Message) {
    forall s | s in sessions && sessions[s] in who :: var t := Trace(sent, s); t != [] && t[|t| - 1] == msg
  }

  lemma ToldIsLastHeard(
    sent0: seq<Send>, sent1: seq<Send>, sessions: map<SessionId, PlayerId>, who: set<PlayerId>, msg: Message)
    requires Told(sent0, sent1, sessions, who, msg)
    ensures LastHeard(sent1, sessions, who, msg)
  {
    forall s | s in sessions && sessions[s] in who ensures var t := Trace(sent1, s); t != [] && t[|t| - 1] == msg {
      assert Trace(sent1, s) == Trace(sent0, s) + [msg];
    }
  }

  // The list names exactly the players of `seen`, each once, where it stands.
  ghost predicate Lists(infos: seq<PlayerInfo>, seen: map<PlayerId, Pos>) {
    && (forall i | 0 <= i < |infos| :: infos[i].id in seen && seen[infos[i].id] == infos[i].pos)
    && (forall i, j | 0 <= i < j < |infos| :: infos[i].id != infos[j].id)
    && (forall q | q in seen :: exists i | 0 <= i < |infos| :: infos[i].id == q)
  }

  ghost predicate ListsMonsters(infos: seq<MonsterInfo>, seen: map<MonsterId, Pos>) {
    && (forall i | 0 <= i < |infos| :: infos[i].uid in seen && seen[infos[i].uid] == infos[i].pos)
    && (forall i, j | 0 <= i < j < |infos| :: infos[i].uid != infos[j].uid)
    && (forall q | q in seen :: exists i | 0 <= i < |infos| :: infos[i].uid == q)
  }

  // A spawn list of new, distinct players adds exactly them.
  lemma {:induction false} SpawnAdds(c: Client, infos: seq<PlayerInfo>, seen: map<PlayerId, Pos>)
    requires c.InZone?
    requires forall i | 0 <= i < |infos| :: infos[i].id in seen && seen[infos[i].id] == infos[i].pos
    requires forall i, j | 0 <= i < j < |infos| :: infos[i].id != infos[j].id
    requires forall q | q in seen :: q != c.me && q !in c.players
    ensures AddPlayers(c, infos).InZone?
    ensures forall q | q in seen :: q in AddPlayers(c, infos).players <==> exists i | 0 <= i < |infos| ::
          infos[i].id == q
    ensures forall q | q !in seen :: q in AddPlayers(c, infos).players <==> q in c.players
    ensures forall q | q in AddPlayers(c, infos).players ::
              AddPlayers(c, infos).players[q] == if q in seen then seen[q] else c.players[q]
    ensures AddPlayers(c, infos) == c.(players := AddPlayers(c, infos).players)
  {
    if infos != [] {
      var last := |infos| - 1;
      SpawnAdds(c, infos[..last], seen);
      assert infos[last].id !in AddPlayers(c, infos[..last]).players;
      forall q | q in seen
        ensures q in AddPlayers(c, infos).players <==> exists i | 0 <= i < |infos| :: infos[i].id == q
      {
        if exists i | 0 <= i < last :: infos[..last][i].id == q {
          var i :| 0 <= i < last && infos[..last][i].id == q;
          assert infos[i].id == q;
        }
      }
    }
  }

  lemma SpawnShows(c: Client, infos: seq<PlayerInfo>, seen: map<PlayerId, Pos>)
    requires c.InZone?
    requires Lists(infos, seen)
    requires forall q | q in seen :: q != c.me && q !in c.players
    ensures Receive(c, Spawn(infos)) == c.(players := c.players + seen)
  {
    SpawnAdds(c, infos, seen);
    assert AddPlayers(c, infos).players == c.players + seen;
  }

  lemma {:induction false} MonsterSpawnAdds(c: Client, infos: seq<MonsterInfo>, seen: map<MonsterId, Pos>)
    requires c.InZone?
    requires forall i | 0 <= i < |infos| :: infos[i].uid in seen && seen[infos[i].uid] == infos[i].pos
    requires forall i, j | 0 <= i < j < |infos| :: infos[i].uid != infos[j].uid
    requires forall q | q in seen :: q !in c.monsters
    ensures AddMonsters(c, infos).InZone?
    ensures forall q | q in seen :: q in AddMonsters(c, infos).monsters <==> exists i | 0 <= i < |infos| ::
          infos[i].uid == q
    ensures forall q | q !in seen :: q in AddMonsters(c, infos).monsters <==> q in c.monsters
    ensures forall q | q in AddMonsters(c, infos).monsters ::
              AddMonsters(c, infos).monsters[q] == if q in seen then seen[q] else c.monsters[q]
    ensures AddMonsters(c, infos) == c.(monsters := AddMonsters(c, infos).monsters)
  {
    if infos != [] {
      var last := |infos| - 1;
      MonsterSpawnAdds(c, infos[..last], seen);
      assert infos[last].uid !in AddMonsters(c, infos[..last]).monsters;
      forall q | q in seen
        ensures q in AddMonsters(c, infos).monsters <==> exists i | 0 <= i < |infos| :: infos[i].uid == q
      {
        if exists i | 0 <= i < last :: infos[..last][i].uid == q {
          var i :| 0 <= i < last && infos[..last][i].uid == q;
          assert infos[i].uid == q;
        }
      }
    }
  }

  lemma MonsterSpawnShows(c: Client, infos: seq<MonsterInfo>, seen: map<MonsterId, Pos>)
    requires c.InZone?
    requires ListsMonsters(infos, seen)
    requires forall q | q in seen :: q !in c.monsters
    ensures Receive(c, MonsterSpawn(infos)) == c.(monsters := c.monsters + seen)
  {
    MonsterSpawnAdds(c, infos, seen);
    assert AddMonsters(c, infos).monsters == c.monsters + seen;
  }

  // One more of a list of targets has been told.
  lemma ToldOneMore(
    sent0: seq<Send>, sent1: seq<Send>, sessions: map<SessionId, PlayerId>, targets: seq<PlayerId>, i: nat,
    session: SessionId, msg: Message)
    requires i < |targets| && Distinct(targets)
    requires session in sessions && sessions[session] == targets[i]
    requires forall s | s in sessions && sessions[s] == targets[i] :: s == session
    requires Told(sent0, sent1, sessions, ToSet(targets[..i]), msg)
    ensures Told(sent0, sent1 + [Send(session, msg)], sessions, ToSet(targets[..i + 1]), msg)
  {
    var sent2, before, now := sent1 + [Send(session, msg)], ToSet(targets[..i]), ToSet(targets[..i + 1]);
    assert targets[..i + 1] == targets[..i] + [targets[i]];
    assert now == before + {targets[i]};
    assert targets[i] !in before;
    forall s ensures Trace(sent2, s) == Trace(sent0, s) + if s in sessions && sessions[s] in now then [msg] else [] {
      SentOne(sent1, session, msg, s);
      assert Trace(sent1, s) == Trace(sent0, s) + if s in sessions && sessions[s] in before then [msg] else [];
      if s == session {
        assert Trace(sent0, s) + [] + [msg] == Trace(sent0, s) + [msg];
      }
    }
  }

  // ----------------------------------------------------------------------------------------------- what should be seen

  // What a player standing in cell `at` must see: everybody else, and every living monster, in the 3x3 cells around.
  ghost function Sight(positions: map<PlayerId, Pos>, me: PlayerId, at: Cell): map<PlayerId, Pos> {
    map q | q in positions && q != me && IsNear(CellAt(positions[q]), at) :: positions[q]
  }

  ghost function MonsterSight(alive: map<MonsterId, Pos>, at: Cell): map<MonsterId, Pos> {
    map m | m in alive && IsNear(CellAt(alive[m]), at) :: alive[m]
  }

  ghost function Picture(positions: map<PlayerId, Pos>, alive: map<MonsterId, Pos>, me: PlayerId, at: Cell): Client {
    InZone(me, Sight(positions, me, at), MonsterSight(alive, at))
  }

  // The players of `positions` that a centre moving from one cell to another brings into view.
  ghost function Entering(positions: map<PlayerId, Pos>, me: PlayerId, from: Cell, to: Cell): map<PlayerId, Pos> {
    map q | q in positions && q != me && IsNear(CellAt(positions[q]), to) && !IsNear(CellAt(positions[q]), from)
      :: positions[q]
  }

  ghost function MonstersEntering(alive: map<MonsterId, Pos>, from: Cell, to: Cell): map<MonsterId, Pos> {
    map m | m in alive && IsNear(CellAt(alive[m]), to) && !IsNear(CellAt(alive[m]), from) :: alive[m]
  }

  // The 3x3 difference is exact: what came into view plus what stayed, minus what went out, is the new view.
  lemma DifferenceIsExact(positions: map<PlayerId, Pos>, alive: map<MonsterId, Pos>, me: PlayerId, from: Cell, to: Cell)
    ensures Sight(positions, me, to)
         == Sight(positions, me, from) + Entering(positions, me, from, to) - Entering(positions, me, to, from).Keys
    ensures MonsterSight(alive, to)
         == MonsterSight(alive, from) + MonstersEntering(alive, from, to) - MonstersEntering(alive, to, from).Keys
  {
  }

  // How another client's picture follows a player that moves: spawned on coming into view, despawned on leaving it.
  function FollowCells(c: Client, before: bool, after: bool, info: PlayerInfo): Client {
    if before == after then c else if after then Receive(c, Spawn([info])) else Receive(c, Despawn(info.id))
  }

  lemma WatcherFollows(positions: map<PlayerId, Pos>, alive: map<MonsterId, Pos>, me: PlayerId, at: Cell,
      info: PlayerInfo)
    requires me != info.id && info.id in positions && me in positions
    ensures var near0, near1 := IsNear(CellAt(positions[info.id]), at), IsNear(CellAt(info.pos), at);
            var mid := FollowCells(Picture(positions, alive, me, at), near0, near1, info);
            && (near1 ==>
                  Receive(mid, Move(info.id, info.pos)) == Picture(positions[info.id := info.pos], alive, me, at))
            && (near1 ==> forall hp :: Receive(mid, Revive(info.id, info.pos, hp))
                                 == Picture(positions[info.id := info.pos], alive, me, at))
            && (!near1 ==> mid == Picture(positions[info.id := info.pos], alive, me, at))
  {
    var near0, near1 := IsNear(CellAt(positions[info.id]), at), IsNear(CellAt(info.pos), at);
    var mid := FollowCells(Picture(positions, alive, me, at), near0, near1, info);
    var target := Sight(positions[info.id := info.pos], me, at);
    if !near0 && near1 {
      assert [info][0].id == info.id;
      SpawnShows(Picture(positions, alive, me, at), [info], map[info.id := info.pos]);
    }
    if near1 {
      assert mid.InZone? && info.id in mid.players;
      assert mid.players[info.id := info.pos] == target;
    } else {
      assert mid.players == target;
    }
  }

  function FollowMonster(c: Client, before: bool, after: bool, info: MonsterInfo): Client {
    if before == after then c else if after then Receive(c, MonsterSpawn([info]))
      else Receive(c, MonsterDespawn(info.uid))
  }

  lemma WatcherFollowsMonster(positions: map<PlayerId, Pos>, alive: map<MonsterId, Pos>, me: PlayerId, at: Cell,
      info: MonsterInfo)
    requires info.uid in alive
    ensures var near0, near1 := IsNear(CellAt(alive[info.uid]), at), IsNear(CellAt(info.pos), at);
            var mid := FollowMonster(Picture(positions, alive, me, at), near0, near1, info);
            && (near1 ==>
                  Receive(mid, MonsterMove(info.uid, info.pos))
                  == Picture(positions, alive[info.uid := info.pos], me, at))
            && (!near1 ==> mid == Picture(positions, alive[info.uid := info.pos], me, at))
  {
    var near0, near1 := IsNear(CellAt(alive[info.uid]), at), IsNear(CellAt(info.pos), at);
    var mid := FollowMonster(Picture(positions, alive, me, at), near0, near1, info);
    var target := MonsterSight(alive[info.uid := info.pos], at);
    if !near0 && near1 {
      assert [info][0].uid == info.uid;
      MonsterSpawnShows(Picture(positions, alive, me, at), [info], map[info.uid := info.pos]);
    }
    if near1 {
      assert mid.InZone? && info.uid in mid.monsters;
      assert mid.monsters[info.uid := info.pos] == target;
    } else {
      assert mid.monsters == target;
    }
  }

  // A player or monster appears or disappears where it stands.
  lemma WatcherSeesArrival(positions: map<PlayerId, Pos>, alive: map<MonsterId, Pos>, me: PlayerId, at: Cell,
      info: PlayerInfo)
    requires me != info.id && info.id !in positions
    ensures Picture(positions[info.id := info.pos], alive, me, at)
         == if IsNear(CellAt(info.pos), at) then Receive(Picture(positions, alive, me, at), Spawn([info]))
            else Picture(positions, alive, me, at)
  {
    if IsNear(CellAt(info.pos), at) {
      assert [info][0].id == info.id;
      SpawnShows(Picture(positions, alive, me, at), [info], map[info.id := info.pos]);
    }
    assert Sight(positions[info.id := info.pos], me, at)
        == if IsNear(CellAt(info.pos), at) then Sight(positions, me, at) + map[info.id := info.pos]
          else Sight(positions, me, at);
  }

  lemma WatcherSeesDeparture(positions: map<PlayerId, Pos>, alive: map<MonsterId, Pos>, me: PlayerId, at: Cell,
      id: PlayerId)
    requires me != id && id in positions
    ensures Picture(positions - {id}, alive, me, at)
         == if IsNear(CellAt(positions[id]), at) then Receive(Picture(positions, alive, me, at), Despawn(id))
            else Picture(positions, alive, me, at)
  {
    assert Sight(positions - {id}, me, at)
        == if IsNear(CellAt(positions[id]), at) then Sight(positions, me, at) - {id} else Sight(positions, me, at);
  }

  lemma WatcherSeesRespawn(positions: map<PlayerId, Pos>, alive: map<MonsterId, Pos>, me: PlayerId, at: Cell,
      info: MonsterInfo)
    requires info.uid !in alive
    ensures Picture(positions, alive[info.uid := info.pos], me, at)
         == if IsNear(CellAt(info.pos), at) then Receive(Picture(positions, alive, me, at), MonsterSpawn([info]))
            else Picture(positions, alive, me, at)
  {
    if IsNear(CellAt(info.pos), at) {
      assert [info][0].uid == info.uid;
      MonsterSpawnShows(Picture(positions, alive, me, at), [info], map[info.uid := info.pos]);
    }
    assert MonsterSight(alive[info.uid := info.pos], at)
        == if IsNear(CellAt(info.pos), at) then MonsterSight(alive, at) + map[info.uid := info.pos]
          else MonsterSight(alive, at);
  }

  lemma WatcherSeesDeath(positions: map<PlayerId, Pos>, alive: map<MonsterId, Pos>, me: PlayerId, at: Cell,
      uid: MonsterId)
    requires uid in alive
    ensures Picture(positions, alive - {uid}, me, at)
         == if IsNear(CellAt(alive[uid]), at) then Receive(Picture(positions, alive, me, at), MonsterDespawn(uid))
            else Picture(positions, alive, me, at)
  {
    assert MonsterSight(alive - {uid}, at)
        == if IsNear(CellAt(alive[uid]), at) then MonsterSight(alive, at) - {uid} else MonsterSight(alive, at);
  }
}
