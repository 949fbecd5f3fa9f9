/** What a packet of a client and the turn of a monster come to, said of the zone before and after. */
module ZoneOutcomes {
  import opened Options
  import opened WorldTypes
  import opened Geometry
  import opened AoiGrids
  import opened ClientView
  import opened Replicas
  import opened ZoneData
  import opened ZoneTables
  import P = Players
  import B = Monsters

  // What a job finds and leaves, apart from its requests to the database.
  datatype Situation = Situation(
    players: map<PlayerId, P.PlayerRecord>, sessions: map<SessionId, PlayerId>, portalPending: set<PlayerId>,
    monsters: map<MonsterId, B.MonsterRecord>, deaths: seq<MonsterId>, sent: seq<Send>, lost: set<SessionId>)

  ghost function ViewOf(s: Situation): Scene {
    Scene(PositionsOf(s.players), AliveOf(s.monsters), s.sessions)
  }

  function FightOf(s: Situation): Fight {
    Fight(s.monsters, s.players, s.deaths)
  }

  // ------------------------------------------------------------------------------------------------ packets

  // In the zone and alive, and not leaving.
  predicate MayAct(players: map<PlayerId, P.PlayerRecord>, portalPending: set<PlayerId>, player: PlayerId) {
    player !in portalPending && player in players && !P.IsDead(players[player])
  }

  // A move is accepted or answered with the position the server holds; an accepted one is told to everybody around the
  // new place, and the mover's picture is right if and only if what came into view fits the two lists.
  ghost predicate MoveDone(
    a: Situation, b: Situation, player: PlayerId, target: Option<Pos>, now: real, sqrt: real -> real)
  {
    if !MayAct(a.players, a.portalPending, player) then b == a
    else
      var t := P.TryMove(a.players[player], target, now, MAX_MOVE_SPEED, sqrt);
      && b == a.(players := a.players[player := t.p], sent := b.sent, lost := b.lost)
      && if !t.ok then b.lost == a.lost && b.sent == a.sent + [Send(t.p.session, Move(player, t.p.state.pos))]
         else
           && Followed(a, b, player)
           && LastHeard(b.sent, b.sessions, Around(PositionsOf(b.players), CellAt(t.p.state.pos)) - {player},
                        Move(player, t.p.state.pos))
  }

  // The mover's client has followed it.
  ghost predicate Followed(a: Situation, b: Situation, player: PlayerId)
    requires player in a.players && player in b.players
  {
    MoverFollows(b.sent, ViewOf(b), player, b.players[player].session, CellAt(a.players[player].state.pos),
                 CellAt(b.players[player].state.pos), a.lost, b.lost)
  }

  // The dead rise at the spawn point with all their hit points, and everybody around it hears of that.
  ghost predicate ReviveDone(a: Situation, b: Situation, player: PlayerId, spawnPoint: Option<Pos>) {
    if player !in a.players || !P.IsDead(a.players[player]) || spawnPoint.None? then b == a
    else
      var p := P.Revive(a.players[player], spawnPoint.value, a.players[player].maxHp);
      && b == a.(players := a.players[player := p], sent := b.sent, lost := b.lost)
      && Followed(a, b, player)
      && LastHeard(b.sent, b.sessions, Around(PositionsOf(b.players), CellAt(p.state.pos)),
                   Revive(player, p.state.pos, p.state.hp))
  }

  // In the zone and alive, not leaving, a living monster that is not on its way home, in range, off cooldown.
  predicate AttackLands(
    players: map<PlayerId, P.PlayerRecord>, portalPending: set<PlayerId>, monsters: map<MonsterId, B.MonsterRecord>,
    attacker: PlayerId, atMonster: bool, uid: MonsterId, now: real)
  {
    && MayAct(players, portalPending, attacker) && atMonster && IsTargetable(monsters, uid)
    && IsWithin(monsters[uid].pos, players[attacker].state.pos, ATTACK_RANGE + ATTACK_RANGE_TOLERANCE)
    && P.TryUseAttack(players[attacker], now, ATTACK_COOLDOWN).ok
  }

  // One hit: the damage, the death if it was the last, the cooldown, the reward, and the news of it around the target.
  ghost predicate AttackDone(
    a: Situation, b: Situation, attacker: PlayerId, atMonster: bool, uid: MonsterId, now: real, roll: nat -> nat)
  {
    if !AttackLands(a.players, a.portalPending, a.monsters, attacker, atMonster, uid, now) then b == a
    else
      var h := B.Attacked(a.monsters[uid], ATTACK_DAMAGE, attacker);
      var p := P.TryUseAttack(a.players[attacker], now, ATTACK_COOLDOWN).p;
      && b == a.(monsters := a.monsters[uid := B.Survived(h, now)],
                 deaths := a.deaths + (if h.hp <= 0 then [uid] else []),
                 players := a.players[attacker := if h.hp <= 0 then P.Rewarded(p, roll(|a.deaths|)) else p],
                 sent := b.sent)
      && News(a.sent, b.sent, a.sessions, Around(PositionsOf(b.players), CellAt(h.pos)),
              MonsterHit(attacker, uid, B.TakeDamage(a.monsters[uid], ATTACK_DAMAGE).applied, h.hp))
  }

  // The target named by the client, checked in the source's order: kind, existence and state, range.
  function TargetFailure(
    players: map<PlayerId, P.PlayerRecord>, monsters: map<MonsterId, B.MonsterRecord>, caster: PlayerId,
    skill: SkillData, atMonster: bool, uid: MonsterId): Option<FailReason>
    requires caster in players
  {
    if !atMonster || !IsTargetable(monsters, uid) then Some(InvalidTarget)
    else if !IsWithin(monsters[uid].pos, players[caster].state.pos, skill.range + ATTACK_RANGE_TOLERANCE)
      then Some(OutOfRange)
    else None
  }

  function CastFailure(
    players: map<PlayerId, P.PlayerRecord>, monsters: map<MonsterId, B.MonsterRecord>, skills: map<nat, SkillData>,
    caster: PlayerId, id: nat, atMonster: bool, uid: MonsterId, now: real): Option<FailReason>
    requires caster in players
  {
    var p := players[caster];
    if P.IsDead(p) then Some(CasterDead)
    else if id !in skills then Some(InvalidSkill)
    else if !P.SkillReady(p, id, now) then Some(Cooldown)
    else if !P.CanPay(p, skills[id].costType, skills[id].cost) then Some(NotEnoughCost)
    else match skills[id].target
      case Single => TargetFailure(players, monsters, caster, skills[id], atMonster, uid)
      case TargetArea => TargetFailure(players, monsters, caster, skills[id], atMonster, uid)
      case SelfArea => None
      case NoTarget => Some(InvalidSkill)
  }

  // For which reason a cast fails, if it does: the first of its checks that it does not pass.
  lemma CastFailsExactly(
    players: map<PlayerId, P.PlayerRecord>, monsters: map<MonsterId, B.MonsterRecord>, skills: map<nat, SkillData>,
    caster: PlayerId, id: nat, atMonster: bool, uid: MonsterId, now: real)
    requires caster in players
    ensures var p, failure := players[caster], CastFailure(players, monsters, skills, caster, id, atMonster, uid, now);
            var affordable := p.state.hp > 0 && id in skills && P.SkillReady(p, id, now)
              && P.CanPay(p, skills[id].costType, skills[id].cost);
            var aims := affordable && (skills[id].target.Single? || skills[id].target.TargetArea?);
            var hits := atMonster && IsTargetable(monsters, uid);
            && (failure == Some(CasterDead) <==> p.state.hp <= 0)
            && (failure == Some(InvalidSkill) <==>
                p.state.hp > 0 && (id !in skills || (affordable && skills[id].target.NoTarget?)))
            && (failure == Some(Cooldown) <==> p.state.hp > 0 && id in skills && !P.SkillReady(p, id, now))
            && (failure == Some(NotEnoughCost) <==>
                p.state.hp > 0 && id in skills && P.SkillReady(p, id, now) && !affordable)
            && (failure == Some(InvalidTarget) <==> aims && !hits)
            && (failure == Some(OutOfRange) <==>
                aims && hits && !IsWithin(monsters[uid].pos, p.state.pos, skills[id].range + 1.0))
            && (failure == None <==>
                && affordable
                && (skills[id].target.SelfArea?
                    || (aims && hits && IsWithin(monsters[uid].pos, p.state.pos, skills[id].range + 1.0))))
  {
    hide IsWithin, P.SkillReady, P.CanPay, IsTargetable;
  }

  // A cast that fails is told to its caster; one that does not is paid for, strikes its targets once each, and is told
  // around the target, or around the caster when it has none.
  ghost predicate SkillDone(
    a: Situation, b: Situation, caster: PlayerId, skills: map<nat, SkillData>, id: nat, atMonster: bool,
    uid: MonsterId, targets: seq<MonsterId>, now: real, roll: nat -> nat)
  {
    if caster !in a.players || caster in a.portalPending then b == a
    else
      var failure := CastFailure(a.players, a.monsters, skills, caster, id, atMonster, uid, now);
      if failure.Some? then b == a.(sent := a.sent + [Send(a.players[caster].session, SkillFail(id, failure.value))])
      else
        && id in skills && (!skills[id].target.SelfArea? ==> uid in a.monsters)
        && AreTargets(a.monsters, a.players[caster].state.pos, skills[id], uid, targets)
        && b == a.(monsters := b.monsters, players := b.players, deaths := b.deaths, sent := b.sent)
        && CastDone(FightOf(a), FightOf(b), caster, skills[id], id, targets, now, roll)
        && CastNews(a.sent, b.sent, a.sessions, PositionsOf(b.players), FightOf(a), caster, skills[id], id,
                    if skills[id].target.SelfArea? then None else Some(uid), targets, now)
  }

  // A hit carries the monsters on, and leaves everybody where they stand.
  lemma AttackCarries(
    a: Situation, b: Situation, attacker: PlayerId, atMonster: bool, uid: MonsterId, now: real, roll: nat -> nat,
    deed: Deed, sqrt: real -> real)
    requires IsSqrt(sqrt) && deed.time.None? && deed.damage == ATTACK_DAMAGE
    requires forall u | u in a.monsters :: B.Sound(a.monsters[u])
    requires AttackDone(a, b, attacker, atMonster, uid, now, roll)
    ensures a.deaths <= b.deaths && MonstersAdvance(a.monsters, b.monsters, b.deaths[|a.deaths|..], deed, sqrt)
    ensures SameStands(a.players, b.players)
  {
    hide News, MonstersAdvance;
    if AttackLands(a.players, a.portalPending, a.monsters, attacker, atMonster, uid, now) {
      UpdateKeepsStands(a.players, attacker, b.players[attacker]);
      AttackKills(a.monsters, b.monsters, a.deaths, b.deaths, uid, ATTACK_DAMAGE, attacker, now, deed, sqrt);
    } else {
      NobodyDied(a.monsters, a.deaths, deed, sqrt);
    }
  }

  // So does a cast.
  lemma SkillCarries(
    a: Situation, b: Situation, caster: PlayerId, skills: map<nat, SkillData>, id: nat, atMonster: bool,
    uid: MonsterId, targets: seq<MonsterId>, now: real, roll: nat -> nat, deed: Deed, sqrt: real -> real)
    requires IsSqrt(sqrt) && deed.time.None? && (id in skills ==> deed.damage == skills[id].damage)
    requires forall u | u in a.monsters :: B.Sound(a.monsters[u])
    requires SkillDone(a, b, caster, skills, id, atMonster, uid, targets, now, roll)
    ensures a.deaths <= b.deaths && MonstersAdvance(a.monsters, b.monsters, b.deaths[|a.deaths|..], deed, sqrt)
    ensures SameStands(a.players, b.players)
  {
    hide CastNews, MonstersAdvance, CastDone, AreNearest, B.Sound;
    if caster !in a.players || caster in a.portalPending
       || CastFailure(a.players, a.monsters, skills, caster, id, atMonster, uid, now).Some?
    {
      NobodyDied(a.monsters, a.deaths, deed, sqrt);
    } else {
      AreTargetable(a.monsters, a.players[caster].state.pos, skills[id], uid, targets);
      CastKills(FightOf(a), FightOf(b), caster, skills[id], id, targets, now, roll, deed, sqrt);
      CastKeepsStands(FightOf(a), FightOf(b), caster, skills[id], id, targets, now, roll);
    }
  }

  // ------------------------------------------------------------------------------------------------ turns

  // What the turn of a monster comes to in a tick of dt seconds. An idle monster looks for somebody to go for; one that
  // chases goes on to whom it goes for and may strike; one on its way home goes on; the dead may rise.
  ghost predicate TurnDone(
    a: Situation, b: Situation, uid: MonsterId, target: Option<PlayerId>, dt: real, now: real, sqrt: real -> real)
    requires IsSqrt(sqrt) && uid in a.monsters
  {
    var m := a.monsters[uid];
    && b == a.(monsters := b.monsters, players := b.players, sent := b.sent)
    && match m.phase
       case Dead => RiseDone(a, b, uid, now)
       case Idle => LookDone(a, b, uid, target)
       case Chase => ChaseDone(a, b, uid, target, B.StepOf(m, dt), now, sqrt)
       case Return =>
         var n := B.ReturnTick(m, B.StepOf(m, dt), sqrt);
         && b.monsters == a.monsters[uid := n] && b.players == a.players
         && ArrivalNews(a.sent, b.sent, a.sessions, PositionsOf(a.players), uid, m, n)
  }

  ghost predicate RiseDone(a: Situation, b: Situation, uid: MonsterId, now: real)
    requires uid in a.monsters
  {
    if !B.CanRespawn(a.monsters[uid], now) then b == a
    else
      var m := B.Respawn(a.monsters[uid]);
      && b == a.(monsters := a.monsters[uid := m], sent := b.sent)
      && Told(a.sent, b.sent, a.sessions, Around(PositionsOf(a.players), CellAt(m.spawn)),
              MonsterSpawn([MonsterInfoOf(uid, m)]))
  }

  ghost predicate LookDone(a: Situation, b: Situation, uid: MonsterId, target: Option<PlayerId>)
    requires uid in a.monsters
  {
    var m := a.monsters[uid];
    && IsNearest(a.players, a.portalPending, m.pos, m.data.aggroRange, target)
    && b == if target.None? then a else a.(monsters := a.monsters[uid := B.StartChase(m, target.value)])
  }

  ghost predicate ChaseDone(
    a: Situation, b: Situation, uid: MonsterId, target: Option<PlayerId>, step: real, now: real, sqrt: real -> real)
    requires IsSqrt(sqrt) && uid in a.monsters
  {
    && IsTarget(a.players, a.portalPending, a.monsters[uid], target)
    && var r := B.ChaseTick(a.monsters[uid], PlaceOf(a.players, target), step, now, MONSTER_ATTACK_COOLDOWN, sqrt);
       && b.monsters == a.monsters[uid := r.m]
       && if !r.moved then b.players == a.players && NoNews(a.sent, b.sent)
          else
            && target.Some?
            && var h := P.TakeDamage(a.players[target.value], r.m.data.attack);
               && b.players == a.players[target.value := h.p]
               && StrikeNews(a.sent, b.sent, a.sessions, PositionsOf(b.players), true, uid, target.value, h.p,
                             h.applied)
  }
  // Whose turn it was, and whom the monster went for.
  datatype Turn = Turn(uid: MonsterId, target: Option<PlayerId>)

  // The zone before the first turn and after each.
  ghost predicate AllTurns(rounds: seq<Situation>, turns: seq<Turn>, dt: real, now: real, sqrt: real -> real)
    requires IsSqrt(sqrt)
  {
    && |rounds| == |turns| + 1
    && forall i | 0 <= i < |turns| ::
         && turns[i].uid in rounds[i].monsters
         && TurnDone(rounds[i], rounds[i + 1], turns[i].uid, turns[i].target, dt, now, sqrt)
  }

  // Every one of them has had a turn, once, and nobody else.
  ghost predicate EachOnce(turns: seq<Turn>, who: set<MonsterId>) {
    && (forall i | 0 <= i < |turns| :: turns[i].uid in who)
    && (forall i, j | 0 <= i < j < |turns| :: turns[i].uid != turns[j].uid)
    && forall u | u in who :: exists i | 0 <= i < |turns| :: turns[i].uid == u
  }

  lemma NoTurns(a: Situation, dt: real, now: real, sqrt: real -> real)
    requires IsSqrt(sqrt)
    ensures AllTurns([a], [], dt, now, sqrt) && EachOnce([], {})
  {
  }

  lemma TurnsGrow(
    rounds: seq<Situation>, turns: seq<Turn>, done: set<MonsterId>, next: Situation, turn: Turn, dt: real, now: real,
    sqrt: real -> real)
    requires IsSqrt(sqrt) && AllTurns(rounds, turns, dt, now, sqrt) && EachOnce(turns, done) && turn.uid !in done
    requires turn.uid in rounds[|turns|].monsters
    requires TurnDone(rounds[|turns|], next, turn.uid, turn.target, dt, now, sqrt)
    ensures AllTurns(rounds + [next], turns + [turn], dt, now, sqrt)
    ensures EachOnce(turns + [turn], done + {turn.uid})
  {
    hide TurnDone;
    var longer := turns + [turn];
    forall u | u in done + {turn.uid} ensures exists i | 0 <= i < |longer| :: longer[i].uid == u {
      if u == turn.uid {
        assert longer[|turns|].uid == u;
      } else {
        var i :| 0 <= i < |turns| && turns[i].uid == u;
        assert longer[i].uid == u;
      }
    }
  }

  // A turn ticks its own monster, and leaves everybody where they stand.
  lemma TurnTicks(
    a: Situation, b: Situation, uid: MonsterId, target: Option<PlayerId>, dt: real, now: real, sqrt: real -> real)
    requires IsSqrt(sqrt) && uid in a.monsters && TurnDone(a, b, uid, target, dt, now, sqrt)
    ensures uid in b.monsters && b.monsters == a.monsters[uid := b.monsters[uid]]
    ensures B.Ticked(a.monsters[uid], b.monsters[uid], B.StepOf(a.monsters[uid], dt), now, MONSTER_ATTACK_COOLDOWN,
                     sqrt)
    ensures SameStands(a.players, b.players)
  {
    hide StrikeNews, ArrivalNews, NoNews, IsNearest, Told, B.ChaseTick, B.ReturnTick;
    var m := a.monsters[uid];
    if m.phase.Idle? {
      B.IdleTicked(m, if target.Some? then target.value else 0, B.StepOf(m, dt), now, MONSTER_ATTACK_COOLDOWN, sqrt);
    } else if m.phase.Chase? {
      B.ChaseTicked(m, PlaceOf(a.players, target), B.StepOf(m, dt), now, MONSTER_ATTACK_COOLDOWN, sqrt);
    }
  }

  // What is due when the monsters have finished: regeneration with its news, and saving, which only marks what is
  // saved.
  ghost predicate TimersDone(
    a: Situation, b: Situation, fit: map<PlayerId, P.PlayerRecord>, timers: Timers, dt: real)
  {
    && b == a.(players := b.players, sent := b.sent)
    && Regenerated(a.players, fit, a.portalPending, timers.regen + dt)
    && (if timers.regen + dt < REGEN_INTERVAL then b.sent == a.sent
        else RegenNews(a.sent, b.sent, a.sessions, a.players, a.players.Keys - a.portalPending))
    && Saved(fit, b.players, a.portalPending, timers.slice, timers.save + dt)
  }

  // ------------------------------------------------------------------------------------------------ coming and going

  // The newcomer is in the tables, it has first been told what it is itself, and its picture is right if and only if
  // what surrounds it fits the two lists.
  ghost predicate EnterDone(a: Situation, b: Situation, player: PlayerId, record: P.PlayerRecord) {
    var at := CellAt(record.state.pos);
    && b == a.(players := a.players[player := record], sessions := a.sessions[record.session := player],
               sent := b.sent, lost := b.lost)
    && BeginsWith(a.sent, b.sent, record.session, EnterGame(InfoOf(player, record), record.state.exp))
    && b.lost == LostAround(a.lost, record.session, PositionsOf(b.players), AliveOf(b.monsters), player, at)
    && (record.session !in a.lost ==>
          (ClientOf(b.sent, record.session) == Picture(PositionsOf(b.players), AliveOf(b.monsters), player, at)
           <==> FitAround(PositionsOf(b.players), AliveOf(b.monsters), player, at)))
  }

  // The player is gone, and everybody around has been told so once.
  ghost predicate LeaveDone(a: Situation, b: Situation, player: PlayerId) {
    if player !in a.players then b == a
    else
      && b == a.(players := a.players - {player}, sessions := a.sessions - {a.players[player].session}, sent := b.sent)
      && Told(a.sent, b.sent, b.sessions, Around(PositionsOf(b.players), CellAt(a.players[player].state.pos)),
              Despawn(player))
  }

  // The portal has let go of the player, or not; at the end the gateway is told that it may take the session over.
  ghost predicate PortalDone(
    a: Situation, b: Situation, session: SessionId, player: PlayerId, nextZone: nat, ok: bool)
  {
    var waiting := a.(portalPending := a.portalPending - {player});
    if !ok || player !in a.players || a.players[player].session != session then b == waiting
    else
      && b.sent != [] && b.sent[|b.sent| - 1] == Send(session, ZoneLeaveCompleted(player, nextZone))
      && LeaveDone(waiting, b.(sent := b.sent[..|b.sent| - 1]), player)
  }
}
