/** Tables derived from the zone's maps. */
module ZoneTables {
  import opened WorldTypes
  import opened AoiGrids
  import opened Players
  import opened Monsters
  import opened ZoneData
  import opened ClientView
  import opened Replicas
  import opened Options
  import opened Geometry
  import M = Membership

  ghost function PositionsOf(players: map<PlayerId, PlayerRecord>): map<PlayerId, Pos> {
    map p | p in players :: players[p].state.pos
  }

  ghost function AliveOf(monsters: map<MonsterId, MonsterRecord>): map<MonsterId, Pos> {
    map m | m in monsters && !monsters[m].phase.Dead? :: monsters[m].pos
  }

  lemma AliveStand(monsters: map<MonsterId, MonsterRecord>)
    ensures forall m | m in AliveOf(monsters) :: m in monsters && AliveOf(monsters)[m] == monsters[m].pos
  {
  }

  ghost function SpotsOf(where: map<nat, Pos>): set<Spot> {
    set id | id in where :: Spot(id, CellAt(where[id]))
  }

  lemma SpotsAreExact(where: map<nat, Pos>)
    ensures forall id, c :: Spot(id, c) in SpotsOf(where) <==> id in where && CellAt(where[id]) == c
    ensures OneCellEach(SpotsOf(where))
  {
  }

  ghost function PresenceOf(players: map<PlayerId, PlayerRecord>): map<PlayerId, M.Presence> {
    map p | p in players :: M.Presence(players[p].session, players[p].state)
  }

  ghost predicate Linked(players: map<PlayerId, PlayerRecord>, sessions: map<SessionId, PlayerId>) {
    forall p, s :: p in players && players[p].session == s <==> s in sessions && sessions[s] == p
  }

  predicate Eligible(
    players: map<PlayerId, PlayerRecord>, portalPending: set<PlayerId>, player: PlayerId, at: Point, range: real)
  {
    && player in players && player !in portalPending && !IsDead(players[player])
    && IsWithin(at, players[player].state.pos, range)
  }

  // A closest eligible player of all, or none when there is none.
  ghost predicate IsNearest(
    players: map<PlayerId, PlayerRecord>, portalPending: set<PlayerId>, at: Point, range: real, found: Option<PlayerId>)
  {
    match found
    case None => forall p | p in players :: !Eligible(players, portalPending, p, at, range)
    case Some(q) =>
      && Eligible(players, portalPending, q, at, range)
      && forall p | p in players && Eligible(players, portalPending, p, at, range) ::
           DistSq(at, players[q].state.pos) <= DistSq(at, players[p].state.pos)
  }

  // Alive, and not on its way home.
  predicate IsTargetable(monsters: map<MonsterId, MonsterRecord>, uid: MonsterId) {
    uid in monsters && !monsters[uid].phase.Dead? && !monsters[uid].phase.Return?
  }

  predicate InReach(monsters: map<MonsterId, MonsterRecord>, uid: MonsterId, at: Point, radius: real) {
    IsTargetable(monsters, uid) && IsWithin(at, monsters[uid].pos, radius)
  }

  // At most `most` of the targets in reach, nearest first; whoever is left out is no nearer than any of them.
  ghost predicate AreNearest(
    monsters: map<MonsterId, MonsterRecord>, at: Point, radius: real, most: nat, out: seq<MonsterId>)
  {
    && Distinct(out) && |out| <= most
    && (forall u | u in out :: InReach(monsters, u, at, radius))
    && NearestFirst(monsters, at, out)
    && (forall u | u in monsters && InReach(monsters, u, at, radius) && u !in out ::
          |out| == most && NoNearer(monsters, at, u, out))
  }

  ghost predicate NearestFirst(monsters: map<MonsterId, MonsterRecord>, at: Point, out: seq<MonsterId>)
    requires forall u | u in out :: u in monsters
  {
    forall i, j | 0 <= i < j < |out| :: DistSq(at, monsters[out[i]].pos) <= DistSq(at, monsters[out[j]].pos)
  }

  ghost predicate NoNearer(monsters: map<MonsterId, MonsterRecord>, at: Point, u: MonsterId, out: seq<MonsterId>)
    requires u in monsters && forall v | v in out :: v in monsters
  {
    forall v | v in out :: DistSq(at, monsters[v].pos) <= DistSq(at, monsters[u].pos)
  }

  // Whom a skill strikes that may be cast by a player standing there.
  ghost predicate AreTargets(
    monsters: map<MonsterId, MonsterRecord>, at: Point, skill: SkillData, uid: MonsterId, targets: seq<MonsterId>)
    requires skill.target.TargetArea? ==> uid in monsters
    ensures AreTargets(monsters, at, skill, uid, targets) && (skill.target.Single? ==> uid in monsters) ==>
              forall u | u in targets :: u in monsters
  {
    match skill.target
    case Single => targets == [uid]
    case SelfArea => AreNearest(monsters, at, skill.radius, SKILL_MAX_TARGETS, targets)
    case TargetArea => AreNearest(monsters, monsters[uid].pos, skill.radius, SKILL_MAX_TARGETS, targets)
    case NoTarget => false
  }

  lemma AreTargetable(
    monsters: map<MonsterId, MonsterRecord>, at: Point, skill: SkillData, uid: MonsterId, targets: seq<MonsterId>)
    requires !skill.target.SelfArea? ==> IsTargetable(monsters, uid)
    requires AreTargets(monsters, at, skill, uid, targets)
    ensures Distinct(targets) && forall u | u in targets :: u in monsters && IsTargetable(monsters, u)
  {
  }

  // Every target hit once, nobody else touched.
  ghost predicate AllHit(
    before: map<MonsterId, MonsterRecord>, after: map<MonsterId, MonsterRecord>, targets: seq<MonsterId>, damage: int,
    attacker: PlayerId)
  {
    && after.Keys == before.Keys
    && forall u | u in before :: after[u] == if u in targets then Attacked(before[u], damage, attacker) else before[u]
  }

  lemma AllHitNext(
    before: map<MonsterId, MonsterRecord>, mid: map<MonsterId, MonsterRecord>, targets: seq<MonsterId>, i: nat,
    damage: int,
    attacker: PlayerId)
    requires i < |targets| && Distinct(targets) && forall u | u in targets :: u in before
    requires AllHit(before, mid, targets[..i], damage, attacker)
    ensures targets[i] in mid && mid[targets[i]] == before[targets[i]]
    ensures var m := before[targets[i]];
            var h := Attacked(m, damage, attacker);
            && AllHit(before, mid[targets[i] := h], targets[..i + 1], damage, attacker)
            && Hits(before, targets[..i + 1], damage, attacker)
            == Hits(before, targets[..i], damage, attacker)
              + [SkillHit(targets[i], Monsters.TakeDamage(m, damage).applied, h.hp)]
  {
    assert targets[..i + 1] == targets[..i] + [targets[i]];
    assert targets[i] !in targets[..i];
  }

  // Every target without hit points is dead, nobody else touched.
  ghost predicate AllSettled(
    before: map<MonsterId, MonsterRecord>, after: map<MonsterId, MonsterRecord>, targets: seq<MonsterId>, now: real)
  {
    && after.Keys == before.Keys
    && forall u | u in before :: after[u] == if u in targets then Survived(before[u], now) else before[u]
  }

  function Fallen(monsters: map<MonsterId, MonsterRecord>, targets: seq<MonsterId>): seq<MonsterId>
    requires forall u | u in targets :: u in monsters
  {
    if targets == [] then []
    else
      var last := targets[|targets| - 1];
      Fallen(monsters, targets[..|targets| - 1]) + if monsters[last].hp <= 0 then [last] else []
  }

  function Hits(monsters: map<MonsterId, MonsterRecord>, targets: seq<MonsterId>, damage: int,
      attacker: PlayerId): seq<SkillHit>
    requires forall u | u in targets :: u in monsters
  {
    seq(|targets|, i requires 0 <= i < |targets| =>
      SkillHit(targets[i], Monsters.TakeDamage(monsters[targets[i]], damage).applied,
               Attacked(monsters[targets[i]], damage, attacker).hp))
  }

  // What n rolls starting with the first yield together.
  function RollSum(roll: nat -> nat, first: nat, n: nat): nat {
    if n == 0 then 0 else RollSum(roll, first, n - 1) + roll(first + n - 1)
  }

  // What a fight changes.
  datatype Fight = Fight(
    monsters: map<MonsterId, MonsterRecord>, players: map<PlayerId, PlayerRecord>, deaths: seq<MonsterId>)

  // Every target without hit points has died once, in order, and each death was rolled for once, for the killer.
  ghost predicate Settled(
    before: Fight, after: Fight, targets: seq<MonsterId>, killer: PlayerId, now: real, roll: nat -> nat)
    requires killer in before.players && forall u | u in targets :: u in before.monsters
  {
    var fallen := Fallen(before.monsters, targets);
    && AllSettled(before.monsters, after.monsters, targets, now)
    && after.deaths == before.deaths + fallen
    && after.players == before.players[killer :=
         Rewarded(before.players[killer], RollSum(roll, |before.deaths|, |fallen|))]
  }

  lemma NothingSettled(f: Fight, killer: PlayerId, now: real, roll: nat -> nat)
    requires killer in f.players
    ensures Settled(f, f, [], killer, now, roll)
  {
    assert Rewarded(f.players[killer], 0) == f.players[killer];
    assert f.deaths + [] == f.deaths;
  }

  lemma AllSettledNext(
    before: map<MonsterId, MonsterRecord>, mid: map<MonsterId, MonsterRecord>, targets: seq<MonsterId>, i: nat,
    now: real)
    requires i < |targets| && Distinct(targets) && targets[i] in before && AllSettled(before, mid, targets[..i], now)
    ensures targets[i] in mid && mid[targets[i]] == before[targets[i]]
    ensures var m := before[targets[i]];
            AllSettled(before, if m.hp <= 0 then mid[targets[i] := Die(m, now)] else mid, targets[..i + 1], now)
  {
    assert targets[..i + 1] == targets[..i] + [targets[i]];
    assert targets[i] !in targets[..i];
  }

  lemma FallenNext(monsters: map<MonsterId, MonsterRecord>, targets: seq<MonsterId>, i: nat)
    requires i < |targets| && forall u | u in targets :: u in monsters
    ensures Fallen(monsters, targets[..i + 1])
         == Fallen(monsters, targets[..i]) + if monsters[targets[i]].hp <= 0 then [targets[i]] else []
  {
    assert targets[..i + 1][..i] == targets[..i];
  }

  lemma RewardedNext(players: map<PlayerId, PlayerRecord>, killer: PlayerId, roll: nat -> nat, first: nat, n: nat)
    requires killer in players
    ensures var rewarded := Rewarded(players[killer], RollSum(roll, first, n));
            players[killer := rewarded][killer := Rewarded(rewarded, roll(first + n))]
            == players[killer := Rewarded(players[killer], RollSum(roll, first, n + 1))]
  {
    assert RollSum(roll, first, n + 1) == RollSum(roll, first, n) + roll(first + n);
  }

  lemma SettledNext(
    before: Fight, f: Fight, targets: seq<MonsterId>, i: nat, killer: PlayerId, now: real, roll: nat -> nat)
    requires i < |targets| && Distinct(targets) && killer in before.players
    requires forall u | u in targets :: u in before.monsters
    requires Settled(before, f, targets[..i], killer, now, roll)
    ensures targets[i] in f.monsters && f.monsters[targets[i]] == before.monsters[targets[i]]
    ensures var m := before.monsters[targets[i]];
            var next := if m.hp <= 0
              then Fight(f.monsters[targets[i] := Die(m, now)],
                         f.players[killer := Rewarded(f.players[killer], roll(|f.deaths|))], f.deaths + [targets[i]])
              else f;
            Settled(before, next, targets[..i + 1], killer, now, roll)
  {
    AllSettledNext(before.monsters, f.monsters, targets, i, now);
    FallenNext(before.monsters, targets, i);
    var fallen := Fallen(before.monsters, targets[..i]);
    if before.monsters[targets[i]].hp <= 0 {
      assert f.deaths + [targets[i]] == before.deaths + (fallen + [targets[i]]);
      RewardedNext(before.players, killer, roll, |before.deaths|, |fallen|);
    } else {
      assert Fallen(before.monsters, targets[..i + 1]) == fallen;
    }
  }

  lemma SettledKeepsPositions(
    before: Fight, after: Fight, targets: seq<MonsterId>, killer: PlayerId, now: real, roll: nat -> nat)
    requires killer in before.players && forall u | u in targets :: u in before.monsters
    requires Settled(before, after, targets, killer, now, roll)
    ensures PositionsOf(after.players) == PositionsOf(before.players)
  {
    hide Fallen, AllSettled, RollSum;
  }

  // The caster after paying for the skill and starting its cooldown.
  function Spent(p: PlayerRecord, skill: SkillData, id: nat, now: real): PlayerRecord {
    StartSkillCooldown(TrySpendSkill(p, skill.costType, skill.cost).p, id, now, skill.cooldown)
  }

  // A cast takes its cost, starts the cooldown of the skill that was cast, and changes nothing else of the caster.
  lemma CastCostsItsCaster(p: PlayerRecord, skill: SkillData, id: nat, now: real, other: nat, later: real)
    requires CanPay(p, skill.costType, skill.cost)
    ensures var q := Spent(p, skill, id, now);
            && (SkillReady(q, id, later) <==> later >= now + skill.cooldown)
            && (other != id ==> (SkillReady(q, other, later) <==> SkillReady(p, other, later)))
            && q.state.hp == p.state.hp - (if skill.costType.HpCost? then skill.cost else 0)
            && q.state.mp == p.state.mp - (if skill.costType.MpCost? then skill.cost else 0)
            && q == p.(state := p.state.(hp := q.state.hp, mp := q.state.mp), skillReady := q.skillReady)
  {
  }

  // Whom a chasing monster goes for: its target while it is there and alive, otherwise the nearest in sight.
  ghost predicate IsTarget(
    players: map<PlayerId, PlayerRecord>, portalPending: set<PlayerId>, m: MonsterRecord, target: Option<PlayerId>)
  {
    && (target.Some? ==> target.value in players)
    && if m.target in players && !IsDead(players[m.target]) then target == Some(m.target)
       else IsNearest(players, portalPending, m.pos, m.data.aggroRange, target)
  }

  ghost function PlaceOf(players: map<PlayerId, PlayerRecord>, target: Option<PlayerId>): Option<Pos>
    requires target.Some? ==> target.value in players
  {
    if target.None? then None else Some(players[target.value].state.pos)
  }

  // A skill was cast: the caster paid, every target took the damage once, those it killed died.
  ghost predicate CastDone(
    before: Fight, after: Fight, caster: PlayerId, skill: SkillData, id: nat, targets: seq<MonsterId>, now: real,
    roll: nat -> nat)
    requires caster in before.players && forall u | u in targets :: u in before.monsters
  {
    && after.monsters.Keys == before.monsters.Keys
    && (forall u | u in before.monsters ::
          after.monsters[u] == if u in targets then Survived(Attacked(before.monsters[u], skill.damage, caster), now)
                               else before.monsters[u])
    && var fallen := Slain(before.monsters, targets, skill.damage);
       && after.deaths == before.deaths + fallen
       && after.players == before.players[caster :=
            Rewarded(Spent(before.players[caster], skill, id, now), RollSum(roll, |before.deaths|, |fallen|))]
  }

  // The targets a skill kills, in order: those with no more hit points than its damage.
  function Slain(monsters: map<MonsterId, MonsterRecord>, targets: seq<MonsterId>, damage: int): seq<MonsterId>
    requires forall u | u in targets :: u in monsters
  {
    if targets == [] then []
    else
      var last := targets[|targets| - 1];
      Slain(monsters, targets[..|targets| - 1], damage) + if monsters[last].hp <= damage then [last] else []
  }

  lemma HitIsAlive(
    before: map<MonsterId, MonsterRecord>, after: map<MonsterId, MonsterRecord>, targets: seq<MonsterId>, damage: int,
    attacker: PlayerId)
    requires AllHit(before, after, targets, damage, attacker)
    requires forall u | u in targets :: u in before && IsTargetable(before, u)
    ensures forall u | u in targets :: u in after && !after[u].phase.Dead?
  {
  }

  lemma {:induction false} FallenIsSlain(
    before: map<MonsterId, MonsterRecord>, middle: map<MonsterId, MonsterRecord>, targets: seq<MonsterId>,
    all: seq<MonsterId>,
    damage: int, attacker: PlayerId)
    requires AllHit(before, middle, all, damage, attacker) && damage > 0
    requires forall u | u in targets :: u in all
    requires forall u | u in all :: u in before && IsTargetable(before, u) && before[u].hp >= 1
    ensures Fallen(middle, targets) == Slain(before, targets, damage)
  {
    if targets != [] {
      FallenIsSlain(before, middle, targets[..|targets| - 1], all, damage, attacker);
      assert targets[|targets| - 1] in all;
    }
  }

  lemma CastIsDone(
    before: Fight, middle: Fight, after: Fight, caster: PlayerId, skill: SkillData, id: nat, targets: seq<MonsterId>,
    now: real, roll: nat -> nat)
    requires caster in before.players
    requires forall u | u in targets ::
               u in before.monsters && IsTargetable(before.monsters, u) && before.monsters[u].hp >= 1
    requires AllHit(before.monsters, middle.monsters, targets, skill.damage, caster)
    requires middle.players == before.players[caster := Spent(before.players[caster], skill, id, now)]
    requires middle.deaths == before.deaths && Settled(middle, after, targets, caster, now, roll)
    ensures CastDone(before, after, caster, skill, id, targets, now, roll)
  {
    FallenIsSlain(before.monsters, middle.monsters, targets, targets, skill.damage, caster);
  }

  lemma SoundAfterCast(
    before: Fight, after: Fight, caster: PlayerId, skill: SkillData, id: nat, targets: seq<MonsterId>, now: real,
    roll: nat -> nat)
    requires caster in before.players
    requires forall u | u in targets :: u in before.monsters && IsTargetable(before.monsters, u)
    requires forall u | u in before.monsters :: Sound(before.monsters[u])
    requires CastDone(before, after, caster, skill, id, targets, now, roll)
    ensures forall u | u in after.monsters :: u in before.monsters && Sound(after.monsters[u])
  {
    forall u | u in after.monsters ensures u in before.monsters && Sound(after.monsters[u]) {
      assert u in before.monsters.Keys;
      if u in targets {
        SurvivedIsSound(before.monsters[u], skill.damage, caster, now);
      }
    }
  }

  ghost predicate AllSound(monsters: map<MonsterId, MonsterRecord>, last: MonsterId) {
    forall m | m in monsters :: m <= last && Sound(monsters[m])
  }

  lemma CastKeepsSound(
    before: Fight, middle: Fight, after: Fight, caster: PlayerId, skill: SkillData, id: nat, targets: seq<MonsterId>,
    now: real, roll: nat -> nat, last: MonsterId)
    requires caster in before.players && AllSound(before.monsters, last)
    requires forall u | u in targets :: u in before.monsters && IsTargetable(before.monsters, u)
    requires AllHit(before.monsters, middle.monsters, targets, skill.damage, caster)
    requires middle.players == before.players[caster := Spent(before.players[caster], skill, id, now)]
    requires middle.deaths == before.deaths && Settled(middle, after, targets, caster, now, roll)
    ensures CastDone(before, after, caster, skill, id, targets, now, roll) && AllSound(after.monsters, last)
  {
    CastIsDone(before, middle, after, caster, skill, id, targets, now, roll);
    SoundAfterCast(before, after, caster, skill, id, targets, now, roll);
  }

  // Nobody came, left or changed place or session.
  ghost predicate SameStands(before: map<PlayerId, PlayerRecord>, after: map<PlayerId, PlayerRecord>) {
    && after.Keys == before.Keys
    && forall p | p in before :: after[p].session == before[p].session && after[p].state.pos == before[p].state.pos
  }

  // The same players behind the same sessions, whatever else has become of them.
  ghost predicate SamePlayers(before: map<PlayerId, PlayerRecord>, after: map<PlayerId, PlayerRecord>) {
    after.Keys == before.Keys && forall p | p in before :: after[p].session == before[p].session
  }

  lemma SamePlayersSamePresence(
    before: map<PlayerId, PlayerRecord>, after: map<PlayerId, PlayerRecord>, m: M.Members)
    requires SamePlayers(before, after) && m.players == PresenceOf(before)
    ensures M.SamePresence(m, m.(players := PresenceOf(after)))
  {
    assert PresenceOf(after).Keys == PresenceOf(before).Keys;
  }

  ghost predicate StandStill(before: map<PlayerId, PlayerRecord>, after: map<PlayerId, PlayerRecord>,
      who: set<PlayerId>) {
    forall p | p in who && p in before && p in after :: after[p].state.pos == before[p].state.pos
  }

  // Of those in `who` who stay, exactly those in `movers` change place.
  ghost predicate OnlyMove(
    before: map<PlayerId, PlayerRecord>, after: map<PlayerId, PlayerRecord>, who: set<PlayerId>, movers: set<PlayerId>)
  {
    forall p | p in who && p in before && p in after :: after[p].state.pos != before[p].state.pos <==> p in movers
  }

  lemma UpdateKeepsStands(players: map<PlayerId, PlayerRecord>, id: PlayerId, p: PlayerRecord)
    requires id in players && p.session == players[id].session && p.state.pos == players[id].state.pos
    ensures SameStands(players, players[id := p])
  {
  }

  // Whoever is there before and after with the same presence stands where it stood.
  lemma PresenceKeepsStands(before: map<PlayerId, PlayerRecord>, after: map<PlayerId, PlayerRecord>)
    requires forall p | p in PresenceOf(before) && p in PresenceOf(after) ::
          PresenceOf(after)[p] == PresenceOf(before)[p]
    ensures StandStill(before, after, before.Keys)
  {
    forall p | p in before && p in after ensures after[p].state.pos == before[p].state.pos {
      assert p in PresenceOf(before) && p in PresenceOf(after);
      assert PresenceOf(after)[p] == PresenceOf(before)[p];
    }
  }

  lemma StandsUnchanged(
    before: map<PlayerId, PlayerRecord>, after: map<PlayerId, PlayerRecord>, sessions: map<SessionId, PlayerId>)
    requires Linked(before, sessions) && Linked(after, sessions) && PositionsOf(before) == PositionsOf(after)
    ensures SameStands(before, after)
  {
    forall p ensures p in after <==> p in before {
      assert p in PositionsOf(before) <==> p in PositionsOf(after);
    }
    forall p | p in before
      ensures after[p].session == before[p].session && after[p].state.pos == before[p].state.pos
    {
      assert PositionsOf(before)[p] == PositionsOf(after)[p];
      assert sessions[before[p].session] == p && sessions[after[p].session] == p;
    }
  }

  // Every monster but those in `rest` has had one tick.
  ghost predicate AllTicked(
    before: map<MonsterId, MonsterRecord>, after: map<MonsterId, MonsterRecord>, rest: set<MonsterId>, dt: real,
    now: real,
    sqrt: real -> real)
    requires IsSqrt(sqrt)
  {
    && after.Keys == before.Keys
    && forall u | u in before ::
         if u in rest then after[u] == before[u]
         else Ticked(before[u], after[u], StepOf(before[u], dt), now, MONSTER_ATTACK_COOLDOWN, sqrt)
  }

  lemma NobodyTicked(monsters: map<MonsterId, MonsterRecord>, dt: real, now: real, sqrt: real -> real)
    requires IsSqrt(sqrt)
    ensures AllTicked(monsters, monsters, monsters.Keys, dt, now, sqrt)
  {
  }

  lemma TickedAmong(
    before: map<MonsterId, MonsterRecord>, mid: map<MonsterId, MonsterRecord>, rest: set<MonsterId>, uid: MonsterId,
    dt: real, now: real, sqrt: real -> real)
    requires IsSqrt(sqrt) && rest <= before.Keys && uid in rest && AllTicked(before, mid, rest, dt, now, sqrt)
    ensures uid in mid && mid[uid] == before[uid]
  {
    assert uid in mid.Keys;
  }

  lemma TickedNext(
    before: map<MonsterId, MonsterRecord>, mid: map<MonsterId, MonsterRecord>, rest: set<MonsterId>, uid: MonsterId,
    n: MonsterRecord, dt: real, now: real, sqrt: real -> real)
    requires IsSqrt(sqrt) && rest <= before.Keys && uid in rest && AllTicked(before, mid, rest, dt, now, sqrt)
    requires Ticked(mid[uid], n, StepOf(mid[uid], dt), now, MONSTER_ATTACK_COOLDOWN, sqrt)
    ensures AllTicked(before, mid[uid := n], rest - {uid}, dt, now, sqrt)
  {
    assert mid[uid] == before[uid];
    assert mid[uid := n].Keys == before.Keys;
    forall u | u in before && u !in rest - {uid}
      ensures Ticked(before[u], mid[uid := n][u], StepOf(before[u], dt), now, MONSTER_ATTACK_COOLDOWN, sqrt)
    {
    }
  }

  // Alive, and within the radius of the portal.
  predicate InPortal(state: PlayerState, portals: map<nat, PortalData>, portal: nat) {
    state.hp > 0 && portal in portals && IsWithin(portals[portal].pos, state.pos, portals[portal].radius)
  }

  // The save of a portal: the destination, and for the rest what the player is.
  predicate SentThroughPortal(r: M.Request, id: PlayerId, p: PlayerRecord, data: PortalData) {
    && r.SaveRequest? && r.player == id && r.portal == Some(p.session)
    && r.zone == data.destZone && r.state.pos == data.dest
    && r.state.exp == p.state.exp && r.state.hp == p.state.hp && r.state.mp == p.state.mp
  }

  function NextSlice(slice: nat): nat {
    (slice + 1) % AUTOSAVE_SLICES
  }

  function SliceOf(player: PlayerId): nat {
    player % AUTOSAVE_SLICES
  }

  function SliceAfter(slice: nat, ticks: nat): nat {
    if ticks == 0 then slice else NextSlice(SliceAfter(slice, ticks - 1))
  }

  // Six autosave ticks in a row come by every player.
  lemma EverySliceComesRound(slice: nat, player: PlayerId)
    requires slice < AUTOSAVE_SLICES
    ensures exists ticks | 0 <= ticks < AUTOSAVE_SLICES :: SliceAfter(slice, ticks) == SliceOf(player)
  {
    var one := SliceAfter(slice, 1);
    var two := SliceAfter(slice, 2);
    var three := SliceAfter(slice, 3);
    var four := SliceAfter(slice, 4);
    var five := SliceAfter(slice, 5);
    assert {slice, one, two, three, four, five} == {0, 1, 2, 3, 4, 5};
    assert SliceOf(player) in {0, 1, 2, 3, 4, 5};
    assert SliceAfter(slice, 0) == slice;
  }

  predicate IsDueForSave(p: PlayerRecord, id: PlayerId, portalPending: set<PlayerId>, slice: nat) {
    SliceOf(id) == slice && id !in portalPending && !IsDead(p) && ConsumeChanged(p).ok
  }

  ghost function DueForSave(players: map<PlayerId, PlayerRecord>, portalPending: set<PlayerId>,
      slice: nat): set<PlayerId> {
    set p | p in players && IsDueForSave(players[p], p, portalPending, slice)
  }

  ghost function AfterAutoSave(players: map<PlayerId, PlayerRecord>, who: set<PlayerId>): map<PlayerId, PlayerRecord> {
    map p | p in players :: if p in who then ConsumeChanged(players[p]).p else players[p]
  }

  lemma AutoSaved(players: map<PlayerId, PlayerRecord>, who: set<PlayerId>, id: PlayerId)
    requires id in players && id !in who
    ensures AfterAutoSave(players, who + {id}) == AfterAutoSave(players, who)[id := ConsumeChanged(players[id]).p]
  {
  }

  // A timer that has come to its interval starts again with what is over.
  function Wound(timer: real, interval: real): real {
    if timer < interval then timer else timer - interval
  }

  // Each autosave is the next slice's.
  function TimersAfter(t: Timers, dt: real): Timers {
    Timers(Wound(t.regen + dt, REGEN_INTERVAL), Wound(t.save + dt, AUTOSAVE_INTERVAL),
           if t.save + dt < AUTOSAVE_INTERVAL then t.slice else NextSlice(t.slice))
  }

  // What a regeneration timer that has come to `timer` does, and what an autosave timer does.
  ghost predicate Regenerated(
    before: map<PlayerId, PlayerRecord>, after: map<PlayerId, PlayerRecord>, portalPending: set<PlayerId>, timer: real)
  {
    && after.Keys == before.Keys
    && forall p | p in before ::
         after[p] == if timer < REGEN_INTERVAL || p in portalPending then before[p]
                     else Regen(before[p], HP_REGEN, MP_REGEN).p
  }

  ghost function SavedNow(
    players: map<PlayerId, PlayerRecord>, portalPending: set<PlayerId>, slice: nat, timer: real): set<PlayerId>
  {
    if timer < AUTOSAVE_INTERVAL then {} else DueForSave(players, portalPending, slice)
  }

  ghost predicate Saved(
    before: map<PlayerId, PlayerRecord>, after: map<PlayerId, PlayerRecord>, portalPending: set<PlayerId>, slice: nat,
    timer: real)
  {
    after == if timer < AUTOSAVE_INTERVAL then before
      else AfterAutoSave(before, DueForSave(before, portalPending, slice))
  }

  // A save marks the state as saved and leaves it alone.
  lemma SavingKeepsPresence(players: map<PlayerId, PlayerRecord>, who: set<PlayerId>)
    ensures PresenceOf(AfterAutoSave(players, who)) == PresenceOf(players)
  {
  }

  lemma StandsAgain(
    a: map<PlayerId, PlayerRecord>, b: map<PlayerId, PlayerRecord>, c: map<PlayerId, PlayerRecord>)
    requires SameStands(a, b) && SameStands(b, c)
    ensures SameStands(a, c)
  {
  }

  lemma OneMoreSave(m: M.Members, zone: nat, who: set<PlayerId>, player: PlayerId, saves: seq<M.Request>)
    requires M.SavesExactly(m, zone, who, saves) && player in m.players && player !in who
    ensures M.SavesExactly(m, zone, who + {player},
          saves + [M.SaveRequest(player, m.players[player].state, zone, None)])
  {
    var all := saves + [M.SaveRequest(player, m.players[player].state, zone, None)];
    forall p | p in who + {player} ensures exists i | 0 <= i < |all| :: all[i].player == p {
      if p == player {
        assert all[|saves|].player == p;
      } else {
        var i :| 0 <= i < |saves| && saves[i].player == p;
        assert all[i].player == p;
      }
    }
  }

  // The players of a slice that are not in `rest` have been saved.
  ghost predicate SliceSaved(
    m: M.Members, before: map<PlayerId, PlayerRecord>, after: map<PlayerId, PlayerRecord>, portalPending: set<PlayerId>,
    slice: nat, rest: set<PlayerId>, saves: seq<M.Request>, zone: nat)
  {
    var done := DueForSave(before, portalPending, slice) - rest;
    after == AfterAutoSave(before, done) && M.SavesExactly(m, zone, done, saves)
  }

  lemma NothingSaved(
    m: M.Members, players: map<PlayerId, PlayerRecord>, portalPending: set<PlayerId>, slice: nat, zone: nat)
    ensures SliceSaved(m, players, players, portalPending, slice, players.Keys, [], zone)
  {
    assert DueForSave(players, portalPending, slice) - players.Keys == {};
  }

  lemma SavedNext(
    m: M.Members, before: map<PlayerId, PlayerRecord>, mid: map<PlayerId, PlayerRecord>, portalPending: set<PlayerId>,
    slice: nat, rest: set<PlayerId>, saves: seq<M.Request>, zone: nat, id: PlayerId)
    requires m.players == PresenceOf(before) && rest <= before.Keys && id in rest
    requires SliceSaved(m, before, mid, portalPending, slice, rest, saves, zone)
    ensures id in mid && mid[id] == before[id]
    ensures if IsDueForSave(mid[id], id, portalPending, slice)
            then SliceSaved(m, before, mid[id := ConsumeChanged(mid[id]).p], portalPending, slice, rest - {id},
                            saves + [M.SaveRequest(id, mid[id].state, zone, None)], zone)
            else SliceSaved(m, before, mid, portalPending, slice, rest - {id}, saves, zone)
  {
    var due := DueForSave(before, portalPending, slice);
    assert id in before && id in AfterAutoSave(before, due - rest);
    if IsDueForSave(mid[id], id, portalPending, slice) {
      assert due - (rest - {id}) == (due - rest) + {id};
      AutoSaved(before, due - rest, id);
      OneMoreSave(m, zone, due - rest, id, saves);
    } else {
      assert due - (rest - {id}) == due - rest;
    }
  }

  // The monsters that died in a job: each is reported once, and only those alive before and dead after.
  ghost predicate OneDeathPerLife(
    before: map<MonsterId, MonsterRecord>, after: map<MonsterId, MonsterRecord>, died: seq<MonsterId>)
  {
    && Distinct(died)
    && forall u :: u in died <==> u in before && !before[u].phase.Dead? && u in after && after[u].phase.Dead?
  }

  // Up and about again: risen from the dead, or home from the chase.
  predicate Heals(m: MonsterRecord, n: MonsterRecord) {
    (m.phase.Dead? && !n.phase.Dead?) || (m.phase.Return? && n.phase.Idle?)
  }

  // What one job brings to the zone: the damage it deals to a monster it strikes, the time it lets pass, and the
  // sessions it may send spawn lists to.
  datatype Deed = Deed(damage: int, time: Option<real>, lists: set<SessionId>)

  // What a deed may do to a monster. It heals fully, or it is struck, or its hit points stay. On its way home nothing
  // happens to it but that it goes on when time passes.
  ghost predicate LivesOn(m: MonsterRecord, n: MonsterRecord, deed: Deed, sqrt: real -> real)
    requires IsSqrt(sqrt)
  {
    && n.data == m.data && n.spawn == m.spawn
    && (m.phase.Return? ==> n == if deed.time.Some? then ReturnTick(m, StepOf(m, deed.time.value), sqrt) else m)
    && if Heals(m, n) then n.hp == m.data.maxHp
       else if n.hp < m.hp then
         && !m.phase.Dead? && !m.phase.Return? && deed.damage > 0
         && n.hp == m.hp - LeastOf(deed.damage, m.hp) && (n.phase.Dead? <==> deed.damage >= m.hp)
       else n.hp == m.hp && (n.phase.Dead? <==> m.phase.Dead?)
  }

  function LeastOf(a: int, b: int): int {
    if a < b then a else b
  }

  // No monster is made or lost, each lives on, and those reported dead are those that died.
  ghost predicate MonstersAdvance(
    before: map<MonsterId, MonsterRecord>, after: map<MonsterId, MonsterRecord>, died: seq<MonsterId>, deed: Deed,
    sqrt: real -> real)
    requires IsSqrt(sqrt)
  {
    && after.Keys == before.Keys && OneDeathPerLife(before, after, died)
    && forall u | u in before :: LivesOn(before[u], after[u], deed, sqrt)
  }

  // What the zone's clock has come to: towards the next regeneration, towards the next autosave, and whose it will be.
  datatype Timers = Timers(regen: real, save: real, slice: nat)

  // Everything between two jobs.
  datatype Snapshot = Snapshot(
    players: map<PlayerId, PlayerRecord>, monsters: map<MonsterId, MonsterRecord>, deaths: seq<MonsterId>,
    sent: seq<Send>, requests: seq<M.Request>, members: M.Members, lost: set<SessionId>, lastTick: real, timers: Timers)

  // How a deed carries the zone on: the monsters live on, and only a session that lists are sent to can lose its
  // picture.
  ghost predicate Advances(a: Snapshot, b: Snapshot, deed: Deed, sqrt: real -> real)
    requires IsSqrt(sqrt)
  {
    && a.deaths <= b.deaths && MonstersAdvance(a.monsters, b.monsters, b.deaths[|a.deaths|..], deed, sqrt)
    && a.lost <= b.lost <= a.lost + deed.lists && a.lastTick <= b.lastTick
  }

  lemma NobodyDied(
    monsters: map<MonsterId, MonsterRecord>, deaths: seq<MonsterId>, deed: Deed, sqrt: real -> real)
    requires IsSqrt(sqrt) && deed.time.None?
    ensures MonstersAdvance(monsters, monsters, deaths[|deaths|..], deed, sqrt)
  {
  }

  lemma AttackKills(
    before: map<MonsterId, MonsterRecord>, after: map<MonsterId, MonsterRecord>, deaths0: seq<MonsterId>,
    deaths1: seq<MonsterId>, uid: MonsterId, damage: int, attacker: PlayerId, now: real, deed: Deed, sqrt: real -> real)
    requires IsSqrt(sqrt) && deed.time.None? && deed.damage == damage
    requires uid in before && !before[uid].phase.Dead? && !before[uid].phase.Return? && before[uid].hp >= 1
          && damage > 0
    requires var h := Attacked(before[uid], damage, attacker);
             after == before[uid := Survived(h, now)] && deaths1 == deaths0 + if h.hp <= 0 then [uid] else []
    ensures MonstersAdvance(before, after, deaths1[|deaths0|..], deed, sqrt)
  {
    var h := Attacked(before[uid], damage, attacker);
    assert deaths1[|deaths0|..] == if h.hp <= 0 then [uid] else [];
    assert after.Keys == before.Keys;
    StruckLivesOn(before[uid], attacker, now, deed, sqrt);
  }

  lemma StruckLivesOn(m: MonsterRecord, attacker: PlayerId, now: real, deed: Deed, sqrt: real -> real)
    requires IsSqrt(sqrt) && !m.phase.Dead? && !m.phase.Return? && m.hp >= 1 && deed.damage > 0
    ensures LivesOn(m, Survived(Attacked(m, deed.damage, attacker), now), deed, sqrt)
  {
  }

  lemma {:induction false} SlainAre(monsters: map<MonsterId, MonsterRecord>, targets: seq<MonsterId>, damage: int)
    requires Distinct(targets) && forall u | u in targets :: u in monsters
    ensures Distinct(Slain(monsters, targets, damage))
    ensures forall u :: u in Slain(monsters, targets, damage) <==> u in targets && monsters[u].hp <= damage
  {
    if targets != [] {
      var last := |targets| - 1;
      SlainAre(monsters, targets[..last], damage);
      assert targets == targets[..last] + [targets[last]];
      assert targets[last] !in targets[..last];
    }
  }

  lemma CastKills(
    before: Fight, after: Fight, caster: PlayerId, skill: SkillData, id: nat, targets: seq<MonsterId>, now: real,
    roll: nat -> nat, deed: Deed, sqrt: real -> real)
    requires IsSqrt(sqrt) && deed.time.None? && deed.damage == skill.damage
    requires caster in before.players && Distinct(targets)
    requires forall u | u in targets :: u in before.monsters && IsTargetable(before.monsters, u)
    requires forall u | u in before.monsters :: Sound(before.monsters[u])
    requires CastDone(before, after, caster, skill, id, targets, now, roll)
    ensures before.deaths <= after.deaths
    ensures MonstersAdvance(before.monsters, after.monsters, after.deaths[|before.deaths|..], deed, sqrt)
  {
    var slain := Slain(before.monsters, targets, skill.damage);
    SlainAre(before.monsters, targets, skill.damage);
    assert after.deaths[|before.deaths|..] == slain;
    forall u
      ensures u in slain
         <==>
         && u in before.monsters && !before.monsters[u].phase.Dead?
         && u in after.monsters && after.monsters[u].phase.Dead?
    {
      if u in targets {
        SurvivedIsSound(before.monsters[u], skill.damage, caster, now);
      }
      assert u in before.monsters <==> u in after.monsters.Keys;
    }
    forall u | u in before.monsters ensures LivesOn(before.monsters[u], after.monsters[u], deed, sqrt) {
      if u in targets {
        StruckLivesOn(before.monsters[u], caster, now, deed, sqrt);
      }
    }
  }

  lemma CastKeepsStands(
    before: Fight, after: Fight, caster: PlayerId, skill: SkillData, id: nat, targets: seq<MonsterId>, now: real,
    roll: nat -> nat)
    requires caster in before.players && forall u | u in targets :: u in before.monsters
    requires CastDone(before, after, caster, skill, id, targets, now, roll)
    ensures SameStands(before.players, after.players)
  {
    UpdateKeepsStands(before.players, caster, after.players[caster]);
  }

  lemma TickLivesOn(m: MonsterRecord, n: MonsterRecord, dt: real, now: real, deed: Deed, sqrt: real -> real)
    requires IsSqrt(sqrt) && deed.time == Some(dt)
    requires Ticked(m, n, StepOf(m, dt), now, MONSTER_ATTACK_COOLDOWN, sqrt)
    ensures LivesOn(m, n, deed, sqrt)
  {
  }

  lemma TickKillsNobody(
    before: map<MonsterId, MonsterRecord>, after: map<MonsterId, MonsterRecord>, dt: real, now: real, deed: Deed,
    sqrt: real -> real)
    requires IsSqrt(sqrt) && AllTicked(before, after, {}, dt, now, sqrt) && deed.time == Some(dt)
    ensures MonstersAdvance(before, after, [], deed, sqrt)
  {
    forall u | u in before ensures LivesOn(before[u], after[u], deed, sqrt) {
      TickLivesOn(before[u], after[u], dt, now, deed, sqrt);
    }
    forall u | u in before && !before[u].phase.Dead? && u in after ensures !after[u].phase.Dead? {
      TickSpares(before[u], after[u], StepOf(before[u], dt), now, MONSTER_ATTACK_COOLDOWN, sqrt);
    }
  }

  // ------------------------------------------------------------------------------------------------ news

  // A strike of a monster is told to everybody around its target.
  ghost predicate StrikeNews(
    sent0: seq<Send>, sent1: seq<Send>, sessions: map<SessionId, PlayerId>, positions: map<PlayerId, Pos>, struck: bool,
    uid: MonsterId, target: PlayerId, p: PlayerRecord, applied: int)
  {
    if struck then
      News(sent0, sent1, sessions, Around(positions, CellAt(p.state.pos)), PlayerHit(uid, target, applied, p.state.hp))
    else NoNews(sent0, sent1)
  }

  // A monster that came home and was healed is told to everybody around it.
  ghost predicate ArrivalNews(
    sent0: seq<Send>, sent1: seq<Send>, sessions: map<SessionId, PlayerId>, positions: map<PlayerId, Pos>,
    uid: MonsterId,
    m: MonsterRecord, n: MonsterRecord)
  {
    if n.phase.Idle? && m.hp != n.hp then
      News(sent0, sent1, sessions, Around(positions, CellAt(n.pos)), MonsterHp(uid, n.hp))
    else NoNews(sent0, sent1)
  }

  lemma StrikeAmongMoves(
    sent0: seq<Send>, sent1: seq<Send>, sent2: seq<Send>, sent3: seq<Send>, sessions: map<SessionId, PlayerId>,
    positions: map<PlayerId, Pos>, struck: bool, uid: MonsterId, target: PlayerId, p: PlayerRecord, applied: int)
    requires NoNews(sent0, sent1) && NoNews(sent2, sent3)
    requires StrikeNews(sent1, sent2, sessions, positions, struck, uid, target, p, applied)
    ensures StrikeNews(sent0, sent3, sessions, positions, struck, uid, target, p, applied)
  {
    if struck {
      var who, msg := Around(positions, CellAt(p.state.pos)), PlayerHit(uid, target, applied, p.state.hp);
      NoneThenNews(sent0, sent1, sent2, sessions, who, msg);
      NewsThenNone(sent0, sent2, sent3, sessions, who, msg);
    } else {
      NoNewsTwice(sent0, sent1, sent2);
      NoNewsTwice(sent0, sent2, sent3);
    }
  }

  lemma ArrivalAmongMoves(
    sent0: seq<Send>, sent1: seq<Send>, sent2: seq<Send>, sent3: seq<Send>, sessions: map<SessionId, PlayerId>,
    positions: map<PlayerId, Pos>, uid: MonsterId, m: MonsterRecord, n: MonsterRecord)
    requires NoNews(sent0, sent1) && NoNews(sent2, sent3)
    requires if n.phase.Idle? && m.hp != n.hp
             then Told(sent1, sent2, sessions, Around(positions, CellAt(n.pos)), MonsterHp(uid, n.hp))
               else sent2 == sent1
    ensures ArrivalNews(sent0, sent3, sessions, positions, uid, m, n)
  {
    if n.phase.Idle? && m.hp != n.hp {
      var who, msg := Around(positions, CellAt(n.pos)), MonsterHp(uid, n.hp);
      ToldIsNews(sent1, sent2, sessions, who, msg);
      NoneThenNews(sent0, sent1, sent2, sessions, who, msg);
      NewsThenNone(sent0, sent2, sent3, sessions, who, msg);
    } else {
      NoNewsTwice(sent0, sent1, sent3);
    }
  }

  // A cast is told around the target, or around the caster when it has none: what it cost and whom it hit.
  function CastCell(before: Fight, caster: PlayerId, target: Option<MonsterId>): Cell
    requires caster in before.players && (target.Some? ==> target.value in before.monsters)
  {
    CellAt(if target.Some? then before.monsters[target.value].pos else before.players[caster].state.pos)
  }

  function CastMessage(
    before: Fight, caster: PlayerId, skill: SkillData, id: nat, targets: seq<MonsterId>, now: real): Message
    requires caster in before.players && forall u | u in targets :: u in before.monsters
  {
    var p := Spent(before.players[caster], skill, id, now);
    SkillCast(caster, id, p.state.hp, p.state.mp, Hits(before.monsters, targets, skill.damage, caster))
  }

  ghost predicate CastTold(
    sent0: seq<Send>, sent1: seq<Send>, sessions: map<SessionId, PlayerId>, positions: map<PlayerId, Pos>,
    before: Fight,
    caster: PlayerId, skill: SkillData, id: nat, target: Option<MonsterId>, targets: seq<MonsterId>, now: real)
    requires caster in before.players && (target.Some? ==> target.value in before.monsters)
    requires forall u | u in targets :: u in before.monsters
  {
    Told(sent0, sent1, sessions, Around(positions, CastCell(before, caster, target)),
         CastMessage(before, caster, skill, id, targets, now))
  }

  ghost predicate CastNews(
    sent0: seq<Send>, sent1: seq<Send>, sessions: map<SessionId, PlayerId>, positions: map<PlayerId, Pos>,
    before: Fight,
    caster: PlayerId, skill: SkillData, id: nat, target: Option<MonsterId>, targets: seq<MonsterId>, now: real)
    requires caster in before.players && (target.Some? ==> target.value in before.monsters)
    requires forall u | u in targets :: u in before.monsters
  {
    News(sent0, sent1, sessions, Around(positions, CastCell(before, caster, target)),
         CastMessage(before, caster, skill, id, targets, now))
  }

  lemma CastIsNews(
    before: Fight, sent0: seq<Send>, sent1: seq<Send>, sent2: seq<Send>, sessions: map<SessionId, PlayerId>,
    positions: map<PlayerId, Pos>, caster: PlayerId, skill: SkillData, id: nat, target: Option<MonsterId>,
    targets: seq<MonsterId>, now: real)
    requires caster in before.players && (target.Some? ==> target.value in before.monsters)
    requires forall u | u in targets :: u in before.monsters
    requires CastTold(sent0, sent1, sessions, positions, before, caster, skill, id, target, targets, now)
    requires NoNews(sent1, sent2)
    ensures CastNews(sent0, sent2, sessions, positions, before, caster, skill, id, target, targets, now)
  {
    var who, msg := Around(positions, CastCell(before, caster, target)),
      CastMessage(before, caster, skill, id, targets, now);
    ToldIsNews(sent0, sent1, sessions, who, msg);
    NewsThenNone(sent0, sent1, sent2, sessions, who, msg);
  }

  function StatOf(id: PlayerId, p: PlayerRecord): Message {
    PlayerStat(id, p.state.hp, p.maxHp, p.state.mp, p.maxMp)
  }

  // Everybody in `done` whom regeneration changed has been told of, once, to everybody around.
  ghost predicate StatDue(
    sessions: map<SessionId, PlayerId>, before: map<PlayerId, PlayerRecord>, done: set<PlayerId>, s: SessionId,
    m: Message)
  {
    && m.PlayerStat? && m.id in done && m.id in before && s in sessions
    && var t := Regen(before[m.id], HP_REGEN, MP_REGEN);
       t.ok && m == StatOf(m.id, t.p) && sessions[s] in Around(PositionsOf(before), CellAt(before[m.id].state.pos))
  }

  ghost predicate RegenNews(
    sent0: seq<Send>, sent1: seq<Send>, sessions: map<SessionId, PlayerId>, before: map<PlayerId, PlayerRecord>,
    done: set<PlayerId>)
  {
    forall s, m | IsNews(m) ::
      Heard(sent1, s, m) == Heard(sent0, s, m) + if StatDue(sessions, before, done, s, m) then 1 else 0
  }

  lemma RegenNewsNext(
    sent0: seq<Send>, sent1: seq<Send>, sent2: seq<Send>, sessions: map<SessionId, PlayerId>,
    before: map<PlayerId, PlayerRecord>, done: set<PlayerId>, id: PlayerId)
    requires RegenNews(sent0, sent1, sessions, before, done) && id in before && id !in done
    requires var t := Regen(before[id], HP_REGEN, MP_REGEN);
             if t.ok then News(sent1, sent2, sessions, Around(PositionsOf(before), CellAt(before[id].state.pos)),
               StatOf(id, t.p))
             else sent2 == sent1
    ensures RegenNews(sent0, sent2, sessions, before, done + {id})
  {
    forall s, m | IsNews(m)
      ensures Heard(sent2, s, m) == Heard(sent0, s, m) + if StatDue(sessions, before, done + {id}, s, m) then 1 else 0
    {
      assert Heard(sent1, s, m) == Heard(sent0, s, m) + if StatDue(sessions, before, done, s, m) then 1 else 0;
    }
  }

  lemma UpdatedTwice<K, V>(m: map<K, V>, k: K, a: V, b: V)
    ensures m[k := a][k := b] == m[k := b]
  {
  }

  lemma LinkedScene(players: map<PlayerId, PlayerRecord>, sessions: map<SessionId, PlayerId>)
    requires Linked(players, sessions)
    ensures forall s | s in sessions :: sessions[s] in PositionsOf(players)
  {
  }

  // What holds of the scene before a player's record is replaced, and of the tables after.
  lemma RecordReplaced(
    players: map<PlayerId, PlayerRecord>, sessions: map<SessionId, PlayerId>, alive: map<MonsterId, Pos>, id: PlayerId,
    p: PlayerRecord)
    requires Linked(players, sessions) && id in players && p.session == players[id].session
    ensures Linked(players[id := p], sessions)
    ensures PositionsOf(players[id := p]) == PositionsOf(players)[id := p.state.pos]
    ensures var w := Scene(PositionsOf(players), alive, sessions);
            && OnlySession(w, p.session) && w.sessions[p.session] == id
            && forall s | s in w.sessions :: w.sessions[s] in w.positions
  {
  }

  lemma LinkedWith(players: map<PlayerId, PlayerRecord>, sessions: map<SessionId, PlayerId>, id: PlayerId,
      p: PlayerRecord)
    requires Linked(players, sessions) && id !in players && p.session !in sessions
    ensures Linked(players[id := p], sessions[p.session := id])
  {
  }

  lemma LinkedWithout(players: map<PlayerId, PlayerRecord>, sessions: map<SessionId, PlayerId>, id: PlayerId)
    requires Linked(players, sessions) && id in players
    ensures Linked(players - {id}, sessions - {players[id].session})
    ensures players[id].session in sessions && sessions[players[id].session] == id
  {
  }

  function InfoOf(id: PlayerId, p: PlayerRecord): PlayerInfo {
    PlayerInfo(id, p.state.pos, p.state.hp, p.maxHp, p.state.mp, p.maxMp)
  }

  function MonsterInfoOf(uid: MonsterId, m: MonsterRecord): MonsterInfo {
    MonsterInfo(uid, m.pos, m.hp, m.data.maxHp)
  }

  function InfosOf(players: map<PlayerId, PlayerRecord>, list: seq<PlayerId>): seq<PlayerInfo>
    requires forall p | p in list :: p in players
  {
    seq(|list|, i requires 0 <= i < |list| => InfoOf(list[i], players[list[i]]))
  }

  function MonsterInfosOf(monsters: map<MonsterId, MonsterRecord>, list: seq<MonsterId>): seq<MonsterInfo>
    requires forall m | m in list :: m in monsters
  {
    seq(|list|, i requires 0 <= i < |list| => MonsterInfoOf(list[i], monsters[list[i]]))
  }

  // What a list tells of each player and monster, in the order of the list, and what a stat message tells of a player.
  lemma ListsAreCurrent(players: map<PlayerId, PlayerRecord>, list: seq<PlayerId>, monsters: map<MonsterId,
      MonsterRecord>, others: seq<MonsterId>)
    requires (forall p | p in list :: p in players) && forall m | m in others :: m in monsters
    ensures |InfosOf(players, list)| == |list| && |MonsterInfosOf(monsters, others)| == |others|
    ensures forall i | 0 <= i < |list| ::
              var p, info := players[list[i]], InfosOf(players, list)[i];
              && info.id == list[i] && info.pos == p.state.pos && info.hp == p.state.hp && info.maxHp == p.maxHp
              && info.mp == p.state.mp && info.maxMp == p.maxMp
              && StatOf(list[i], p) == PlayerStat(info.id, info.hp, info.maxHp, info.mp, info.maxMp)
    ensures forall i | 0 <= i < |others| ::
              var m, info := monsters[others[i]], MonsterInfosOf(monsters, others)[i];
              info.uid == others[i] && info.pos == m.pos && info.hp == m.hp && info.maxHp == m.data.maxHp
  {
  }

  // The list names exactly the players of `seen`, each once, where the table has it.
  ghost predicate NamesExactly(players: map<PlayerId, PlayerRecord>, list: seq<PlayerId>, seen: map<PlayerId, Pos>) {
    && Distinct(list) && (forall p :: p in list <==> p in seen) && (forall p | p in list :: p in players)
    && forall p | p in seen :: p in players && seen[p] == players[p].state.pos
  }

  ghost predicate NamesMonsters(monsters: map<MonsterId, MonsterRecord>, list: seq<MonsterId>, seen: map<MonsterId,
      Pos>) {
    && Distinct(list) && (forall m :: m in list <==> m in seen) && (forall m | m in list :: m in monsters)
    && forall m | m in seen :: m in monsters && seen[m] == monsters[m].pos
  }

  lemma ListsThem(players: map<PlayerId, PlayerRecord>, list: seq<PlayerId>, seen: map<PlayerId, Pos>)
    requires NamesExactly(players, list, seen)
    ensures Lists(InfosOf(players, list), seen)
  {
    var infos := InfosOf(players, list);
    forall q | q in seen ensures exists i | 0 <= i < |infos| :: infos[i].id == q {
      var i :| 0 <= i < |list| && list[i] == q;
      assert infos[i].id == q;
    }
  }

  lemma ListsThoseMonsters(monsters: map<MonsterId, MonsterRecord>, list: seq<MonsterId>, seen: map<MonsterId, Pos>)
    requires NamesMonsters(monsters, list, seen)
    ensures ListsMonsters(MonsterInfosOf(monsters, list), seen)
  {
    var infos := MonsterInfosOf(monsters, list);
    forall q | q in seen ensures exists i | 0 <= i < |infos| :: infos[i].uid == q {
      var i :| 0 <= i < |list| && list[i] == q;
      assert infos[i].uid == q;
    }
  }

  // What a list leaves with the client it is for: everything on it, or nothing when it would exceed a packet.
  ghost function Delivered(seen: map<nat, Pos>, most: nat): map<nat, Pos> {
    if |seen| > most then map[] else seen
  }

  ghost predicate FitPackets(players: map<PlayerId, Pos>, monsters: map<MonsterId, Pos>) {
    |players| <= MAX_PLAYER_INFOS && |monsters| <= MAX_MONSTER_INFOS
  }

  // What surrounds a cell, and what comes into view between two cells, fits the lists or costs the session its picture.
  ghost predicate FitAround(positions: map<PlayerId, Pos>, alive: map<MonsterId, Pos>, me: PlayerId, at: Cell) {
    FitPackets(Sight(positions, me, at), MonsterSight(alive, at))
  }

  ghost function LostAround(
    lost: set<SessionId>, session: SessionId, positions: map<PlayerId, Pos>, alive: map<MonsterId, Pos>, me: PlayerId,
    at: Cell): set<SessionId>
  {
    if FitAround(positions, alive, me, at) then lost else lost + {session}
  }

  ghost predicate FitOnWay(positions: map<PlayerId, Pos>, alive: map<MonsterId, Pos>, me: PlayerId, from: Cell,
      to: Cell) {
    FitPackets(Entering(positions, me, from, to), MonstersEntering(alive, from, to))
  }

  ghost function LostOnWay(
    lost: set<SessionId>, session: SessionId, positions: map<PlayerId, Pos>, alive: map<MonsterId, Pos>, me: PlayerId,
    from: Cell, to: Cell): set<SessionId>
  {
    if FitOnWay(positions, alive, me, from, to) then lost else lost + {session}
  }

  // Within one cell nothing comes into view.
  lemma NothingCame(positions: map<PlayerId, Pos>, alive: map<MonsterId, Pos>, me: PlayerId, at: Cell)
    ensures FitOnWay(positions, alive, me, at, at)
  {
    assert Entering(positions, me, at, at) == map[] && MonstersEntering(alive, at, at) == map[];
  }

  lemma ListSize(list: seq<nat>, seen: map<nat, Pos>)
    requires Distinct(list) && forall p :: p in list <==> p in seen
    ensures |list| == |seen|
  {
    SizeOfDistinct(list);
    assert ToSet(list) == seen.Keys;
  }

  lemma DroppedIsMissed(seen: map<nat, Pos>, most: nat)
    ensures Delivered(seen, most) == seen <==> |seen| <= most
  {
    if |seen| > most {
      SomeoneMissing(seen);
    }
  }

  lemma SentEntry(sent: seq<Send>, to: SessionId, me: PlayerInfo, exp: nat)
    ensures ClientOf(sent, to) != Broken ==>
              ClientOf(sent + [Send(to, EnterGame(me, exp))], to) == InZone(me.id, map[], map[])
    ensures forall s | s != to :: Trace(sent + [Send(to, EnterGame(me, exp))], s) == Trace(sent, s)
  {
    forall s {
      SentOne(sent, to, EnterGame(me, exp), s);
    }
  }

  function PlayerList(players: map<PlayerId, PlayerRecord>, to: SessionId, list: seq<PlayerId>): seq<Send>
    requires forall p | p in list :: p in players
  {
    if list == [] || |list| > MAX_PLAYER_INFOS then [] else [Send(to, Spawn(InfosOf(players, list)))]
  }

  function MonsterList(monsters: map<MonsterId, MonsterRecord>, to: SessionId, list: seq<MonsterId>): seq<Send>
    requires forall m | m in list :: m in monsters
  {
    if list == [] || |list| > MAX_MONSTER_INFOS then [] else [Send(to, MonsterSpawn(MonsterInfosOf(monsters, list)))]
  }

  lemma ListForOneOnly(sent: seq<Send>, to: SessionId, list: seq<Send>)
    requires |list| <= 1 && forall i | 0 <= i < |list| :: list[i].to == to
    ensures forall s | s != to :: Trace(sent + list, s) == Trace(sent, s)
    ensures ClientOf(sent + list, to) == if list == [] then ClientOf(sent, to)
          else Receive(ClientOf(sent, to), list[0].msg)
  {
    if list == [] {
      assert sent + list == sent;
    } else {
      assert list == [Send(to, list[0].msg)];
      forall s {
        SentOne(sent, to, list[0].msg, s);
      }
    }
  }

  lemma SpawnListSent(
    sent: seq<Send>, to: SessionId, players: map<PlayerId, PlayerRecord>, list: seq<PlayerId>, seen: map<PlayerId, Pos>)
    requires NamesExactly(players, list, seen) && ClientOf(sent, to).InZone?
    requires forall p | p in seen :: p != ClientOf(sent, to).me && p !in ClientOf(sent, to).players
    ensures var c := ClientOf(sent, to);
            ClientOf(sent + PlayerList(players, to, list), to)
            == c.(players := c.players + Delivered(seen, MAX_PLAYER_INFOS))
  {
    var c := ClientOf(sent, to);
    ListSize(list, seen);
    ListForOneOnly(sent, to, PlayerList(players, to, list));
    if list == [] {
      assert c.players + seen == c.players;
    } else if |list| > MAX_PLAYER_INFOS {
      assert c.players + map[] == c.players;
    } else {
      ListsThem(players, list, seen);
      SpawnShows(c, InfosOf(players, list), seen);
    }
  }

  lemma MonsterSpawnListSent(
    sent: seq<Send>, to: SessionId, monsters: map<MonsterId, MonsterRecord>, list: seq<MonsterId>, seen: map<MonsterId,
    Pos>)
    requires NamesMonsters(monsters, list, seen) && ClientOf(sent, to).InZone?
    requires forall m | m in seen :: m !in ClientOf(sent, to).monsters
    ensures var c := ClientOf(sent, to);
            ClientOf(sent + MonsterList(monsters, to, list), to)
            == c.(monsters := c.monsters + Delivered(seen, MAX_MONSTER_INFOS))
  {
    var c := ClientOf(sent, to);
    ListSize(list, seen);
    ListForOneOnly(sent, to, MonsterList(monsters, to, list));
    if list == [] {
      assert c.monsters + seen == c.monsters;
    } else if |list| > MAX_MONSTER_INFOS {
      assert c.monsters + map[] == c.monsters;
    } else {
      ListsThoseMonsters(monsters, list, seen);
      MonsterSpawnShows(c, MonsterInfosOf(monsters, list), seen);
    }
  }

  // What a newcomer shows after its entry and the two lists.
  ghost function Welcomed(positions: map<PlayerId, Pos>, alive: map<MonsterId, Pos>, me: PlayerId, at: Cell): Client {
    InZone(me, Delivered(Sight(positions, me, at), MAX_PLAYER_INFOS),
      Delivered(MonsterSight(alive, at), MAX_MONSTER_INFOS))
  }

  // It is the right picture if and only if both lists fit.
  lemma WelcomedRightly(positions: map<PlayerId, Pos>, alive: map<MonsterId, Pos>, me: PlayerId, at: Cell)
    ensures Welcomed(positions, alive, me, at) == Picture(positions, alive, me, at)
       <==> FitPackets(Sight(positions, me, at), MonsterSight(alive, at))
  {
    DroppedIsMissed(Sight(positions, me, at), MAX_PLAYER_INFOS);
    DroppedIsMissed(MonsterSight(alive, at), MAX_MONSTER_INFOS);
  }

  lemma NewcomerListSent(
    sent: seq<Send>, to: SessionId, me: PlayerInfo, exp: nat, players: map<PlayerId, PlayerRecord>, near: seq<PlayerId>,
    sight: map<PlayerId, Pos>)
    requires NamesExactly(players, near, sight) && me.id !in sight && ClientOf(sent, to) != Broken
    ensures ClientOf(sent + [Send(to, EnterGame(me, exp))] + PlayerList(players, to, near), to)
         == InZone(me.id, Delivered(sight, MAX_PLAYER_INFOS), map[])
  {
    SentEntry(sent, to, me, exp);
    hide NamesExactly, PlayerList, ClientOf;
    SpawnListSent(sent + [Send(to, EnterGame(me, exp))], to, players, near, sight);
    assert map[] + Delivered(sight, MAX_PLAYER_INFOS) == Delivered(sight, MAX_PLAYER_INFOS);
  }

  // Whoever goes out of view was in view.
  lemma GoneWereSeen(positions: map<PlayerId, Pos>, me: PlayerId, from: Cell, to: Cell, shown: map<PlayerId, Pos>)
    requires Sight(positions, me, from).Keys <= shown.Keys
    ensures forall p | p in Entering(positions, me, to, from) :: p in shown
  {
  }

  lemma UnseenByItself(positions: map<PlayerId, Pos>, me: PlayerId, at: Cell)
    ensures me !in Sight(positions, me, at)
  {
  }

  lemma SurroundingsSent(
    sent: seq<Send>, to: SessionId, me: PlayerInfo, exp: nat, players: map<PlayerId, PlayerRecord>,
    monsters: map<MonsterId, MonsterRecord>, near: seq<PlayerId>, nearMonsters: seq<MonsterId>, sight: map<PlayerId,
    Pos>,
    monsterSight: map<MonsterId, Pos>)
    requires NamesExactly(players, near, sight) && me.id !in sight
          && NamesMonsters(monsters, nearMonsters, monsterSight)
    ensures var more := sent + [Send(to, EnterGame(me, exp))] + PlayerList(players, to, near)
                        + MonsterList(monsters, to, nearMonsters);
            && (ClientOf(sent, to) != Broken ==>
                  ClientOf(more, to) == InZone(me.id, Delivered(sight, MAX_PLAYER_INFOS),
                    Delivered(monsterSight, MAX_MONSTER_INFOS)))
            && (forall s | s != to :: Trace(more, s) == Trace(sent, s))
            && |near| == |sight| && |nearMonsters| == |monsterSight|
  {
    var one := sent + [Send(to, EnterGame(me, exp))];
    var two := one + PlayerList(players, to, near);
    SentEntry(sent, to, me, exp);
    ListSize(near, sight);
    ListSize(nearMonsters, monsterSight);
    ListForOneOnly(one, to, PlayerList(players, to, near));
    ListForOneOnly(two, to, MonsterList(monsters, to, nearMonsters));
    if ClientOf(sent, to) != Broken {
      NewcomerListSent(sent, to, me, exp, players, near, sight);
      NewcomerMonstersSent(two, to, monsters, nearMonsters, monsterSight);
    }
  }

  lemma NewcomerMonstersSent(
    sent: seq<Send>, to: SessionId, monsters: map<MonsterId, MonsterRecord>, near: seq<MonsterId>,
    sight: map<MonsterId, Pos>)
    requires NamesMonsters(monsters, near, sight) && ClientOf(sent, to).InZone? && ClientOf(sent, to).monsters == map[]
    ensures ClientOf(sent + MonsterList(monsters, to, near), to)
         == ClientOf(sent, to).(monsters := Delivered(sight, MAX_MONSTER_INFOS))
  {
    MonsterSpawnListSent(sent, to, monsters, near, sight);
    assert map[] + Delivered(sight, MAX_MONSTER_INFOS) == Delivered(sight, MAX_MONSTER_INFOS);
  }

  // What the mover's client shows after the players of a crossing, and after its monsters too.
  ghost function PlayersCrossed(
    positions: map<PlayerId, Pos>, alive: map<MonsterId, Pos>, me: PlayerId, from: Cell, to: Cell): Client
  {
    InZone(me,
      Sight(positions, me, from) + Delivered(Entering(positions, me, from, to), MAX_PLAYER_INFOS)
        - Entering(positions, me, to, from).Keys,
      MonsterSight(alive, from))
  }

  ghost function Crossed(
    positions: map<PlayerId, Pos>, alive: map<MonsterId, Pos>, me: PlayerId, from: Cell, to: Cell): Client
  {
    InZone(me, PlayersCrossed(positions, alive, me, from, to).players,
      MonsterSight(alive, from) + Delivered(MonstersEntering(alive, from, to), MAX_MONSTER_INFOS)
        - MonstersEntering(alive, to, from).Keys)
  }

  // It is the right picture if and only if both lists of what came into view fit.
  lemma CrossedRightly(positions: map<PlayerId, Pos>, alive: map<MonsterId, Pos>, me: PlayerId, from: Cell, to: Cell)
    ensures Crossed(positions, alive, me, from, to) == Picture(positions, alive, me, to)
       <==> FitPackets(Entering(positions, me, from, to), MonstersEntering(alive, from, to))
  {
    DifferenceIsExact(positions, alive, me, from, to);
    var came, monstersCame := Entering(positions, me, from, to), MonstersEntering(alive, from, to);
    if |came| > MAX_PLAYER_INFOS {
      SomeoneMissing(came);
      var q :| q in came;
      assert q in Sight(positions, me, to) && q !in Crossed(positions, alive, me, from, to).players;
    } else if |monstersCame| > MAX_MONSTER_INFOS {
      SomeoneMissing(monstersCame);
      var m :| m in monstersCame;
      assert m in MonsterSight(alive, to) && m !in Crossed(positions, alive, me, from, to).monsters;
    }
  }

  // The mover's picture is right if and only if what came into view fits the lists; otherwise its session is lost.
  ghost predicate MoverFollows(
    sent: seq<Send>, w: Scene, me: PlayerId, session: SessionId, from: Cell, to: Cell, lost0: set<SessionId>,
    lost: set<SessionId>)
  {
    && lost == LostOnWay(lost0, session, w.positions, w.alive, me, from, to)
    && (session !in lost0 ==>
          (ClientOf(sent, session) == Picture(w.positions, w.alive, me, to)
           <==> FitOnWay(w.positions, w.alive, me, from, to))
          && ClientOf(sent, session).InZone? && ClientOf(sent, session).me == me)
  }

  lemma CrossingEnds(
    sent: seq<Send>, w: Scene, info: PlayerInfo, session: SessionId, from: Cell, to: Cell, lost0: set<SessionId>)
    requires OnlySession(w, session) && w.sessions[session] == info.id
    requires from == CellAt(w.positions[info.id]) && to == CellAt(info.pos)
    requires Stage(sent, w, info, session, Crossed(w.positions, w.alive, info.id, from, to),
                   Entering(w.positions, info.id, from, to).Keys, Entering(w.positions, info.id, to, from).Keys, lost0)
    ensures var lost := LostOnWay(lost0, session, w.positions, w.alive, info.id, from, to);
            Crossing(sent, w, info, lost) && MoverFollows(sent, w, info.id, session, from, to, lost0, lost)
  {
    var lost := LostOnWay(lost0, session, w.positions, w.alive, info.id, from, to);
    var mine := Crossed(w.positions, w.alive, info.id, from, to);
    var shown, hidden := Entering(w.positions, info.id, from, to).Keys, Entering(w.positions, info.id, to, from).Keys;
    assert mine == Picture(w.positions, w.alive, info.id, to)
      <==> FitOnWay(w.positions, w.alive, info.id, from, to) by {
      CrossedRightly(w.positions, w.alive, info.id, from, to);
    }
    assert session !in lost0 ==> ClientOf(sent, session) == mine;
    StageEnds(sent, w, info, session, mine, shown, hidden, lost0, lost);
  }

  // A player's own place decides nothing about what comes into its view.
  lemma OwnPlaceIsNotOnWay(
    positions: map<PlayerId, Pos>, alive: map<MonsterId, Pos>, me: PlayerId, pos: Pos, from: Cell, to: Cell)
    ensures FitOnWay(positions[me := pos], alive, me, from, to) == FitOnWay(positions, alive, me, from, to)
  {
    hide CellAt, IsNear, MonstersEntering;
    assert Entering(positions[me := pos], me, from, to) == Entering(positions, me, from, to);
  }

  // Telling the mover where it stands leaves its picture alone, and its own place is not part of it.
  lemma MoverStillFollows(
    sent0: seq<Send>, sent1: seq<Send>, w: Scene, me: PlayerId, session: SessionId, from: Cell, to: Cell,
    lost0: set<SessionId>, lost: set<SessionId>, pos: Pos, who: set<PlayerId>, msg: Message)
    requires MoverFollows(sent0, w, me, session, from, to, lost0, lost) && Told(sent0, sent1, w.sessions, who, msg)
    requires msg == Move(me, pos) || (msg.Revive? && msg.id == me)
    ensures MoverFollows(sent1, w.(positions := w.positions[me := pos]), me, session, from, to, lost0, lost)
  {
    hide Told, ClientOf, Picture, FitOnWay;
    ToldClient(sent0, sent1, w.sessions, who, msg, session);
    OwnPositionIsUnseen(w.positions, w.alive, me, pos, to);
    OwnPlaceIsNotOnWay(w.positions, w.alive, me, pos, from, to);
  }

  // A move within one cell.
  lemma NoCrossing(sent: seq<Send>, w: Scene, info: PlayerInfo, session: SessionId, at: Cell, lost: set<SessionId>)
    requires Faithful(sent, w, lost) && session in w.sessions && w.sessions[session] == info.id
          && info.id in w.positions
    requires CellAt(w.positions[info.id]) == at == CellAt(info.pos)
    ensures Crossing(sent, w, info, lost) && MoverFollows(sent, w, info.id, session, at, at, lost, lost)
  {
    NothingCame(w.positions, w.alive, info.id, at);
    SameCellCrosses(sent, w, info, lost);
  }

  lemma SomeoneMissing(seen: map<nat, Pos>)
    requires |seen| > 0
    ensures exists q :: q in seen
  {
    var q :| q in seen.Keys;
  }

  // Only one player's position differs.
  lemma OthersStand(players: map<PlayerId, PlayerRecord>, before: map<PlayerId, Pos>, player: PlayerId)
    requires player in players && PositionsOf(players) == before[player := players[player].state.pos]
    ensures forall p | p != player ::
              (p in players <==> p in before) && (p in players ==> players[p].state.pos == before[p])
  {
    forall p | p != player
      ensures (p in players <==> p in before) && (p in players ==> players[p].state.pos == before[p])
    {
      assert p in players <==> p in PositionsOf(players);
    }
  }

  lemma PlayerUpdated(players: map<PlayerId, PlayerRecord>, id: PlayerId, p: PlayerRecord)
    ensures PositionsOf(players[id := p]) == PositionsOf(players)[id := p.state.pos]
    ensures PresenceOf(players[id := p]) == PresenceOf(players)[id := M.Presence(p.session, p.state)]
  {
  }

  lemma PlayerRemoved(players: map<PlayerId, PlayerRecord>, id: PlayerId)
    ensures PositionsOf(players - {id}) == PositionsOf(players) - {id}
    ensures PresenceOf(players - {id}) == PresenceOf(players) - {id}
  {
  }

  lemma MonsterUpdated(monsters: map<MonsterId, MonsterRecord>, uid: MonsterId, m: MonsterRecord)
    ensures AliveOf(monsters[uid := m]) == if m.phase.Dead? then AliveOf(monsters) - {uid}
          else AliveOf(monsters)[uid := m.pos]
  {
  }

  lemma SpotAdded(where: map<nat, Pos>, id: nat, pos: Pos)
    requires id !in where
    ensures SpotsOf(where[id := pos]) == SpotsOf(where) + {Spot(id, CellAt(pos))}
  {
    forall s: Spot ensures s in SpotsOf(where[id := pos]) <==> s in SpotsOf(where) + {Spot(id, CellAt(pos))} {
      SpotsAreExact(where);
      SpotsAreExact(where[id := pos]);
      assert s == Spot(s.id, s.cell);
    }
  }

  lemma SpotRemoved(where: map<nat, Pos>, id: nat)
    requires id in where
    ensures SpotsOf(where - {id}) == SpotsOf(where) - {Spot(id, CellAt(where[id]))}
  {
    forall s: Spot ensures s in SpotsOf(where - {id}) <==> s in SpotsOf(where) - {Spot(id, CellAt(where[id]))} {
      SpotsAreExact(where);
      SpotsAreExact(where - {id});
      assert s == Spot(s.id, s.cell);
    }
  }

  lemma SpotMoved(where: map<nat, Pos>, id: nat, pos: Pos)
    requires id in where
    ensures var from, to := CellAt(where[id]), CellAt(pos);
            SpotsOf(where[id := pos])
            == if from == to then SpotsOf(where) else SpotsOf(where) - {Spot(id, from)} + {Spot(id, to)}
  {
    var from, to := CellAt(where[id]), CellAt(pos);
    var target := if from == to then SpotsOf(where) else SpotsOf(where) - {Spot(id, from)} + {Spot(id, to)};
    forall s: Spot ensures s in SpotsOf(where[id := pos]) <==> s in target {
      SpotsAreExact(where);
      SpotsAreExact(where[id := pos]);
      assert s == Spot(s.id, s.cell);
    }
  }

  // Taking a player and its session out of the tables is Membership.Leave.
  lemma LeftMembers(m: M.Members, players: map<PlayerId, PlayerRecord>, player: PlayerId)
    requires m.players == PresenceOf(players)
    ensures M.Leave(m, player)
         == m.(players := PresenceOf(players - {player}),
               sessions := m.sessions - if player in players then {players[player].session} else {})
  {
    assert m.sessions - {} == m.sessions;
    if player in players {
      PlayerRemoved(players, player);
    } else {
      assert players - {player} == players;
    }
  }

  lemma LinkedIsConsistent(m: M.Members, players: map<PlayerId, PlayerRecord>, sessions: map<SessionId, PlayerId>)
    requires m.players == PresenceOf(players) && m.sessions == sessions
    ensures M.Consistent(m) <==> Linked(players, sessions) && m.spawnPending !! sessions.Keys
  {
    if M.Consistent(m) {
      forall p | p in players ensures players[p].session in sessions && sessions[players[p].session] == p {
        assert p in m.players;
      }
      forall s | s in sessions ensures sessions[s] in players && players[sessions[s]].session == s {
        assert sessions[s] in m.players;
      }
    }
  }
}
