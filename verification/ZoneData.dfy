/** Template rows the zone works from, as their loaders accept them. */
module ZoneData {
  import opened WorldTypes
  import opened Players

  datatype SkillTarget = NoTarget | Single | SelfArea | TargetArea

  datatype SkillRow = SkillRow(
    target: SkillTarget, damage: int, range: Range, radius: Range, cooldown: real, costType: CostType, cost: int)

  type SkillData = s: SkillRow |
      && s.damage > 0 && s.cooldown >= 0.0 && s.cost >= 0
      && (s.target.Single? || s.target.TargetArea? ==> s.range > 0.0)
      && (s.target.SelfArea? || s.target.TargetArea? ==> s.radius > 0.0)
    witness SkillRow(NoTarget, 1, 0.0, 0.0, 0.0, NoCost, 0)

  datatype PortalRow = PortalRow(pos: Pos, radius: real, destZone: nat, dest: Pos)
  type PortalData = p: PortalRow | p.radius > 0.0 witness PortalRow(Point(0.0, 0.0, 0.0), 1.0, 0, Point(0.0, 0.0, 0.0))

  const MAX_MOVE_SPEED := 10.0
  const ATTACK_RANGE := 2.5
  const ATTACK_RANGE_TOLERANCE := 1.0
  const ATTACK_DAMAGE := 10
  const ATTACK_COOLDOWN := 0.5
  const MONSTER_ATTACK_COOLDOWN := 1.5
  const SKILL_MAX_TARGETS := 8
  const REGEN_INTERVAL := 1.0
  const HP_REGEN := 1
  const MP_REGEN := 2
  const AUTOSAVE_INTERVAL := 10.0
  const AUTOSAVE_SLICES := 6

  // A packet that would exceed 65535 bytes is not built: this many 89-byte player entries, or 32-byte monster entries,
  // fit after the 20-byte client header and the 6-byte list header.
  const MAX_PLAYER_INFOS := (0xFFFF - 20 - 6) / 89
  const MAX_MONSTER_INFOS := (0xFFFF - 20 - 6) / 32
}

/** The jobs a zone runs, one after the other. */
module ZoneJobs {
  import opened Options
  import opened WorldTypes

  // MoveTo holds None for coordinates that are not finite.
  datatype ClientPacket =
    | ReadyToSpawn(player: PlayerId)
    | MoveTo(target: Option<Pos>)
    | UsePortal(portal: nat)
    | Attack(atMonster: bool, uid: MonsterId)
    | ReviveMe
    | CastSkill(skill: nat, atMonster: bool, uid: MonsterId)
    | Malformed

  datatype Job =
    | FromClient(session: SessionId, packet: ClientPacket)
    | Disconnected(session: SessionId)
    | SpawnRow(session: SessionId, player: PlayerId, row: Option<PlayerState>, born: real)
    | PortalSaved(session: SessionId, player: PlayerId, nextZone: nat, ok: bool)
    | Tick
    | ClearZone
    | CloseZone

  datatype TimedJob = TimedJob(job: Job, now: real)

  // The database numbers players from 1.
  predicate RowIsReal(job: Job) {
    job.SpawnRow? && job.row.Some? ==> 0 < job.player
  }

  // Jobs run at times that never go back.
  predicate InOrder(start: real, jobs: seq<TimedJob>)
    decreases |jobs|
  {
    jobs == [] || (start <= jobs[0].now && InOrder(jobs[0].now, jobs[1..]))
  }
}
