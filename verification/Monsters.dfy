/** A monster: its record, what each of its operations does to the record, and the bounds the zone relies on. */
module Monsters {
  import opened Options
  import opened WorldTypes
  import opened Geometry

  // No tick counts for longer than this.
  const MAX_TICK_DT := 0.5

  datatype MonsterDataRow = MonsterDataRow(
    maxHp: int, attack: int, moveSpeed: real, aggroRange: Range, attackRange: real, rewardGroup: nat, respawnSec: nat)

  // What the template loader accepts.
  type MonsterData = d: MonsterDataRow |
      d.maxHp > 0 && d.attack >= 0 && d.moveSpeed >= 0.0 && d.attackRange > 0.0 && d.aggroRange >= d.attackRange
    witness MonsterDataRow(1, 0, 0.0, 1.0, 1.0, 0, 0)

  datatype Phase = Idle | Chase | Return | Dead

  datatype MonsterRecord = MonsterRecord(
    data: MonsterData, spawn: Pos, pos: Pos, hp: int, phase: Phase, target: PlayerId, respawnAt: real, lastAttack: real)

  datatype Moved = Moved(m: MonsterRecord, moved: bool)
  datatype Hit = Hit(m: MonsterRecord, applied: int)

  function New(data: MonsterData, at: Pos): MonsterRecord {
    MonsterRecord(data, at, at, data.maxHp, Idle, 0, 0.0, 0.0)
  }

  function StartChase(m: MonsterRecord, player: PlayerId): MonsterRecord { m.(phase := Chase, target := player) }
  function StartReturn(m: MonsterRecord): MonsterRecord { m.(phase := Return, target := 0) }
  function SetIdle(m: MonsterRecord): MonsterRecord { m.(phase := Idle, target := 0) }

  function TryUseAttack(m: MonsterRecord, now: real, cooldown: real): Moved {
    if now - m.lastAttack < cooldown then Moved(m, false) else Moved(m.(lastAttack := now), true)
  }

  // Up to `step` toward t, stopping `stopDist` short of it.
  function MoveToward(m: MonsterRecord, t: Pos, step: real, stopDist: real, sqrt: real -> real): Moved
    requires IsSqrt(sqrt) && stopDist >= 0.0
  {
    var dist := sqrt(DistSq(m.pos, t));
    var remain := dist - stopDist;
    if remain <= 0.0 || step <= 0.0 then Moved(m, false)
    else
      var ratio := Min(step, remain) / dist;
      RatioIsFraction(Min(step, remain), dist);
      TowardStaysInWorld(m.pos, t, ratio);
      Moved(m.(pos := Toward(m.pos, t, ratio)), true)
  }

  function TakeDamage(m: MonsterRecord, damage: int): Hit {
    if m.phase.Dead? || damage <= 0 then Hit(m, 0)
    else
      var applied := if damage < m.hp then damage else m.hp;
      Hit(m.(hp := m.hp - applied), applied)
  }

  function Die(m: MonsterRecord, now: real): MonsterRecord {
    m.(hp := 0, phase := Dead, target := 0, respawnAt := now + m.data.respawnSec as real)
  }

  predicate CanRespawn(m: MonsterRecord, now: real) { m.phase.Dead? && now >= m.respawnAt }

  function Respawn(m: MonsterRecord): MonsterRecord {
    SetIdle(m.(pos := m.spawn, hp := m.data.maxHp))
  }

  predicate IsHome(m: MonsterRecord) { IsWithin(m.pos, m.spawn, 0.1) }
  predicate InLeash(m: MonsterRecord) { IsWithin(m.pos, m.spawn, 30.0) }

  // Home: idle again, and healed.
  function Arrived(m: MonsterRecord): MonsterRecord {
    if IsHome(m) then SetIdle(m).(hp := m.data.maxHp) else m
  }

  // One tick of a returning monster that may go up to `step`.
  function ReturnTick(m: MonsterRecord, step: real, sqrt: real -> real): MonsterRecord
    requires IsSqrt(sqrt)
  {
    Arrived(MoveToward(m, m.spawn, step, 0.0, sqrt).m)
  }

  // Hit by a player; an idle monster goes after whoever hit it.
  function Attacked(m: MonsterRecord, damage: int, attacker: PlayerId): MonsterRecord {
    var h := TakeDamage(m, damage).m;
    if h.phase.Idle? then StartChase(h, attacker) else h
  }

  // What the job that hit it leaves of it: a monster without hit points is dead.
  function Survived(h: MonsterRecord, now: real): MonsterRecord {
    if h.hp <= 0 then Die(h, now) else h
  }

  // ------------------------------------------------------------------------------------------------ bounds

  // How far it may go in dt seconds.
  function StepOf(m: MonsterRecord, dt: real): real {
    m.data.moveSpeed * dt
  }

  function LeashBound(data: MonsterData): real {
    30.0 + Reach(data)
  }

  // How far it may go in one tick.
  function Reach(data: MonsterData): real {
    data.moveSpeed * 0.5
  }

  // Where a monster may be, by what it is doing, and the hit points it may have, within a job and between two jobs.
  ghost predicate Sound(m: MonsterRecord) {
    Placed(m) && (!m.phase.Dead? ==> m.hp >= 1)
  }

  ghost predicate Placed(m: MonsterRecord) {
    && 0 <= m.hp <= m.data.maxHp && (m.phase.Dead? ==> m.hp == 0)
    && (m.phase.Idle? ==> IsHome(m))
    && IsWithin(m.pos, m.spawn, LeashBound(m.data))
  }

  lemma RatioIsFraction(a: real, b: real)
    requires 0.0 < a <= b
    ensures 0.0 <= a / b <= 1.0
  {
  }

  lemma FractionTimes(a: real, b: real, d: real)
    requires b != 0.0 && d == b * b
    ensures d * ((a / b) * (a / b)) == a * a
    ensures d * ((1.0 - a / b) * (1.0 - a / b)) == (b - a) * (b - a)
  {
    RatioParts(a / b, a, b, d);
  }

  lemma RatioParts(r: real, a: real, b: real, d: real)
    requires r * b == a && d == b * b
    ensures d * (r * r) == a * a && d * ((1.0 - r) * (1.0 - r)) == (b - a) * (b - a)
  {
    SameTimes(d, b * b, r * r);
    SameSquare(r * b, a);
    SameTimes(d, b * b, (1.0 - r) * (1.0 - r));
    SameSquare(b - r * b, b - a);
  }

  // A move covers exactly min(step, remain) and leaves the rest of the way.
  lemma MoveCovers(m: MonsterRecord, t: Pos, step: real, stopDist: real, sqrt: real -> real)
    requires IsSqrt(sqrt) && stopDist >= 0.0
    ensures var r := MoveToward(m, t, step, stopDist, sqrt);
            var dist := sqrt(DistSq(m.pos, t));
            && r.m == m.(pos := r.m.pos)
            && (r.moved <==> dist > stopDist && step > 0.0)
            && (r.moved ==> var move := Min(step, dist - stopDist);
                 DistSq(m.pos, r.m.pos) == move * move && DistSq(r.m.pos, t) == (dist - move) * (dist - move))
  {
    hide DistSq, Toward, InWorld;
    var dist := sqrt(DistSq(m.pos, t));
    if dist > stopDist && step > 0.0 {
      var move := Min(step, dist - stopDist);
      TowardDistances(m.pos, t, move / dist);
      FractionTimes(move, dist, DistSq(m.pos, t));
    }
  }

  // A chase starts a tick inside the leash and moves at most `reach`.
  lemma ChaseKeepsLeash(m: MonsterRecord, t: Pos, step: real, reach: real, stopDist: real, sqrt: real -> real)
    requires IsSqrt(sqrt) && stopDist >= 0.0 && 0.0 <= reach && step <= reach
    requires InLeash(m)
    ensures var n := MoveToward(m, t, step, stopDist, sqrt).m; IsWithin(n.pos, n.spawn, reach + 30.0)
  {
    var n := MoveToward(m, t, step, stopDist, sqrt);
    MoveCovers(m, t, step, stopDist, sqrt);
    if n.moved {
      SquaresOrder(Min(step, sqrt(DistSq(m.pos, t)) - stopDist), reach);
      Symmetric(n.m.pos, m.pos);
      Triangle(n.m.pos, m.pos, m.spawn, reach, 30.0);
    } else {
      WithinMore(m.pos, m.spawn, 30.0, reach + 30.0);
    }
  }

  lemma StepIsBounded(m: MonsterRecord, dt: real)
    requires 0.0 <= dt <= MAX_TICK_DT
    ensures 0.0 <= StepOf(m, dt) <= Reach(m.data)
  {
    NonNegative(m.data.moveSpeed, dt);
    NonNegative(m.data.moveSpeed, 0.5 - dt);
  }

  lemma SqrtIsUnique(sqrt: real -> real, d: real, root: real)
    requires IsSqrt(sqrt) && root >= 0.0 && d == root * root
    ensures sqrt(d) == root
  {
    NonNegative(root, root);
    SquaresOrder(sqrt(d), root);
    SquaresOrder(root, sqrt(d));
  }

  function HomeDistance(m: MonsterRecord, sqrt: real -> real): real {
    sqrt(DistSq(m.pos, m.spawn))
  }

  lemma HomeAfterMove(m: MonsterRecord, step: real, sqrt: real -> real)
    requires IsSqrt(sqrt) && step >= 0.0
    ensures var n, home := MoveToward(m, m.spawn, step, 0.0, sqrt).m, HomeDistance(m, sqrt);
            HomeDistance(n, sqrt) == (if step >= home then 0.0 else home - step) && n == m.(pos := n.pos)
  {
    var n, home := MoveToward(m, m.spawn, step, 0.0, sqrt), HomeDistance(m, sqrt);
    MoveCovers(m, m.spawn, step, 0.0, sqrt);
    if n.moved {
      SqrtIsUnique(sqrt, DistSq(n.m.pos, m.spawn), home - Min(step, home));
    }
  }

  // A returning monster comes closer by a whole step, or arrives; when it is within epsilon it is idle at full health.
  lemma ReturnTickShrinks(m: MonsterRecord, step: real, sqrt: real -> real)
    requires IsSqrt(sqrt) && m.phase.Return? && step >= 0.0
    ensures var n := ReturnTick(m, step, sqrt);
            && n.data == m.data && n.spawn == m.spawn
            && HomeDistance(n, sqrt) == (if step >= HomeDistance(m, sqrt) then 0.0 else HomeDistance(m, sqrt) - step)
            && (if HomeDistance(n, sqrt) <= 0.1 then n.phase.Idle? && n.hp == n.data.maxHp
                else n.phase.Return? && n.hp == m.hp)
  {
    var n := MoveToward(m, m.spawn, step, 0.0, sqrt).m;
    HomeAfterMove(m, step, sqrt);
    WithinIsDistance(n.pos, n.spawn, 0.1, sqrt);
  }

  lemma ReturnTickComesNoFarther(m: MonsterRecord, step: real, sqrt: real -> real)
    requires IsSqrt(sqrt) && m.phase.Return? && step >= 0.0
    ensures var n := ReturnTick(m, step, sqrt);
            forall r | IsWithin(m.pos, m.spawn, r) :: IsWithin(n.pos, n.spawn, r)
  {
    ReturnTickShrinks(m, step, sqrt);
    SquaresOrder(HomeDistance(ReturnTick(m, step, sqrt), sqrt), HomeDistance(m, sqrt));
  }

  lemma ReturnTickKeepsSound(m: MonsterRecord, step: real, sqrt: real -> real)
    requires IsSqrt(sqrt) && Sound(m) && m.phase.Return? && step >= 0.0
    ensures Sound(ReturnTick(m, step, sqrt))
  {
    ReturnTickComesNoFarther(m, step, sqrt);
    HomeAfterMove(m, step, sqrt);
  }

  lemma ReturnMoveKeepsSound(m: MonsterRecord, step: real, sqrt: real -> real)
    requires IsSqrt(sqrt) && Sound(m) && m.phase.Return? && step >= 0.0
    ensures Sound(MoveToward(m, m.spawn, step, 0.0, sqrt).m)
  {
    var n := MoveToward(m, m.spawn, step, 0.0, sqrt).m;
    HomeAfterMove(m, step, sqrt);
    SquaresOrder(HomeDistance(n, sqrt), HomeDistance(m, sqrt));
  }

  // Within reach and off cooldown, it hits.
  function Struck(m: MonsterRecord, target: Pos, now: real, cooldown: real): Moved {
    if IsWithin(m.pos, target, m.data.attackRange) then TryUseAttack(m, now, cooldown) else Moved(m, false)
  }

  // It stops a little inside its reach.
  function StopDist(m: MonsterRecord): (d: real)
    ensures d > 0.0
  {
    m.data.attackRange * 0.9
  }

  // One tick of a chasing monster whose target stands at `target`; the flag says that it strikes.
  function ChaseTick(m: MonsterRecord, target: Option<Pos>, step: real, now: real, cooldown: real,
      sqrt: real -> real): Moved
    requires IsSqrt(sqrt)
  {
    if !InLeash(m) || target.None? then Moved(StartReturn(m), false)
    else Struck(MoveToward(m, target.value, step, StopDist(m), sqrt).m, target.value, now, cooldown)
  }

  lemma ChaseTickInLeash(m: MonsterRecord, target: Pos, step: real, now: real, cooldown: real, sqrt: real -> real)
    requires IsSqrt(sqrt) && InLeash(m)
    ensures ChaseTick(m, Some(target), step, now, cooldown, sqrt)
         == Struck(MoveToward(m, target, step, StopDist(m), sqrt).m, target, now, cooldown)
  {
  }

  // Outside its leash, or with nobody to go for, a chasing monster turns back where it is. Otherwise it comes nearer by
  // a whole step or to where it stops, and strikes exactly if it is then within its reach and its cooldown is over.
  lemma ChaseTickIsExact(m: MonsterRecord, target: Option<Pos>, step: real, now: real, cooldown: real,
      sqrt: real -> real)
    requires IsSqrt(sqrt)
    ensures var r := ChaseTick(m, target, step, now, cooldown, sqrt);
            if target.None? || !IsWithin(m.pos, m.spawn, 30.0)
            then !r.moved && r.m == m.(phase := Return, target := 0)
            else
              var dist := sqrt(DistSq(m.pos, target.value));
              var stop := m.data.attackRange * 0.9;
              var left := if dist <= stop || step <= 0.0 then dist
                          else if dist - step > stop then dist - step else stop;
              && sqrt(DistSq(r.m.pos, target.value)) == left
              && (r.moved <==> left <= m.data.attackRange && now - m.lastAttack >= cooldown)
              && r.m == m.(pos := r.m.pos, lastAttack := if r.moved then now else m.lastAttack)
  {
    hide DistSq, MoveToward;
    if target.Some? && InLeash(m) {
      var dist, stop := sqrt(DistSq(m.pos, target.value)), StopDist(m);
      var n := MoveToward(m, target.value, step, stop, sqrt);
      MoveCovers(m, target.value, step, stop, sqrt);
      if n.moved {
        SqrtIsUnique(sqrt, DistSq(n.m.pos, target.value), dist - Min(step, dist - stop));
      } else {
        UnmovedStays(m, target.value, step, stop, sqrt);
      }
      WithinIsDistance(n.m.pos, target.value, m.data.attackRange, sqrt);
    }
  }

  lemma UnmovedStays(m: MonsterRecord, t: Pos, step: real, stopDist: real, sqrt: real -> real)
    requires IsSqrt(sqrt) && stopDist >= 0.0 && !MoveToward(m, t, step, stopDist, sqrt).moved
    ensures MoveToward(m, t, step, stopDist, sqrt).m == m
  {
  }

  // However long the chase, it ends within the leash plus one tick's reach.
  lemma ChaseMoveKeepsSound(m: MonsterRecord, target: Pos, step: real, sqrt: real -> real)
    requires IsSqrt(sqrt) && Sound(m) && m.phase.Chase? && 0.0 <= step <= Reach(m.data)
    requires InLeash(m)
    ensures Sound(MoveToward(m, target, step, StopDist(m), sqrt).m)
  {
    var n := MoveToward(m, target, step, StopDist(m), sqrt).m;
    ChaseKeepsLeash(m, target, step, Reach(m.data), StopDist(m), sqrt);
    MoveChangesPlace(m, target, step, StopDist(m), sqrt);
    ChasingIsSound(m, n.pos);
  }

  lemma MoveChangesPlace(m: MonsterRecord, target: Pos, step: real, stopDist: real, sqrt: real -> real)
    requires IsSqrt(sqrt) && stopDist >= 0.0
    ensures var n := MoveToward(m, target, step, stopDist, sqrt).m; n == m.(pos := n.pos)
  {
  }

  lemma ChasingIsSound(m: MonsterRecord, at: Pos)
    requires Sound(m) && m.phase.Chase? && IsWithin(at, m.spawn, LeashBound(m.data))
    ensures Sound(m.(pos := at))
  {
  }

  lemma ChaseTickKeepsSound(m: MonsterRecord, target: Option<Pos>, step: real, now: real, cooldown: real,
      sqrt: real -> real)
    requires IsSqrt(sqrt) && Sound(m) && m.phase.Chase? && 0.0 <= step <= Reach(m.data)
    ensures Sound(ChaseTick(m, target, step, now, cooldown, sqrt).m)
  {
    if target.Some? && InLeash(m) {
      ChaseMoveKeepsSound(m, target.value, step, sqrt);
    }
  }

  lemma AtSpawn(p: Point, r: real)
    requires r >= 0.0
    ensures IsWithin(p, p, r)
  {
    NonNegative(r, r);
  }

  // A hit takes the damage off, never below zero; an idle monster goes after the attacker, any other keeps what it
  // does.
  lemma AttackedReacts(m: MonsterRecord, damage: int, attacker: PlayerId)
    requires m.hp >= 0 && !m.phase.Dead? && damage > 0
    ensures var h := Attacked(m, damage, attacker);
            && h.hp == (if m.hp > damage then m.hp - damage else 0)
            && (m.phase.Idle? ==> h.phase.Chase? && h.target == attacker)
            && (!m.phase.Idle? ==> h.phase == m.phase && h.target == m.target)
            && h.pos == m.pos && h.spawn == m.spawn && h.data == m.data
  {
  }

  // An attack succeeds when the last one is a cooldown ago, so two that succeed are at least that far apart.
  lemma AttacksAreSpaced(m: MonsterRecord, first: real, second: real, cooldown: real)
    ensures TryUseAttack(m, first, cooldown).moved <==> first - m.lastAttack >= cooldown
    ensures TryUseAttack(m, first, cooldown).moved ==>
              (TryUseAttack(TryUseAttack(m, first, cooldown).m, second, cooldown).moved <==>
               second >= first + cooldown)
  {
  }

  // The dead stay dead for exactly the time of their kind.
  lemma RespawnsAfterItsTime(m: MonsterRecord, died: real, now: real)
    ensures CanRespawn(Die(m, died), now) <==> now >= died + m.data.respawnSec as real
    ensures var r := Respawn(Die(m, died)); r.phase.Idle? && r.pos == m.spawn && r.hp == m.data.maxHp && r.target == 0
  {
  }

  lemma RespawnIsSound(m: MonsterRecord)
    ensures Sound(Respawn(m))
  {
    AtSpawn(m.spawn, LeashBound(m.data));
    AtSpawn(m.spawn, 0.1);
  }

  lemma SurvivedIsSound(m: MonsterRecord, damage: int, attacker: PlayerId, now: real)
    requires Sound(m) && !m.phase.Dead?
    ensures var h := Attacked(m, damage, attacker);
            && Placed(h) && !h.phase.Dead? && h.pos == m.pos
            && Sound(Survived(h, now))
            && (Survived(h, now).phase.Dead? <==> damage >= m.hp)
  {
  }

  // What one tick may make of a monster that may go up to `step`.
  ghost predicate Ticked(m: MonsterRecord, n: MonsterRecord, step: real, now: real, cooldown: real, sqrt: real -> real)
    requires IsSqrt(sqrt)
  {
    match m.phase
    case Dead => n == if CanRespawn(m, now) then Respawn(m) else m
    case Idle => n == m || exists p :: n == StartChase(m, p)
    case Chase => exists t :: n == ChaseTick(m, t, step, now, cooldown, sqrt).m
    case Return => n == ReturnTick(m, step, sqrt)
  }

  lemma TickSpares(m: MonsterRecord, n: MonsterRecord, step: real, now: real, cooldown: real, sqrt: real -> real)
    requires IsSqrt(sqrt) && !m.phase.Dead? && Ticked(m, n, step, now, cooldown, sqrt)
    ensures !n.phase.Dead?
  {
  }

  lemma IdleTicked(m: MonsterRecord, p: PlayerId, step: real, now: real, cooldown: real, sqrt: real -> real)
    requires IsSqrt(sqrt) && m.phase.Idle?
    ensures Ticked(m, m, step, now, cooldown, sqrt) && Ticked(m, StartChase(m, p), step, now, cooldown, sqrt)
  {
  }

  lemma ChaseTicked(m: MonsterRecord, t: Option<Pos>, step: real, now: real, cooldown: real, sqrt: real -> real)
    requires IsSqrt(sqrt) && m.phase.Chase?
    ensures Ticked(m, ChaseTick(m, t, step, now, cooldown, sqrt).m, step, now, cooldown, sqrt)
  {
  }

  // Damage never exceeds the hit points left, and only a living monster takes any: hit points lost equal damage dealt.
  lemma DamageIsConserved(m: MonsterRecord, damage: int)
    requires m.phase.Dead? || m.hp >= 0
    ensures var h := TakeDamage(m, damage);
            && m.hp == h.m.hp + h.applied
            && h.applied == (if m.phase.Dead? || damage <= 0 then 0 else if damage < m.hp then damage else m.hp)
            && (!m.phase.Dead? ==> 0 <= h.m.hp && (h.m.hp == 0 <==> (m.hp == 0 || damage >= m.hp)))
            && h.m == m.(hp := h.m.hp)
  {
  }
}

/** The monster object the zone's shared pointers refer to: its methods update it in place as the record functions
    say. */
module MonsterObjects {
  import opened WorldTypes
  import opened Geometry
  import Monsters

  class Monster {
    const data: Monsters.MonsterData
    const spawn: Pos
    var pos: Pos
    var hp: int
    var phase: Monsters.Phase
    var target: PlayerId
    var respawnAt: real
    var lastAttack: real

    function View(): Monsters.MonsterRecord
      reads this
    {
      Monsters.MonsterRecord(data, spawn, pos, hp, phase, target, respawnAt, lastAttack)
    }

    constructor (data: Monsters.MonsterData, at: Pos)
      ensures View() == Monsters.New(data, at) && Monsters.Sound(View())
    {
      this.data, spawn, pos := data, at, at;
      hp, phase, target, respawnAt, lastAttack := data.maxHp, Monsters.Idle, 0, 0.0, 0.0;
      new;
      Monsters.AtSpawn(spawn, Monsters.LeashBound(data));
      Monsters.AtSpawn(spawn, 0.1);
    }

    method MoveToward(t: Pos, step: real, stopDist: real, sqrt: real -> real) returns (moved: bool)
      requires IsSqrt(sqrt) && stopDist >= 0.0
      modifies this`pos
      ensures Monsters.Moved(View(), moved) == Monsters.MoveToward(old(View()), t, step, stopDist, sqrt)
    {
      var dist := sqrt(DistSq(pos, t));
      var remain := dist - stopDist;
      if remain <= 0.0 || step <= 0.0 {
        return false;
      }
      var move := Min(step, remain);
      var ratio := move / dist;
      Monsters.RatioIsFraction(move, dist);
      TowardStaysInWorld(pos, t, ratio);
      pos := Toward(pos, t, ratio);
      return true;
    }

    method TakeDamage(damage: int) returns (applied: int)
      modifies this`hp
      ensures Monsters.Hit(View(), applied) == Monsters.TakeDamage(old(View()), damage)
    {
      if phase.Dead? || damage <= 0 {
        return 0;
      }
      applied := if damage < hp then damage else hp;
      hp := hp - applied;
    }

    method Die(now: real)
      modifies this
      ensures View() == Monsters.Die(old(View()), now)
    {
      hp := 0;
      phase := Monsters.Dead;
      target := 0;
      respawnAt := now + data.respawnSec as real;
    }

    method Respawn()
      modifies this
      ensures View() == Monsters.Respawn(old(View()))
      ensures Monsters.Sound(View())
    {
      pos := spawn;
      hp := data.maxHp;
      phase, target := Monsters.Idle, 0;
      Monsters.AtSpawn(spawn, Monsters.LeashBound(data));
      Monsters.AtSpawn(spawn, 0.1);
    }

    method ResetHp() returns (changed: bool)
      modifies this`hp
      ensures View() == old(View()).(hp := data.maxHp)
      ensures changed <==> old(hp) != data.maxHp
    {
      if hp == data.maxHp {
        return false;
      }
      hp := data.maxHp;
      return true;
    }

    method TryUseAttack(now: real, cooldown: real) returns (used: bool)
      modifies this`lastAttack
      ensures Monsters.Moved(View(), used) == Monsters.TryUseAttack(old(View()), now, cooldown)
    {
      if now - lastAttack < cooldown {
        return false;
      }
      lastAttack := now;
      return true;
    }
  }
}
