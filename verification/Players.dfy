/** A player: its record, what each of its operations does to the record, and how far it can get. */
module Players {
  import opened Options
  import opened WorldTypes
  import opened Geometry

  datatype PlayerRecord = PlayerRecord(
    session: SessionId, state: PlayerState, lastSaved: PlayerState,
    budget: real, lastMove: real, lastAttack: real, skillReady: map<nat, real>, maxHp: int, maxMp: int)

  datatype CostType = NoCost | HpCost | MpCost

  datatype Tried = Tried(p: PlayerRecord, ok: bool)
  datatype Hit = Hit(p: PlayerRecord, applied: int)

  // maxHp_ and maxMp_ start at 1 and 0 until stats are wired in.
  function New(session: SessionId, state: PlayerState, now: real): PlayerRecord {
    PlayerRecord(session, state, state, 0.0, now, 0.0, map[], 1, 0)
  }

  predicate IsDead(p: PlayerRecord) { p.state.hp <= 0 }

  // The movement token bucket. A target that is not finite is refused before the clock is touched.
  function TryMove(p: PlayerRecord, target: Option<Pos>, now: real, maxSpeed: real, sqrt: real -> real): Tried {
    if target.None? then Tried(p, false)
    else
      var filled := Filled(p.budget, p.lastMove, now, maxSpeed);
      var dist := sqrt(DistSq(p.state.pos, target.value));
      if dist > filled then Tried(p.(lastMove := now, budget := filled), false)
      else Tried(p.(lastMove := now, budget := filled - dist, state := p.state.(pos := target.value)), true)
  }

  function TakeDamage(p: PlayerRecord, damage: int): Hit {
    if IsDead(p) || damage <= 0 then Hit(p, 0)
    else
      var applied := if damage < p.state.hp then damage else p.state.hp;
      Hit(p.(state := p.state.(hp := p.state.hp - applied)), applied)
  }

  function Revive(p: PlayerRecord, at: Pos, hp: int): PlayerRecord {
    p.(state := p.state.(pos := at, hp := hp))
  }

  function Rewarded(p: PlayerRecord, exp: nat): PlayerRecord {
    p.(state := p.state.(exp := p.state.exp + exp))
  }

  function AtMost(a: int, b: int): int { if b < a then b else a }

  function Regen(p: PlayerRecord, hp: int, mp: int): Tried {
    if IsDead(p) then Tried(p, false)
    else
      var state := p.state.(hp := AtMost(p.state.hp + hp, p.maxHp), mp := AtMost(p.state.mp + mp, p.maxMp));
      Tried(p.(state := state), state != p.state)
  }

  predicate CanPay(p: PlayerRecord, cost: CostType, amount: int) {
    match cost
    case NoCost => true
    case HpCost => p.state.hp > amount
    case MpCost => p.state.mp >= amount
  }

  function TrySpendSkill(p: PlayerRecord, cost: CostType, amount: int): Tried {
    if !CanPay(p, cost, amount) then Tried(p, false)
    else match cost
      case NoCost => Tried(p, true)
      case HpCost => Tried(p.(state := p.state.(hp := p.state.hp - amount)), true)
      case MpCost => Tried(p.(state := p.state.(mp := p.state.mp - amount)), true)
  }

  function TryUseAttack(p: PlayerRecord, now: real, cooldown: real): Tried {
    if now - p.lastAttack < cooldown then Tried(p, false) else Tried(p.(lastAttack := now), true)
  }

  predicate SkillReady(p: PlayerRecord, skill: nat, now: real) {
    skill in p.skillReady ==> now >= p.skillReady[skill]
  }

  function StartSkillCooldown(p: PlayerRecord, skill: nat, now: real, cooldown: real): PlayerRecord {
    p.(skillReady := p.skillReady[skill := now + cooldown])
  }

  // True at most once per change: what it reports as changed becomes the last saved state.
  function ConsumeChanged(p: PlayerRecord): Tried {
    if p.state == p.lastSaved then Tried(p, false) else Tried(p.(lastSaved := p.state), true)
  }

  // A player begins with an empty bucket, nothing to save, and every skill ready.
  lemma NewIsFresh(session: SessionId, state: PlayerState, born: real, skill: nat, now: real)
    ensures var p := New(session, state, born);
            && p.session == session && p.state == state && p.budget == 0.0 && p.lastMove == born
            && !ConsumeChanged(p).ok && SkillReady(p, skill, now)
  {
  }

  // A reward adds up, and is all that changes.
  lemma RewardAdds(p: PlayerRecord, a: nat, b: nat)
    ensures var q := Rewarded(p, a); q.state.exp == p.state.exp + a && q == p.(state := q.state)
    ensures Rewarded(p, a).state == p.state.(exp := Rewarded(p, a).state.exp)
    ensures Rewarded(Rewarded(p, a), b) == Rewarded(p, a + b)
  {
  }

  // A move is accepted exactly when the way fits what the bucket held plus what time has added, and a second's worth.
  // Accepted or not, the request takes the clock on, and only an accepted one takes the player anywhere.
  lemma MoveAcceptedExactly(p: PlayerRecord, target: Pos, now: real, maxSpeed: real, sqrt: real -> real)
    ensures var t, way := TryMove(p, Some(target), now, maxSpeed, sqrt), sqrt(DistSq(p.state.pos, target));
            && (t.ok <==> way <= p.budget + maxSpeed * (now - p.lastMove) && way <= maxSpeed)
            && t.p.state == (if t.ok then p.state.(pos := target) else p.state) && t.p.lastMove == now
            && t.p == p.(state := t.p.state, lastMove := now, budget := t.p.budget)
            && t.p.budget == Min(p.budget + maxSpeed * (now - p.lastMove), maxSpeed) - (if t.ok then way else 0.0)
  {
  }

  // Revived: where it should be, alive and whole, and otherwise as it was.
  lemma ReviveIsFull(p: PlayerRecord, at: Pos)
    requires p.maxHp > 0
    ensures var r := Revive(p, at, p.maxHp);
            && !IsDead(r) && r.state.hp == r.maxHp == p.maxHp && r.state.pos == at
            && r.state.mp == p.state.mp && r.state.exp == p.state.exp && r == p.(state := r.state)
  {
  }

  // A skill takes its cost from the one store it is paid with, and nothing when it cannot be paid: a cost in hit points
  // must leave one, a cost in mana may take the last.
  lemma SpendingIsExact(p: PlayerRecord, cost: CostType, amount: int)
    requires amount >= 0
    ensures var t := TrySpendSkill(p, cost, amount);
            && (t.ok <==> (cost.HpCost? ==> p.state.hp - amount >= 1) && (cost.MpCost? ==> p.state.mp - amount >= 0))
            && p.state.hp - t.p.state.hp == (if t.ok && cost.HpCost? then amount else 0)
            && p.state.mp - t.p.state.mp == (if t.ok && cost.MpCost? then amount else 0)
            && t.p == p.(state := p.state.(hp := t.p.state.hp, mp := t.p.state.mp))
  {
  }

  // Regeneration raises a living player up to its maxima, and the dead not at all.
  lemma RegenIsBounded(p: PlayerRecord, hp: int, mp: int)
    requires hp >= 0 && mp >= 0 && p.state.hp <= p.maxHp && p.state.mp <= p.maxMp
    ensures var t := Regen(p, hp, mp);
            && (IsDead(p) ==> t.p == p)
            && p.state.hp <= t.p.state.hp <= p.maxHp && p.state.mp <= t.p.state.mp <= p.maxMp
            && (!IsDead(p) ==> t.p.state.hp == p.state.hp + hp || t.p.state.hp == p.maxHp)
            && (!IsDead(p) ==> t.p.state.mp == p.state.mp + mp || t.p.state.mp == p.maxMp)
            && (t.ok <==> t.p != p) && t.p == p.(state := p.state.(hp := t.p.state.hp, mp := t.p.state.mp))
  {
  }

  // Paying a skill with hit points never kills.
  lemma SpendingKeepsAlive(p: PlayerRecord, cost: CostType, amount: int)
    requires !IsDead(p) && amount >= 0
    ensures !IsDead(TrySpendSkill(p, cost, amount).p)
    ensures TrySpendSkill(p, cost, amount).ok <==> CanPay(p, cost, amount)
  {
  }

  lemma AttacksAreSpaced(p: PlayerRecord, first: real, second: real, cooldown: real)
    ensures TryUseAttack(p, first, cooldown).ok <==> first - p.lastAttack >= cooldown
    ensures TryUseAttack(p, first, cooldown).ok ==>
              (TryUseAttack(TryUseAttack(p, first, cooldown).p, second, cooldown).ok <==> second >= first + cooldown)
  {
  }

  // A skill comes back when its own cooldown is over, whatever other skills are used meanwhile.
  lemma SkillsAreSpaced(p: PlayerRecord, skill: nat, other: nat, start: real, cooldown: real, otherCooldown: real,
      now: real)
    requires other != skill
    ensures var q := StartSkillCooldown(StartSkillCooldown(p, skill, start, cooldown), other, start, otherCooldown);
            (SkillReady(q, skill, now) <==> now >= start + cooldown)
  {
  }

  // Damage never exceeds the hit points left: what a player loses is what was dealt.
  lemma DamageIsConserved(p: PlayerRecord, damage: int)
    ensures var h := TakeDamage(p, damage);
            && p.state.hp == h.p.state.hp + h.applied && h.p == p.(state := p.state.(hp := h.p.state.hp))
            && h.applied == (if IsDead(p) || damage <= 0 then 0 else AtMost(damage, p.state.hp))
            && (!IsDead(p) && damage > 0 ==> (IsDead(h.p) <==> damage >= p.state.hp) && h.p.state.hp >= 0)
  {
  }

  // ------------------------------------------------------------------------------------------------ speed bound

  datatype MoveCall = MoveCall(now: real, target: Option<Pos>)

  // The player after a list of move requests, accepted and rejected.
  function RunMoves(p: PlayerRecord, calls: seq<MoveCall>, maxSpeed: real, sqrt: real -> real): PlayerRecord
    decreases |calls|
  {
    if calls == [] then p
    else RunMoves(TryMove(p, calls[0].target, calls[0].now, maxSpeed, sqrt).p, calls[1..], maxSpeed, sqrt)
  }

  // The length of the path it was allowed to take.
  function Path(p: PlayerRecord, calls: seq<MoveCall>, maxSpeed: real, sqrt: real -> real): real
    decreases |calls|
  {
    if calls == [] then 0.0
    else
      var t := TryMove(p, calls[0].target, calls[0].now, maxSpeed, sqrt);
      (if t.ok then sqrt(DistSq(p.state.pos, calls[0].target.value)) else 0.0)
      + Path(t.p, calls[1..], maxSpeed, sqrt)
  }

  // The calls come at non-decreasing times, none before `start` and none after `end`.
  predicate Within(start: real, calls: seq<MoveCall>, end: real)
    decreases |calls|
  {
    if calls == [] then start <= end else start <= calls[0].now && Within(calls[0].now, calls[1..], end)
  }

  lemma {:induction false} WithinOrders(start: real, calls: seq<MoveCall>, end: real)
    requires Within(start, calls, end)
    ensures start <= end
    decreases |calls|
  {
    if calls != [] {
      WithinOrders(calls[0].now, calls[1..], end);
    }
  }

  // How far one comes in a time at a speed.
  function Far(speed: real, time: real): real {
    speed * time
  }

  lemma FarAdds(speed: real, a: real, b: real)
    ensures Far(speed, a + b) == Far(speed, a) + Far(speed, b)
  {
  }

  lemma FarForward(speed: real, time: real)
    requires speed >= 0.0 && time >= 0.0
    ensures Far(speed, time) >= 0.0
  {
    NonNegative(speed, time);
  }

  lemma FarInASecond(speed: real)
    ensures Far(speed, 1.0) == speed
  {
  }

  // What the bucket holds when a request comes: never more than one second's worth.
  function Filled(budget: real, last: real, now: real, maxSpeed: real): real {
    Min(budget + Far(maxSpeed, now - last), maxSpeed)
  }

  lemma Filling(budget: real, last: real, now: real, maxSpeed: real)
    requires maxSpeed >= 0.0 && budget >= 0.0 && last <= now
    ensures 0.0 <= Filled(budget, last, now, maxSpeed) <= maxSpeed
    ensures Filled(budget, last, now, maxSpeed) <= budget + Far(maxSpeed, now - last)
  {
    hide Far;
    FarForward(maxSpeed, now - last);
    MinBounds(budget, Far(maxSpeed, now - last), maxSpeed);
  }

  lemma MinBounds(a: real, b: real, c: real)
    requires a >= 0.0 && b >= 0.0 && c >= 0.0
    ensures 0.0 <= Min(a + b, c) <= c && Min(a + b, c) <= a + b
  {
  }

  // What one request spends of the bucket.
  function Spent(p: PlayerRecord, call: MoveCall, maxSpeed: real, sqrt: real -> real): real {
    if call.target.Some? && TryMove(p, call.target, call.now, maxSpeed, sqrt).ok
    then sqrt(DistSq(p.state.pos, call.target.value)) else 0.0
  }

  lemma MoveSpends(p: PlayerRecord, call: MoveCall, maxSpeed: real, sqrt: real -> real)
    requires maxSpeed >= 0.0 && p.budget >= 0.0 && p.lastMove <= call.now && call.target.Some?
    ensures var t, spent := TryMove(p, call.target, call.now, maxSpeed, sqrt).p, Spent(p, call, maxSpeed, sqrt);
            && t.budget + spent <= maxSpeed && t.budget + spent <= p.budget + Far(maxSpeed, call.now - p.lastMove)
            && t.budget >= 0.0 && t.lastMove == call.now
  {
    Filling(p.budget, p.lastMove, call.now, maxSpeed);
    hide Filled, Far, DistSq;
  }

  lemma PathUnfolds(p: PlayerRecord, calls: seq<MoveCall>, maxSpeed: real, sqrt: real -> real)
    requires calls != []
    ensures var t := TryMove(p, calls[0].target, calls[0].now, maxSpeed, sqrt).p;
            && Path(p, calls, maxSpeed, sqrt) == Spent(p, calls[0], maxSpeed, sqrt)
              + Path(t, calls[1..], maxSpeed, sqrt)
            && (calls[0].target.None? ==> t == p && Spent(p, calls[0], maxSpeed, sqrt) == 0.0)
  {
    hide Filled, DistSq;
  }

  // Distance used plus budget left never exceeds the budget at the start plus what time has added.
  lemma {:induction false} PathWithinBudget(
    p: PlayerRecord, last: real, calls: seq<MoveCall>, end: real, maxSpeed: real, sqrt: real -> real)
    requires maxSpeed >= 0.0 && p.budget >= 0.0 && last == p.lastMove && Within(last, calls, end)
    ensures Path(p, calls, maxSpeed, sqrt) <= p.budget + Far(maxSpeed, end - last)
    decreases |calls|
  {
    hide Far, TryMove, Spent, Filled;
    WithinOrders(last, calls, end);
    if calls == [] {
      FarForward(maxSpeed, end - last);
    } else {
      PathUnfolds(p, calls, maxSpeed, sqrt);
      hide Path;
      var call := calls[0];
      if call.target.None? {
        WithinFrom(last, call.now, calls[1..], end);
        PathWithinBudget(p, last, calls[1..], end, maxSpeed, sqrt);
      } else {
        MoveSpends(p, call, maxSpeed, sqrt);
        PathWithinBudget(TryMove(p, call.target, call.now, maxSpeed, sqrt).p, call.now, calls[1..], end, maxSpeed,
          sqrt);
        FarAdds(maxSpeed, call.now - last, end - call.now);
        assert call.now - last + (end - call.now) == end - last;
      }
    }
  }

  lemma WithinFrom(start: real, now: real, calls: seq<MoveCall>, end: real)
    requires start <= now && Within(now, calls, end)
    ensures Within(start, calls, end)
  {
  }

  // Measured from construction, a player moves at most maxSpeed times the time that has passed.
  lemma SpeedBoundFromConstruction(
    session: SessionId, state: PlayerState, start: real, calls: seq<MoveCall>, end: real, maxSpeed: real,
    sqrt: real -> real)
    requires maxSpeed >= 0.0 && Within(start, calls, end)
    ensures Path(New(session, state, start), calls, maxSpeed, sqrt) <= maxSpeed * (end - start)
  {
    PathWithinBudget(New(session, state, start), start, calls, end, maxSpeed, sqrt);
    hide TryMove, Path, Within;
  }

  // In any window of length T, whatever happened before it, at most maxSpeed * (T + 1): one second's worth is banked.
  lemma SpeedBoundInWindow(
    p: PlayerRecord, start: real, calls: seq<MoveCall>, end: real, maxSpeed: real, sqrt: real -> real)
    requires maxSpeed >= 0.0 && p.budget >= 0.0 && p.lastMove <= start && Within(start, calls, end)
    ensures Path(p, calls, maxSpeed, sqrt) <= maxSpeed * (end - start + 1.0)
  {
    FarInWindow(p, start, calls, end, maxSpeed, sqrt);
    hide TryMove, Path, Within;
  }

  lemma {:induction false} FarInWindow(
    p: PlayerRecord, start: real, calls: seq<MoveCall>, end: real, maxSpeed: real, sqrt: real -> real)
    requires maxSpeed >= 0.0 && p.budget >= 0.0 && p.lastMove <= start && Within(start, calls, end)
    ensures Path(p, calls, maxSpeed, sqrt) <= Far(maxSpeed, end - start + 1.0)
    decreases |calls|
  {
    hide Far, TryMove, Spent, Filled;
    WithinOrders(start, calls, end);
    if calls == [] {
      FarForward(maxSpeed, end - start + 1.0);
    } else {
      PathUnfolds(p, calls, maxSpeed, sqrt);
      hide Path;
      var call := calls[0];
      if call.target.None? {
        WithinFrom(start, call.now, calls[1..], end);
        FarInWindow(p, start, calls[1..], end, maxSpeed, sqrt);
      } else {
        MoveSpends(p, call, maxSpeed, sqrt);
        PathWithinBudget(TryMove(p, call.target, call.now, maxSpeed, sqrt).p, call.now, calls[1..], end, maxSpeed,
          sqrt);
        WindowGrows(maxSpeed, start, call.now, end);
      }
    }
  }

  lemma WindowGrows(speed: real, start: real, now: real, end: real)
    requires speed >= 0.0 && start <= now
    ensures speed + Far(speed, end - now) <= Far(speed, end - start + 1.0)
  {
    hide Far;
    FarForward(speed, now - start);
    FarAdds(speed, end - now, now - start);
    FarAdds(speed, end - now + (now - start), 1.0);
    FarInASecond(speed);
    assert end - now + (now - start) + 1.0 == end - start + 1.0;
  }

  // Without a revive the straight-line displacement obeys the same bounds: it never exceeds the path.
  lemma {:induction false} DisplacementWithinPath(p: PlayerRecord, calls: seq<MoveCall>, maxSpeed: real,
      sqrt: real -> real)
    requires IsSqrt(sqrt)
    ensures var path := Path(p, calls, maxSpeed, sqrt);
            && path >= 0.0
            && IsWithin(p.state.pos, RunMoves(p, calls, maxSpeed, sqrt).state.pos, path)
    decreases |calls|
  {
    if calls != [] {
      var t := TryMove(p, calls[0].target, calls[0].now, maxSpeed, sqrt);
      DisplacementWithinPath(t.p, calls[1..], maxSpeed, sqrt);
      if t.ok {
        Triangle(p.state.pos, t.p.state.pos, RunMoves(p, calls, maxSpeed, sqrt).state.pos,
                 sqrt(DistSq(p.state.pos, t.p.state.pos)), Path(t.p, calls[1..], maxSpeed, sqrt));
      }
    }
  }
}

/** The player object the zone's shared pointers refer to: its methods update it in place as the record functions
    say. */
module PlayerObjects {
  import opened Options
  import opened WorldTypes
  import opened Geometry
  import Players

  class Player {
    var session: SessionId
    var state: PlayerState
    var lastSaved: PlayerState
    var budget: real
    var lastMove: real
    var lastAttack: real
    var skillReady: map<nat, real>
    var maxHp: int
    var maxMp: int

    function View(): Players.PlayerRecord
      reads this
    {
      Players.PlayerRecord(session, state, lastSaved, budget, lastMove, lastAttack, skillReady, maxHp, maxMp)
    }

    constructor (session: SessionId, state: PlayerState, now: real)
      ensures View() == Players.New(session, state, now)
    {
      this.session, this.state, lastSaved := session, state, state;
      budget, lastMove, lastAttack, skillReady := 0.0, now, 0.0, map[];
      maxHp, maxMp := 1, 0;
    }

    method TryMove(target: Option<Pos>, now: real, maxSpeed: real, sqrt: real -> real) returns (ok: bool)
      modifies this
      ensures Players.Tried(View(), ok) == Players.TryMove(old(View()), target, now, maxSpeed, sqrt)
    {
      if target.None? {
        return false;
      }
      var elapsed := now - lastMove;
      lastMove := now;
      budget := Min(budget + elapsed * maxSpeed, maxSpeed);
      var dist := sqrt(DistSq(state.pos, target.value));
      if dist > budget {
        return false;
      }
      budget := budget - dist;
      state := state.(pos := target.value);
      return true;
    }

    method TakeDamage(damage: int) returns (applied: int)
      modifies this`state
      ensures Players.Hit(View(), applied) == Players.TakeDamage(old(View()), damage)
    {
      if state.hp <= 0 || damage <= 0 {
        return 0;
      }
      applied := if damage < state.hp then damage else state.hp;
      state := state.(hp := state.hp - applied);
    }

    method Regen(hp: int, mp: int) returns (changed: bool)
      modifies this`state
      ensures Players.Tried(View(), changed) == Players.Regen(old(View()), hp, mp)
    {
      if state.hp <= 0 {
        return false;
      }
      var before := state;
      state := state.(hp := Players.AtMost(state.hp + hp, maxHp), mp := Players.AtMost(state.mp + mp, maxMp));
      return state != before;
    }

    method TrySpendSkill(cost: Players.CostType, amount: int) returns (ok: bool)
      modifies this`state
      ensures Players.Tried(View(), ok) == Players.TrySpendSkill(old(View()), cost, amount)
    {
      if !Players.CanPay(View(), cost, amount) {
        return false;
      }
      match cost {
        case NoCost =>
        case HpCost => state := state.(hp := state.hp - amount);
        case MpCost => state := state.(mp := state.mp - amount);
      }
      return true;
    }

    // Called again without a change in between, it answers false.
    method ConsumeChanged() returns (changed: bool)
      modifies this`lastSaved
      ensures Players.Tried(View(), changed) == Players.ConsumeChanged(old(View()))
      ensures !Players.ConsumeChanged(View()).ok
    {
      if state == lastSaved {
        return false;
      }
      lastSaved := state;
      return true;
    }
  }
}
