/** The turns of a tick together: each monster acts once, on what those before it have left, and what a player loses is
    what the monsters that went for it have dealt. */
module ZoneTurns {
  import opened Options
  import opened WorldTypes
  import opened Geometry
  import opened ZoneData
  import opened ClientView
  import opened ZoneTables
  import opened ZoneOutcomes
  import P = Players
  import B = Monsters

  // What a turn takes from player p: something exactly when the monster goes for p, reaches it, and may strike.
  ghost function Dealt(a: Situation, turn: Turn, p: PlayerId, dt: real, now: real, sqrt: real -> real): int
    requires IsSqrt(sqrt)
  {
    if turn.uid in a.monsters && a.monsters[turn.uid].phase.Chase? && turn.target == Some(p) && p in a.players
    then
      var m := a.monsters[turn.uid];
      var r := B.ChaseTick(m, Some(a.players[p].state.pos), B.StepOf(m, dt), now, MONSTER_ATTACK_COOLDOWN, sqrt);
      if r.moved then P.TakeDamage(a.players[p], r.m.data.attack).applied else 0
    else 0
  }

  ghost function DealtIn(
    rounds: seq<Situation>, turns: seq<Turn>, k: nat, p: PlayerId, dt: real, now: real, sqrt: real -> real): int
    requires IsSqrt(sqrt) && k <= |turns| < |rounds|
  {
    if k == 0 then 0
    else DealtIn(rounds, turns, k - 1, p, dt, now, sqrt) + Dealt(rounds[k - 1], turns[k - 1], p, dt, now, sqrt)
  }

  // A player less some hit points.
  function Hurt(p: P.PlayerRecord, damage: int): P.PlayerRecord {
    p.(state := p.state.(hp := p.state.hp - damage))
  }

  lemma DamageHurts(p: P.PlayerRecord, damage: int)
    ensures var h := P.TakeDamage(p, damage); h.p == Hurt(p, h.applied) && h.applied >= 0
    ensures P.IsDead(p) ==> P.TakeDamage(p, damage).applied == 0
  {
  }

  // One turn: every player loses what it deals, and no other monster is touched.
  lemma TurnDeals(a: Situation, b: Situation, turn: Turn, dt: real, now: real, sqrt: real -> real)
    requires IsSqrt(sqrt) && turn.uid in a.monsters && TurnDone(a, b, turn.uid, turn.target, dt, now, sqrt)
    ensures b.players.Keys == a.players.Keys && b.monsters.Keys == a.monsters.Keys && b.portalPending == a.portalPending
    ensures forall p | p in a.players ::
              var d := Dealt(a, turn, p, dt, now, sqrt);
              d >= 0 && b.players[p] == Hurt(a.players[p], d) && (P.IsDead(a.players[p]) ==> d == 0)
    ensures forall u | u in a.monsters && u != turn.uid :: b.monsters[u] == a.monsters[u]
  {
    hide StrikeNews, ArrivalNews, NoNews, IsNearest, Told, B.ChaseTick, B.ReturnTick, P.TakeDamage;
    var m := a.monsters[turn.uid];
    forall p | p in a.players
      ensures var d := Dealt(a, turn, p, dt, now, sqrt);
              d >= 0 && b.players[p] == Hurt(a.players[p], d) && (P.IsDead(a.players[p]) ==> d == 0)
    {
      DamageHurts(a.players[p], m.data.attack);
      assert Hurt(a.players[p], 0) == a.players[p];
      if m.phase.Chase? {
        ChaseDeals(a, b, turn, dt, now, sqrt, p);
      }
    }
  }

  lemma ChaseDeals(a: Situation, b: Situation, turn: Turn, dt: real, now: real, sqrt: real -> real, p: PlayerId)
    requires IsSqrt(sqrt) && turn.uid in a.monsters && a.monsters[turn.uid].phase.Chase? && p in a.players
    requires ChaseDone(a, b, turn.uid, turn.target, B.StepOf(a.monsters[turn.uid], dt), now, sqrt)
    ensures p in b.players
    ensures var d := Dealt(a, turn, p, dt, now, sqrt);
            d >= 0 && b.players[p] == Hurt(a.players[p], d) && (P.IsDead(a.players[p]) ==> d == 0)
  {
    hide StrikeNews, NoNews, IsNearest, B.ChaseTick, P.TakeDamage;
    var m := a.monsters[turn.uid];
    var r := B.ChaseTick(m, PlaceOf(a.players, turn.target), B.StepOf(m, dt), now, MONSTER_ATTACK_COOLDOWN, sqrt);
    DamageHurts(a.players[p], r.m.data.attack);
    assert Hurt(a.players[p], 0) == a.players[p];
  }

  lemma HurtTwice(p: P.PlayerRecord, d: int, e: int)
    ensures Hurt(Hurt(p, d), e) == Hurt(p, d + e)
  {
  }

  // After any number of turns a player is what it was, less the hit points the monsters have dealt.
  lemma {:induction false} StrikesAccountForHp(
    rounds: seq<Situation>, turns: seq<Turn>, dt: real, now: real, sqrt: real -> real, k: nat, p: PlayerId)
    requires IsSqrt(sqrt) && AllTurns(rounds, turns, dt, now, sqrt) && k <= |turns| && p in rounds[0].players
    ensures p in rounds[k].players && rounds[k].portalPending == rounds[0].portalPending
    ensures var d := DealtIn(rounds, turns, k, p, dt, now, sqrt);
            && d >= 0 && rounds[k].players[p] == Hurt(rounds[0].players[p], d)
            && (P.IsDead(rounds[0].players[p]) ==> d == 0)
  {
    hide TurnDone, Dealt, Hurt;
    if k == 0 {
      NotHurt(rounds[0].players[p]);
    } else {
      StrikesAccountForHp(rounds, turns, dt, now, sqrt, k - 1, p);
      TurnDeals(rounds[k - 1], rounds[k], turns[k - 1], dt, now, sqrt);
      HurtTwice(rounds[0].players[p], DealtIn(rounds, turns, k - 1, p, dt, now, sqrt),
                Dealt(rounds[k - 1], turns[k - 1], p, dt, now, sqrt));
      NotHurt(rounds[0].players[p]);
    }
  }

  lemma NotHurt(p: P.PlayerRecord)
    ensures Hurt(p, 0) == p
  {
  }

  // Strikes only ever take away: whoever is alive later was alive before.
  lemma {:induction false} AliveBefore(
    rounds: seq<Situation>, turns: seq<Turn>, dt: real, now: real, sqrt: real -> real, i: nat, k: nat, p: PlayerId)
    requires IsSqrt(sqrt) && AllTurns(rounds, turns, dt, now, sqrt) && i <= k <= |turns|
    requires p in rounds[i].players
    ensures p in rounds[k].players && rounds[k].players[p].state.pos == rounds[i].players[p].state.pos
    ensures !P.IsDead(rounds[k].players[p]) ==> !P.IsDead(rounds[i].players[p])
    decreases k - i
  {
    hide TurnDone, Dealt;
    if i < k {
      TurnDeals(rounds[i], rounds[i + 1], turns[i], dt, now, sqrt);
      AliveBefore(rounds, turns, dt, now, sqrt, i + 1, k, p);
    }
  }

  // Between the turns of a monster nothing happens to it.
  lemma {:induction false} Untouched(
    rounds: seq<Situation>, turns: seq<Turn>, dt: real, now: real, sqrt: real -> real, i: nat, k: nat, u: MonsterId)
    requires IsSqrt(sqrt) && AllTurns(rounds, turns, dt, now, sqrt) && i <= k <= |turns| && u in rounds[i].monsters
    requires forall j | i <= j < k :: turns[j].uid != u
    ensures u in rounds[k].monsters && rounds[k].monsters[u] == rounds[i].monsters[u]
    decreases k - i
  {
    hide TurnDone, Dealt;
    if i < k {
      TurnDeals(rounds[i], rounds[i + 1], turns[i], dt, now, sqrt);
      Untouched(rounds, turns, dt, now, sqrt, i + 1, k, u);
    }
  }

  // A monster's tick is its turn.
  lemma ItsTurn(
    rounds: seq<Situation>, turns: seq<Turn>, dt: real, now: real, sqrt: real -> real, u: MonsterId) returns (i: nat)
    requires IsSqrt(sqrt) && AllTurns(rounds, turns, dt, now, sqrt) && EachOnce(turns, rounds[0].monsters.Keys)
    requires u in rounds[0].monsters
    ensures i < |turns| && turns[i].uid == u
    ensures u in rounds[i].monsters && rounds[i].monsters[u] == rounds[0].monsters[u]
    ensures u in rounds[|turns|].monsters && rounds[|turns|].monsters[u] == rounds[i + 1].monsters[u]
  {
    assert u in rounds[0].monsters.Keys;
    i :| 0 <= i < |turns| && turns[i].uid == u;
    hide TurnDone;
    Untouched(rounds, turns, dt, now, sqrt, 0, i, u);
    TurnDeals(rounds[i], rounds[i + 1], turns[i], dt, now, sqrt);
    Untouched(rounds, turns, dt, now, sqrt, i + 1, |turns|, u);
  }

  // An idle monster with somebody in sight who outlives the tick goes for somebody who was in sight, no farther than
  // that.
  lemma IdleMonsterNotices(
    rounds: seq<Situation>, turns: seq<Turn>, dt: real, now: real, sqrt: real -> real, u: MonsterId, p: PlayerId)
    requires IsSqrt(sqrt) && AllTurns(rounds, turns, dt, now, sqrt) && EachOnce(turns, rounds[0].monsters.Keys)
    requires u in rounds[0].monsters && rounds[0].monsters[u].phase.Idle? && p in rounds[0].players
    requires var m := rounds[0].monsters[u];
             Eligible(rounds[0].players, rounds[0].portalPending, p, m.pos, m.data.aggroRange)
    requires p in rounds[|turns|].players && !P.IsDead(rounds[|turns|].players[p])
    ensures u in rounds[|turns|].monsters
    ensures var m, n := rounds[0].monsters[u], rounds[|turns|].monsters[u];
            && n == B.StartChase(m, n.target)
            && Eligible(rounds[0].players, rounds[0].portalPending, n.target, m.pos, m.data.aggroRange)
            && DistSq(m.pos, rounds[0].players[n.target].state.pos) <= DistSq(m.pos, rounds[0].players[p].state.pos)
  {
    var i := ItsTurn(rounds, turns, dt, now, sqrt, u);
    var m, target := rounds[0].monsters[u], turns[i].target;
    hide AllTurns, EachOnce, DistSq;
    SameSight(rounds, turns, dt, now, sqrt, i, p);
    AliveBefore(rounds, turns, dt, now, sqrt, i, |turns|, p);
    assert TurnDone(rounds[i], rounds[i + 1], u, target, dt, now, sqrt) by { TurnAt(rounds, turns, dt, now, sqrt, i); }
    assert LookDone(rounds[i], rounds[i + 1], u, target);
    assert Eligible(rounds[i].players, rounds[i].portalPending, p, m.pos, m.data.aggroRange);
    assert target.Some?;
    SameSight(rounds, turns, dt, now, sqrt, i, target.value);
  }

  lemma TurnAt(rounds: seq<Situation>, turns: seq<Turn>, dt: real, now: real, sqrt: real -> real, i: nat)
    requires IsSqrt(sqrt) && AllTurns(rounds, turns, dt, now, sqrt) && i < |turns|
    ensures turns[i].uid in rounds[i].monsters
    ensures TurnDone(rounds[i], rounds[i + 1], turns[i].uid, turns[i].target, dt, now, sqrt)
  {
  }

  // Within a tick nobody comes, leaves or changes place, and nobody rises.
  lemma SameSight(
    rounds: seq<Situation>, turns: seq<Turn>, dt: real, now: real, sqrt: real -> real, i: nat, p: PlayerId)
    requires IsSqrt(sqrt) && AllTurns(rounds, turns, dt, now, sqrt) && i <= |turns|
    ensures rounds[i].portalPending == rounds[0].portalPending && (p in rounds[i].players <==> p in rounds[0].players)
    ensures p in rounds[0].players ==> rounds[i].players[p].state.pos == rounds[0].players[p].state.pos
    ensures p in rounds[0].players && !P.IsDead(rounds[i].players[p]) ==> !P.IsDead(rounds[0].players[p])
  {
    SamePlayersAt(rounds, turns, dt, now, sqrt, i);
    if p in rounds[0].players {
      AliveBefore(rounds, turns, dt, now, sqrt, 0, i, p);
    }
  }

  lemma {:induction false} SamePlayersAt(
    rounds: seq<Situation>, turns: seq<Turn>, dt: real, now: real, sqrt: real -> real, i: nat)
    requires IsSqrt(sqrt) && AllTurns(rounds, turns, dt, now, sqrt) && i <= |turns|
    ensures rounds[i].players.Keys == rounds[0].players.Keys && rounds[i].portalPending == rounds[0].portalPending
  {
    hide TurnDone, Dealt;
    if i > 0 {
      SamePlayersAt(rounds, turns, dt, now, sqrt, i - 1);
      TurnDeals(rounds[i - 1], rounds[i], turns[i - 1], dt, now, sqrt);
    }
  }

  // With nobody in sight it stays as it is.
  lemma UnnoticedStaysIdle(
    rounds: seq<Situation>, turns: seq<Turn>, dt: real, now: real, sqrt: real -> real, u: MonsterId)
    requires IsSqrt(sqrt) && AllTurns(rounds, turns, dt, now, sqrt) && EachOnce(turns, rounds[0].monsters.Keys)
    requires u in rounds[0].monsters && rounds[0].monsters[u].phase.Idle?
    requires var m := rounds[0].monsters[u];
             forall p | p in rounds[0].players ::
               !Eligible(rounds[0].players, rounds[0].portalPending, p, m.pos, m.data.aggroRange)
    ensures u in rounds[|turns|].monsters && rounds[|turns|].monsters[u] == rounds[0].monsters[u]
  {
    var i := ItsTurn(rounds, turns, dt, now, sqrt, u);
    var m, target := rounds[0].monsters[u], turns[i].target;
    hide AllTurns, EachOnce, DistSq;
    TurnAt(rounds, turns, dt, now, sqrt, i);
    if target.Some? {
      SameSight(rounds, turns, dt, now, sqrt, i, target.value);
    }
  }
}
