/** What holds over whole runs of the zone for one player or one monster: how far a player gets, when it is noticed,
    struck and saved, and when the dead rise. */
module ZoneRuns {
  import opened Options
  import opened WorldTypes
  import opened Geometry
  import opened ClientView
  import opened ZoneData
  import opened ZoneJobs
  import opened ZoneTables
  import opened ZoneOutcomes
  import opened ZoneTurns
  import opened ZoneHistory
  import P = Players
  import B = Monsters
  import M = Membership

  // A tick of a zone that is not shutting down.
  predicate IsOpenTick(a: Snapshot, j: TimedJob) {
    j.job.Tick? && !a.members.closed
  }

  function TimeOf(a: Snapshot, j: TimedJob): real {
    Min(j.now - a.lastTick, B.MAX_TICK_DT)
  }

  lemma TickOf(a: Snapshot, b: Snapshot, j: TimedJob, rules: Rules)
    returns (rounds: seq<Situation>, turns: seq<Turn>, fit: map<PlayerId, P.PlayerRecord>)
    requires IsSqrt(rules.sqrt) && JobAdvances(a, b, j, rules) && IsOpenTick(a, j)
    ensures TickDone(a, b, rounds, turns, fit, j.now, rules)
    ensures |rounds| == |turns| + 1 && rounds[0] == SituationOf(a)
  {
    hide TickDone, Advances, MembersFollow;
    rounds, turns, fit :| TickDone(a, b, rounds, turns, fit, j.now, rules);
    TickRounds(a, b, rounds, turns, fit, j.now, rules);
  }

  lemma TickRounds(
    a: Snapshot, b: Snapshot, rounds: seq<Situation>, turns: seq<Turn>, fit: map<PlayerId, P.PlayerRecord>, now: real,
    rules: Rules)
    requires IsSqrt(rules.sqrt) && TickDone(a, b, rounds, turns, fit, now, rules)
    ensures |rounds| == |turns| + 1 && rounds[0] == SituationOf(a)
  {
    hide TurnDone, EachOnce, TimersDone, M.SavesExactly;
  }

  lemma JobIsDone(a: Snapshot, b: Snapshot, j: TimedJob, rules: Rules)
    requires IsSqrt(rules.sqrt) && JobAdvances(a, b, j, rules)
    ensures JobDone(a, b, j, rules) && IsCoherent(a) && IsCoherent(b)
  {
    hide JobDone, Advances, MembersFollow, IsCoherent;
  }

  // ------------------------------------------------------------------------------------------------ being noticed

  // An idle monster that somebody is in sight of, alive and not leaving, goes after a tick for somebody who was in its
  // sight, and is no farther than any of those who have outlived the tick.
  lemma MonstersNotice(a: Snapshot, b: Snapshot, j: TimedJob, rules: Rules, u: MonsterId, p: PlayerId)
    requires IsSqrt(rules.sqrt) && JobAdvances(a, b, j, rules) && IsOpenTick(a, j)
    requires u in a.monsters && a.monsters[u].phase.Idle? && p in b.players && !P.IsDead(b.players[p])
    requires Eligible(a.players, a.members.portalPending, p, a.monsters[u].pos, a.monsters[u].data.aggroRange)
    ensures u in b.monsters
    ensures var m, n := a.monsters[u], b.monsters[u];
            && n == B.StartChase(m, n.target)
            && Eligible(a.players, a.members.portalPending, n.target, m.pos, m.data.aggroRange)
            && DistSq(m.pos, a.players[n.target].state.pos) <= DistSq(m.pos, a.players[p].state.pos)
  {
    hide JobAdvances, AllTurns, EachOnce, DistSq, M.SavesExactly, RegenNews;
    var rounds, turns, fit := TickOf(a, b, j, rules);
    var last := rounds[|turns|];
    DeadStayDown(last, SituationOf(b), fit, a.timers, TimeOf(a, j), p);
    IdleMonsterNotices(rounds, turns, TimeOf(a, j), j.now, rules.sqrt, u, p);
  }

  // Regeneration raises nobody, and a save marks only.
  lemma DeadStayDown(
    a: Situation, b: Situation, fit: map<PlayerId, P.PlayerRecord>, timers: Timers, dt: real, p: PlayerId)
    requires TimersDone(a, b, fit, timers, dt) && p in b.players
    ensures p in a.players && (P.IsDead(a.players[p]) ==> P.IsDead(b.players[p]))
  {
    hide RegenNews;
    assert p in fit.Keys;
  }

  // With nobody in sight it stays as it is.
  lemma MonstersWait(a: Snapshot, b: Snapshot, j: TimedJob, rules: Rules, u: MonsterId)
    requires IsSqrt(rules.sqrt) && JobAdvances(a, b, j, rules) && IsOpenTick(a, j)
    requires u in a.monsters && a.monsters[u].phase.Idle?
    requires var m := a.monsters[u];
             forall p | p in a.players :: !Eligible(a.players, a.members.portalPending, p, m.pos, m.data.aggroRange)
    ensures u in b.monsters && b.monsters[u] == a.monsters[u]
  {
    hide JobAdvances, AllTurns, EachOnce, DistSq, M.SavesExactly, RegenNews;
    var rounds, turns, fit := TickOf(a, b, j, rules);
    UnnoticedStaysIdle(rounds, turns, TimeOf(a, j), j.now, rules.sqrt, u);
  }

  // ------------------------------------------------------------------------------------------------ being struck

  // What a tick leaves of a player: what the monsters' strikes have not taken, and what regeneration gives back when it
  // is time, if it is not leaving. Nothing else of it changes but the mark of what has been saved.
  lemma TickAccountsForPlayer(a: Snapshot, b: Snapshot, j: TimedJob, rules: Rules, p: PlayerId)
    returns (rounds: seq<Situation>, turns: seq<Turn>)
    requires IsSqrt(rules.sqrt) && JobAdvances(a, b, j, rules) && IsOpenTick(a, j) && p in a.players
    ensures AllTurns(rounds, turns, TimeOf(a, j), j.now, rules.sqrt) && EachOnce(turns, a.monsters.Keys)
    ensures rounds[0] == SituationOf(a) && p in b.players
    ensures var hurt := Hurt(a.players[p],
                             DealtIn(rounds, turns, |turns|, p, TimeOf(a, j), j.now, rules.sqrt));
            var due := a.timers.regen + TimeOf(a, j) >= REGEN_INTERVAL && p !in a.members.portalPending;
            b.players[p] == (if due then P.Regen(hurt, HP_REGEN, MP_REGEN).p else hurt)
                            .(lastSaved := b.players[p].lastSaved)
  {
    hide JobAdvances, AllTurns, EachOnce, M.SavesExactly, RegenNews, Hurt, P.Regen;
    var fit;
    rounds, turns, fit := TickOf(a, b, j, rules);
    StrikesAccountForHp(rounds, turns, TimeOf(a, j), j.now, rules.sqrt, |turns|, p);
    TimersLeave(rounds[|turns|], SituationOf(b), fit, a.timers, TimeOf(a, j), p);
  }

  lemma TimersLeave(
    a: Situation, b: Situation, fit: map<PlayerId, P.PlayerRecord>, timers: Timers, dt: real, p: PlayerId)
    requires TimersDone(a, b, fit, timers, dt) && p in a.players
    ensures p in b.players
    ensures var due := timers.regen + dt >= REGEN_INTERVAL && p !in a.portalPending;
            b.players[p] == (if due then P.Regen(a.players[p], HP_REGEN, MP_REGEN).p else a.players[p])
                            .(lastSaved := b.players[p].lastSaved)
  {
    hide RegenNews;
    assert p in fit.Keys;
  }
  // ------------------------------------------------------------------------------------------------ staying dead

  // One job in the death of a monster: it stays as it is, unless the zone ticks when its time has come.
  lemma DeadMonsterJob(a: Snapshot, b: Snapshot, j: TimedJob, rules: Rules, u: MonsterId)
    requires IsSqrt(rules.sqrt) && JobAdvances(a, b, j, rules) && u in a.monsters && a.monsters[u].phase.Dead?
    ensures u in b.monsters
    ensures b.monsters[u] == if IsOpenTick(a, j) && j.now >= a.monsters[u].respawnAt then B.Respawn(a.monsters[u])
                             else a.monsters[u]
  {
    hide JobAdvances, JobDone, AllTurns, EachOnce, M.SavesExactly, RegenNews, Regenerated, Saved, IsCoherent;
    if IsOpenTick(a, j) {
      var rounds, turns, fit := TickOf(a, b, j, rules);
      DeadInTick(rounds, turns, TimeOf(a, j), j.now, rules.sqrt, u);
    } else {
      JobIsDone(a, b, j, rules);
      DeadAmongOthers(a, b, j, rules, u);
    }
  }

  lemma DeadInTick(
    rounds: seq<Situation>, turns: seq<Turn>, dt: real, now: real, sqrt: real -> real, u: MonsterId)
    requires IsSqrt(sqrt) && AllTurns(rounds, turns, dt, now, sqrt) && EachOnce(turns, rounds[0].monsters.Keys)
    requires u in rounds[0].monsters && rounds[0].monsters[u].phase.Dead?
    ensures u in rounds[|turns|].monsters
    ensures var m := rounds[0].monsters[u];
            rounds[|turns|].monsters[u] == if now >= m.respawnAt then B.Respawn(m) else m
  {
    var i := ItsTurn(rounds, turns, dt, now, sqrt, u);
    TurnAt(rounds, turns, dt, now, sqrt, i);
    hide AllTurns, EachOnce, Told;
  }

  lemma DeadAmongOthers(a: Snapshot, b: Snapshot, j: TimedJob, rules: Rules, u: MonsterId)
    requires IsSqrt(rules.sqrt) && JobDone(a, b, j, rules) && !IsOpenTick(a, j)
    requires u in a.monsters && a.monsters[u].phase.Dead?
    ensures u in b.monsters && b.monsters[u] == a.monsters[u]
  {
    hide AttackDone, SkillDone, MoveDone, ReviveDone, EnterDone, LeaveDone;
    var x, y := SituationOf(a), SituationOf(b);
    match j.job
    case FromClient(session, packet) =>
      if !a.members.closed && session in x.sessions {
        DeadAfterPacket(x, y, x.sessions[session], packet, j.now, rules, u);
      }
    case Disconnected(session) => MonstersStay(x, y);
    case SpawnRow(_, player, row, born) => MonstersStay(x, y);
    case PortalSaved(_, player, _, _) =>
      MonstersStay(x.(portalPending := x.portalPending - {player}), y.(sent := y.sent[..|y.sent| - LastOf(y)]));
    case _ =>
  }

  function LastOf(s: Situation): nat {
    if s.sent == [] then 0 else 1
  }

  // Coming and going touches no monster.
  lemma MonstersStay(a: Situation, b: Situation)
    ensures (exists p :: LeaveDone(a, b, p)) || (exists p, r :: EnterDone(a, b, p, r)) || b == a ==>
              b.monsters == a.monsters
  {
    hide Told, LostAround, FitAround, Picture;
  }

  lemma DeadAfterPacket(
    a: Situation, b: Situation, player: PlayerId, packet: ClientPacket, now: real, rules: Rules, u: MonsterId)
    requires ActDone(a, b, player, packet, now, rules) && u in a.monsters && a.monsters[u].phase.Dead?
    ensures u in b.monsters && b.monsters[u] == a.monsters[u]
  {
    hide MoverFollows, LastHeard, News, CastNews, AreNearest;
    match packet
    case CastSkill(id, atMonster, uid) =>
      var targets :| SkillDone(a, b, player, rules.skills, id, atMonster, uid, targets, now, rules.roll);
      DeadAfterCast(a, b, player, rules, id, atMonster, uid, targets, now, u);
    case _ =>
  }

  lemma DeadAfterCast(
    a: Situation, b: Situation, caster: PlayerId, rules: Rules, id: nat, atMonster: bool, uid: MonsterId,
    targets: seq<MonsterId>, now: real, u: MonsterId)
    requires SkillDone(a, b, caster, rules.skills, id, atMonster, uid, targets, now, rules.roll)
    requires u in a.monsters && a.monsters[u].phase.Dead?
    ensures u in b.monsters && b.monsters[u] == a.monsters[u]
  {
    hide CastNews, AreNearest;
    if caster in a.players && caster !in a.portalPending
       && CastFailure(a.players, a.monsters, rules.skills, caster, id, atMonster, uid, now).None?
    {
      AreTargetable(a.monsters, a.players[caster].state.pos, rules.skills[id], uid, targets);
      assert u in b.monsters.Keys;
    }
  }
  // The job in which a monster falls sets the time before which it does not rise.
  lemma FallSetsTheTime(a: Snapshot, b: Snapshot, j: TimedJob, rules: Rules, u: MonsterId)
    requires IsSqrt(rules.sqrt) && JobAdvances(a, b, j, rules) && u in a.monsters && u in b.monsters
    requires !a.monsters[u].phase.Dead? && b.monsters[u].phase.Dead?
    ensures b.monsters[u].respawnAt == j.now + a.monsters[u].data.respawnSec as real
    ensures j.job.FromClient? && (j.job.packet.Attack? || j.job.packet.CastSkill?)
  {
    hide JobAdvances, JobDone, AllTurns, EachOnce, M.SavesExactly, RegenNews, Regenerated, Saved, IsCoherent;
    if IsOpenTick(a, j) {
      var rounds, turns, fit := TickOf(a, b, j, rules);
      TickFellsNobody(rounds, turns, TimeOf(a, j), j.now, rules.sqrt, u);
      assert false;
    } else {
      JobIsDone(a, b, j, rules);
      FallAmongOthers(a, b, j, rules, u);
    }
  }

  lemma TickFellsNobody(
    rounds: seq<Situation>, turns: seq<Turn>, dt: real, now: real, sqrt: real -> real, u: MonsterId)
    requires IsSqrt(sqrt) && AllTurns(rounds, turns, dt, now, sqrt) && EachOnce(turns, rounds[0].monsters.Keys)
    requires u in rounds[0].monsters && !rounds[0].monsters[u].phase.Dead?
    ensures u in rounds[|turns|].monsters && !rounds[|turns|].monsters[u].phase.Dead?
  {
    var i := ItsTurn(rounds, turns, dt, now, sqrt, u);
    TurnAt(rounds, turns, dt, now, sqrt, i);
    hide AllTurns, EachOnce, TurnDone;
    TurnTicks(rounds[i], rounds[i + 1], u, turns[i].target, dt, now, sqrt);
    B.TickSpares(rounds[i].monsters[u], rounds[i + 1].monsters[u], B.StepOf(rounds[i].monsters[u], dt), now,
                 MONSTER_ATTACK_COOLDOWN, sqrt);
  }

  lemma FallAmongOthers(a: Snapshot, b: Snapshot, j: TimedJob, rules: Rules, u: MonsterId)
    requires IsSqrt(rules.sqrt) && JobDone(a, b, j, rules) && !IsOpenTick(a, j)
    requires u in a.monsters && u in b.monsters && !a.monsters[u].phase.Dead? && b.monsters[u].phase.Dead?
    ensures b.monsters[u].respawnAt == j.now + a.monsters[u].data.respawnSec as real
    ensures j.job.FromClient? && (j.job.packet.Attack? || j.job.packet.CastSkill?)
  {
    hide AttackDone, SkillDone, MoveDone, ReviveDone, EnterDone, LeaveDone;
    var x, y := SituationOf(a), SituationOf(b);
    match j.job
    case FromClient(session, packet) =>
      if !a.members.closed && session in x.sessions {
        FallAfterPacket(x, y, x.sessions[session], packet, j.now, rules, u);
      }
    case Disconnected(session) => MonstersStay(x, y);
    case SpawnRow(_, player, row, born) => MonstersStay(x, y);
    case PortalSaved(_, player, _, _) =>
      MonstersStay(x.(portalPending := x.portalPending - {player}), y.(sent := y.sent[..|y.sent| - LastOf(y)]));
    case _ =>
  }

  lemma FallAfterPacket(
    a: Situation, b: Situation, player: PlayerId, packet: ClientPacket, now: real, rules: Rules, u: MonsterId)
    requires ActDone(a, b, player, packet, now, rules)
    requires u in a.monsters && u in b.monsters && !a.monsters[u].phase.Dead? && b.monsters[u].phase.Dead?
    ensures b.monsters[u].respawnAt == now + a.monsters[u].data.respawnSec as real
    ensures packet.Attack? || packet.CastSkill?
  {
    hide MoverFollows, LastHeard, News, CastNews, AreNearest;
    match packet
    case CastSkill(id, atMonster, uid) =>
      var targets :| SkillDone(a, b, player, rules.skills, id, atMonster, uid, targets, now, rules.roll);
    case _ =>
  }

  // Over every run: a dead monster stays as it is until the zone ticks at its time or later, and rises then, whole, at
  // its spawn point. `k` is the first snapshot that shows it up, or one past the last.
  lemma {:induction false} DeadUntilItsTime(history: seq<Snapshot>, jobs: seq<TimedJob>, rules: Rules, u: MonsterId)
    returns (k: nat)
    requires IsSqrt(rules.sqrt) && IsHistory(history, jobs, rules)
    requires u in history[0].monsters && history[0].monsters[u].phase.Dead?
    ensures 0 < k <= |history|
    ensures forall i | 0 <= i < k ::
              u in history[i].monsters && history[i].monsters[u] == history[0].monsters[u]
    ensures forall i | 0 <= i < k - 1 ::
              !(IsOpenTick(history[i], jobs[i]) && jobs[i].now >= history[0].monsters[u].respawnAt)
    ensures k < |history| ==>
              && IsOpenTick(history[k - 1], jobs[k - 1]) && jobs[k - 1].now >= history[0].monsters[u].respawnAt
              && u in history[k].monsters && history[k].monsters[u] == B.Respawn(history[0].monsters[u])
    decreases |jobs|
  {
    hide JobAdvances;
    var m := history[0].monsters[u];
    if jobs == [] {
      k := 1;
    } else {
      HistoryStarts(history, jobs, rules);
      DeadMonsterJob(history[0], history[1], jobs[0], rules, u);
      hide IsHistory;
      if IsOpenTick(history[0], jobs[0]) && jobs[0].now >= m.respawnAt {
        k := 1;
      } else {
        var rest := DeadUntilItsTime(history[1..], jobs[1..], rules, u);
        k := rest + 1;
        forall i | 0 <= i < k ensures u in history[i].monsters && history[i].monsters[u] == m {
          if i > 0 {
            assert history[1..][i - 1] == history[i];
          }
        }
        forall i | 0 <= i < k - 1 ensures !(IsOpenTick(history[i], jobs[i]) && jobs[i].now >= m.respawnAt) {
          if i > 0 {
            assert history[1..][i - 1] == history[i] && jobs[1..][i - 1] == jobs[i];
          }
        }
      }
    }
  }
  // ------------------------------------------------------------------------------------------------ getting about

  // Alike in all that decides about moves.
  predicate SameMoves(p: P.PlayerRecord, q: P.PlayerRecord) {
    p.state.pos == q.state.pos && p.budget == q.budget && p.lastMove == q.lastMove
  }

  // The move that a job tries for player p, if any.
  function MoveOf(a: Snapshot, j: TimedJob, p: PlayerId): Option<P.MoveCall> {
    if j.job.FromClient? && j.job.packet.MoveTo? && !a.members.closed && j.job.session in a.members.sessions
       && a.members.sessions[j.job.session] == p && MayAct(a.players, a.members.portalPending, p)
    then Some(P.MoveCall(j.now, j.job.packet.target)) else None
  }

  function Tried(p: P.PlayerRecord, call: Option<P.MoveCall>, sqrt: real -> real): P.PlayerRecord {
    if call.None? then p else P.TryMove(p, call.value.target, call.value.now, MAX_MOVE_SPEED, sqrt).p
  }

  // A living player gets about by its own accepted moves, and in no other way.
  lemma PlayerJob(a: Snapshot, b: Snapshot, j: TimedJob, rules: Rules, p: PlayerId)
    requires IsSqrt(rules.sqrt) && JobAdvances(a, b, j, rules)
    requires p in a.players && p in b.players && !P.IsDead(a.players[p])
    ensures SameMoves(Tried(a.players[p], MoveOf(a, j, p), rules.sqrt), b.players[p])
  {
    hide JobAdvances, JobDone, IsCoherent, AllTurns, EachOnce, P.TryMove;
    if IsOpenTick(a, j) {
      var rounds, turns := TickAccountsForPlayer(a, b, j, rules, p);
      hide DealtIn;
    } else {
      JobIsDone(a, b, j, rules);
      PlayerAmongOthers(a, b, j, rules, p);
    }
  }

  lemma PlayerAmongOthers(a: Snapshot, b: Snapshot, j: TimedJob, rules: Rules, p: PlayerId)
    requires IsSqrt(rules.sqrt) && JobDone(a, b, j, rules) && !IsOpenTick(a, j)
    requires p in a.players && p in b.players && !P.IsDead(a.players[p])
    ensures SameMoves(Tried(a.players[p], MoveOf(a, j, p), rules.sqrt), b.players[p])
  {
    hide AttackDone, SkillDone, MoveDone, ReviveDone, EnterDone, LeaveDone, P.TryMove;
    var x, y := SituationOf(a), SituationOf(b);
    match j.job
    case FromClient(session, packet) =>
      if !a.members.closed && session in x.sessions {
        PlayerAfterPacket(x, y, x.sessions[session], packet, j.now, rules, p);
      }
    case Disconnected(session) => PlayersStay(x, y, p);
    case SpawnRow(_, player, row, born) => PlayersStay(x, y, p);
    case PortalSaved(_, player, _, _) =>
      PlayersStay(x.(portalPending := x.portalPending - {player}), y.(sent := y.sent[..|y.sent| - LastOf(y)]), p);
    case _ =>
  }

  // Coming and going changes nobody who is there before and after.
  lemma PlayersStay(a: Situation, b: Situation, p: PlayerId)
    requires p in a.players && p in b.players
    ensures (exists q :: LeaveDone(a, b, q)) || (exists q, r :: EnterDone(a, b, q, r) && q !in a.players) || b == a ==>
              b.players[p] == a.players[p]
  {
    hide Told, LostAround, FitAround, Picture;
  }

  lemma PlayerAfterPacket(
    a: Situation, b: Situation, player: PlayerId, packet: ClientPacket, now: real, rules: Rules, p: PlayerId)
    requires ActDone(a, b, player, packet, now, rules) && p in a.players && p in b.players && !P.IsDead(a.players[p])
    ensures packet.MoveTo? && player == p && MayAct(a.players, a.portalPending, p) ==>
              SameMoves(P.TryMove(a.players[p], packet.target, now, MAX_MOVE_SPEED, rules.sqrt).p, b.players[p])
    ensures !(packet.MoveTo? && player == p && MayAct(a.players, a.portalPending, p)) ==>
              SameMoves(a.players[p], b.players[p])
  {
    hide MoverFollows, LastHeard, News, CastNews, AreNearest, P.TryMove, AttackLands, B.Attacked, AreTargets,
      CastFailure,
      B.Survived, Slain, RollSum, AliveOf, PositionsOf;
    match packet
    case CastSkill(id, atMonster, uid) =>
      var targets :| SkillDone(a, b, player, rules.skills, id, atMonster, uid, targets, now, rules.roll);
    case _ =>
  }

  // The moves a run tries for player p.
  function MovesOf(history: seq<Snapshot>, jobs: seq<TimedJob>, p: PlayerId): seq<P.MoveCall>
    requires |history| == |jobs| + 1
    decreases |jobs|
  {
    if jobs == [] then []
    else
      var call := MoveOf(history[0], jobs[0], p);
      (if call.Some? then [call.value] else []) + MovesOf(history[1..], jobs[1..], p)
  }

  function EndOf(start: real, jobs: seq<TimedJob>): real
    decreases |jobs|
  {
    if jobs == [] then start else EndOf(jobs[0].now, jobs[1..])
  }

  lemma {:induction false} MovesWithin(start: real, history: seq<Snapshot>, jobs: seq<TimedJob>, p: PlayerId)
    requires |history| == |jobs| + 1 && InOrder(start, jobs)
    ensures P.Within(start, MovesOf(history, jobs, p), EndOf(start, jobs))
    decreases |jobs|
  {
    if jobs != [] {
      MovesWithin(jobs[0].now, history[1..], jobs[1..], p);
      P.WithinFrom(start, jobs[0].now, MovesOf(history[1..], jobs[1..], p), EndOf(start, jobs));
      var call, calls := MoveOf(history[0], jobs[0], p), MovesOf(history[1..], jobs[1..], p);
      assert [] + calls == calls;
      if call.Some? {
        assert ([call.value] + calls)[1..] == calls && ([call.value] + calls)[0].now == jobs[0].now;
      }
    }
  }

  lemma TriedAlike(p: P.PlayerRecord, q: P.PlayerRecord, call: P.MoveCall, sqrt: real -> real)
    requires SameMoves(p, q)
    ensures SameMoves(P.TryMove(p, call.target, call.now, MAX_MOVE_SPEED, sqrt).p,
                      P.TryMove(q, call.target, call.now, MAX_MOVE_SPEED, sqrt).p)
  {
    hide P.Filled;
  }

  lemma {:induction false} MovedAlike(
    p: P.PlayerRecord, q: P.PlayerRecord, calls: seq<P.MoveCall>, sqrt: real -> real)
    requires SameMoves(p, q)
    ensures SameMoves(P.RunMoves(p, calls, MAX_MOVE_SPEED, sqrt), P.RunMoves(q, calls, MAX_MOVE_SPEED, sqrt))
    decreases |calls|
  {
    hide SameMoves, P.TryMove;
    if calls != [] {
      TriedAlike(p, q, calls[0], sqrt);
      MovedAlike(P.TryMove(p, calls[0].target, calls[0].now, MAX_MOVE_SPEED, sqrt).p,
                 P.TryMove(q, calls[0].target, calls[0].now, MAX_MOVE_SPEED, sqrt).p, calls[1..], sqrt);
    }
  }

  // A living player is where its moves have taken it.
  lemma {:induction false} MovesTakeIt(history: seq<Snapshot>, jobs: seq<TimedJob>, rules: Rules, p: PlayerId)
    requires IsSqrt(rules.sqrt) && IsHistory(history, jobs, rules)
    requires forall i | 0 <= i < |history| :: p in history[i].players && !P.IsDead(history[i].players[p])
    ensures SameMoves(P.RunMoves(history[0].players[p], MovesOf(history, jobs, p), MAX_MOVE_SPEED, rules.sqrt),
                      history[|jobs|].players[p])
    decreases |jobs|
  {
    hide JobAdvances, MoveOf, P.TryMove;
    if jobs != [] {
      HistoryStarts(history, jobs, rules);
      PlayerJob(history[0], history[1], jobs[0], rules, p);
      MovesTakeIt(history[1..], jobs[1..], rules, p);
      hide IsHistory;
      var first, call := history[0].players[p], MoveOf(history[0], jobs[0], p);
      var calls := MovesOf(history[1..], jobs[1..], p);
      MovedAlike(Tried(first, call, rules.sqrt), history[1].players[p], calls, rules.sqrt);
      if call.Some? {
        assert ([call.value] + calls)[1..] == calls;
      } else {
        assert [] + calls == calls;
      }
    }
  }

  // Over every run: in any stretch of time T a player that stays and stays alive comes no farther than its top speed
  // takes it in T and one second more, whatever else happens to it meanwhile.
  lemma SpeedBoundOverRuns(
    history: seq<Snapshot>, jobs: seq<TimedJob>, rules: Rules, p: PlayerId, start: real)
    requires IsSqrt(rules.sqrt) && IsHistory(history, jobs, rules) && InOrder(start, jobs)
    requires forall i | 0 <= i < |history| :: p in history[i].players && !P.IsDead(history[i].players[p])
    requires history[0].players[p].budget >= 0.0 && history[0].players[p].lastMove <= start
    ensures IsWithin(history[0].players[p].state.pos, history[|jobs|].players[p].state.pos,
                     MAX_MOVE_SPEED * (EndOf(start, jobs) - start + 1.0))
  {
    hide IsHistory, JobAdvances, IsWithin, IsSqrt, P.RunMoves, P.Within, InOrder, MovesOf, EndOf;
    HistorySize(history, jobs, rules);
    var first, calls, end := history[0].players[p], MovesOf(history, jobs, p), EndOf(start, jobs);
    MovesTakeIt(history, jobs, rules, p);
    MovesWithin(start, history, jobs, p);
    MovesAreBounded(first, start, calls, end, rules.sqrt);
  }

  lemma HistorySize(history: seq<Snapshot>, jobs: seq<TimedJob>, rules: Rules)
    requires IsSqrt(rules.sqrt) && IsHistory(history, jobs, rules)
    ensures |history| == |jobs| + 1
  {
    hide JobAdvances;
  }

  lemma MovesAreBounded(p: P.PlayerRecord, start: real, calls: seq<P.MoveCall>, end: real, sqrt: real -> real)
    requires IsSqrt(sqrt) && P.Within(start, calls, end) && p.budget >= 0.0 && p.lastMove <= start
    ensures IsWithin(p.state.pos, P.RunMoves(p, calls, MAX_MOVE_SPEED, sqrt).state.pos,
                     MAX_MOVE_SPEED * (end - start + 1.0))
  {
    hide P.Path, P.RunMoves, P.Within, IsWithin, IsSqrt;
    P.SpeedBoundInWindow(p, start, calls, end, MAX_MOVE_SPEED, sqrt);
    P.DisplacementWithinPath(p, calls, MAX_MOVE_SPEED, sqrt);
    var path := P.Path(p, calls, MAX_MOVE_SPEED, sqrt);
    WithinMore(p.state.pos, P.RunMoves(p, calls, MAX_MOVE_SPEED, sqrt).state.pos, path,
               MAX_MOVE_SPEED * (end - start + 1.0));
  }

  // ------------------------------------------------------------------------------------------------ being saved

  // An autosave that is due.
  predicate IsSaving(a: Snapshot, j: TimedJob) {
    IsOpenTick(a, j) && a.timers.save + TimeOf(a, j) >= AUTOSAVE_INTERVAL
  }

  // A player that is alive after the job and not leaving: its state is the last that was saved. It has just been sent,
  // if and only if it was not the last already.
  predicate IsSaved(a: Snapshot, b: Snapshot, zone: nat, p: PlayerId) {
    p in b.players && p !in a.members.portalPending && !P.IsDead(b.players[p]) ==>
      && p in a.players && b.players[p].lastSaved == b.players[p].state
      && a.requests <= b.requests
      && (b.players[p].state != a.players[p].lastSaved <==>
            M.SaveRequest(p, b.players[p].state, zone, None) in b.requests[|a.requests|..])
  }

  // An autosave saves the players of its slice.
  lemma SavingSaves(a: Snapshot, b: Snapshot, j: TimedJob, rules: Rules, p: PlayerId)
    requires IsSqrt(rules.sqrt) && JobAdvances(a, b, j, rules) && IsSaving(a, j) && SliceOf(p) == a.timers.slice
    ensures IsSaved(a, b, rules.zone, p)
  {
    hide JobAdvances, JobDone, AllTurns, EachOnce, RegenNews, Regenerated, Saved, M.SavesExactly, SavedNow, PresenceOf;
    var rounds, turns, fit := TickOf(a, b, j, rules);
    JobIsDone(a, b, j, rules);
    SameSavedAt(rounds, turns, TimeOf(a, j), j.now, rules.sqrt, p);
    if p in b.players && p !in a.members.portalPending && !P.IsDead(b.players[p]) {
      SliceIsSaved(rounds[|turns|], b, fit, a.timers, TimeOf(a, j), b.requests[|a.requests|..], rules.zone, p);
    }
  }

  lemma SameSavedAt(
    rounds: seq<Situation>, turns: seq<Turn>, dt: real, now: real, sqrt: real -> real, p: PlayerId)
    requires IsSqrt(sqrt) && AllTurns(rounds, turns, dt, now, sqrt)
    ensures rounds[|turns|].players.Keys == rounds[0].players.Keys
    ensures rounds[|turns|].portalPending == rounds[0].portalPending
    ensures p in rounds[0].players ==> rounds[|turns|].players[p].lastSaved == rounds[0].players[p].lastSaved
  {
    hide TurnDone, DealtIn;
    SamePlayersAt(rounds, turns, dt, now, sqrt, |turns|);
    if p in rounds[0].players {
      StrikesAccountForHp(rounds, turns, dt, now, sqrt, |turns|, p);
    }
  }

  lemma SliceIsSaved(
    a: Situation, b: Snapshot, fit: map<PlayerId, P.PlayerRecord>, timers: Timers, dt: real, saves: seq<M.Request>,
    zone: nat, p: PlayerId)
    requires TimersDone(a, SituationOf(b), fit, timers, dt) && timers.save + dt >= AUTOSAVE_INTERVAL && IsCoherent(b)
    requires M.SavesExactly(b.members, zone, SavedNow(fit, a.portalPending, timers.slice, timers.save + dt), saves)
    requires SliceOf(p) == timers.slice && p in b.players && p !in a.portalPending && !P.IsDead(b.players[p])
    ensures p in a.players && b.players[p].lastSaved == b.players[p].state
    ensures b.players[p].state != a.players[p].lastSaved <==>
              M.SaveRequest(p, b.players[p].state, zone, None) in saves
  {
    hide RegenNews;
    assert p in fit.Keys;
    assert PresenceOf(b.players)[p].state == b.players[p].state;
    if fit[p].state != fit[p].lastSaved {
      assert p in SavedNow(fit, a.portalPending, timers.slice, timers.save + dt);
      var i :| 0 <= i < |saves| && saves[i].player == p;
      assert saves[i] == M.SaveRequest(p, b.players[p].state, zone, None);
    } else {
      assert p !in SavedNow(fit, a.portalPending, timers.slice, timers.save + dt);
    }
  }

  // How many autosaves fall due in a run.
  function Savings(history: seq<Snapshot>, jobs: seq<TimedJob>): nat
    requires |history| == |jobs| + 1
  {
    if jobs == [] then 0
    else
      var k := |jobs| - 1;
      Savings(history[..|jobs|], jobs[..k]) + if IsSaving(history[k], jobs[k]) then 1 else 0
  }

  lemma SliceJob(a: Snapshot, b: Snapshot, j: TimedJob, rules: Rules)
    requires IsSqrt(rules.sqrt) && JobAdvances(a, b, j, rules)
    ensures b.timers.slice == if IsSaving(a, j) then NextSlice(a.timers.slice) else a.timers.slice
  {
    hide JobAdvances, AllTurns, EachOnce, PacketDone, LeaveDone, EnterDone, PortalDone, M.SavesExactly, IsCoherent,
      TimersDone;
    JobIsDone(a, b, j, rules);
    if IsOpenTick(a, j) {
      var rounds, turns, fit := TickOf(a, b, j, rules);
    }
  }

  // The slice is the first one moved on by as many autosaves as there have been.
  lemma {:induction false} SlicesGoRound(history: seq<Snapshot>, jobs: seq<TimedJob>, rules: Rules)
    requires IsSqrt(rules.sqrt) && IsHistory(history, jobs, rules)
    ensures history[|jobs|].timers.slice == SliceAfter(history[0].timers.slice, Savings(history, jobs))
    decreases |jobs|
  {
    hide JobAdvances, NextSlice, IsSaving;
    if jobs != [] {
      HistoryShrinks(history, jobs, rules);
      SlicesGoRound(history[..|jobs|], jobs[..|jobs| - 1], rules);
      SliceJob(history[|jobs| - 1], history[|jobs|], jobs[|jobs| - 1], rules);
    }
  }

  // The job at which the autosave number `n` falls due, counting from 0.
  lemma {:induction false} SavingNumber(history: seq<Snapshot>, jobs: seq<TimedJob>, rules: Rules,
      n: nat) returns (k: nat)
    requires IsSqrt(rules.sqrt) && IsHistory(history, jobs, rules) && n < Savings(history, jobs)
    ensures k < |jobs| && IsSaving(history[k], jobs[k])
    ensures history[k].timers.slice == SliceAfter(history[0].timers.slice, n)
    decreases |jobs|
  {
    hide JobAdvances, NextSlice, IsSaving, SliceAfter;
    HistoryShrinks(history, jobs, rules);
    var last := |jobs| - 1;
    var front, earlier := history[..|jobs|], jobs[..last];
    if n < Savings(front, earlier) {
      k := SavingNumber(front, earlier, rules, n);
      assert front[k] == history[k] && earlier[k] == jobs[k];
    } else {
      k := last;
      SlicesGoRound(front, earlier, rules);
    }
  }

  lemma HistoryAt(history: seq<Snapshot>, jobs: seq<TimedJob>, rules: Rules, k: nat)
    requires IsSqrt(rules.sqrt) && IsHistory(history, jobs, rules) && k < |jobs|
    ensures |history| == |jobs| + 1 && JobAdvances(history[k], history[k + 1], jobs[k], rules)
  {
    hide JobAdvances;
  }

  // Over every run: among any six autosaves there is one for every player. One that is there then, alive and not
  // leaving, has its state saved when it is over.
  lemma EveryoneIsSavedInTurn(history: seq<Snapshot>, jobs: seq<TimedJob>, rules: Rules, p: PlayerId) returns (k: nat)
    requires IsSqrt(rules.sqrt) && IsHistory(history, jobs, rules)
    requires history[0].timers.slice < AUTOSAVE_SLICES && Savings(history, jobs) >= AUTOSAVE_SLICES
    ensures k < |jobs| && IsSaving(history[k], jobs[k]) && history[k].timers.slice == SliceOf(p)
    ensures IsSaved(history[k], history[k + 1], rules.zone, p)
  {
    hide SliceAfter, SliceOf, NextSlice, IsSaving, Savings, JobAdvances, IsSaved;
    var n := SliceComes(history[0].timers.slice, p);
    k := SavingNumber(history, jobs, rules, n);
    HistoryAt(history, jobs, rules, k);
    hide IsHistory;
    SavingSaves(history[k], history[k + 1], jobs[k], rules, p);
  }

  lemma SliceComes(slice: nat, p: PlayerId) returns (n: nat)
    requires slice < AUTOSAVE_SLICES
    ensures n < AUTOSAVE_SLICES && SliceAfter(slice, n) == SliceOf(p)
  {
    EverySliceComesRound(slice, p);
    n :| 0 <= n < AUTOSAVE_SLICES && SliceAfter(slice, n) == SliceOf(p);
  }
}
