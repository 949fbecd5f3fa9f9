/** What a run of jobs keeps from its first job to its last: nothing is forgotten, every death is reported once, the
    damage a monster took accounts for the hit points it lacks, and a monster on its way home gets there. */
module ZoneHistory {
  import opened Options
  import opened WorldTypes
  import opened Geometry
  import opened Monsters
  import opened AoiGrids
  import opened ZoneData
  import opened ZoneJobs
  import opened ZoneTables
  import opened ZoneOutcomes
  import Players
  import M = Membership

  // What a zone is set up with: its number, its tables, its dice, and the square root it computes with.
  datatype Rules = Rules(
    zone: nat, spawnPoint: Option<Pos>, portals: map<nat, PortalData>, skills: map<nat, SkillData>, roll: nat -> nat,
    sqrt: real -> real)

  function SkillDamage(skills: map<nat, SkillData>, id: nat): int {
    if id in skills then skills[id].damage else 0
  }

  // The damage a job deals to a monster it strikes.
  function PacketDamage(skills: map<nat, SkillData>, packet: ClientPacket): int {
    match packet
    case Attack(_, _) => ATTACK_DAMAGE
    case CastSkill(id, _, _) => SkillDamage(skills, id)
    case _ => 0
  }

  const IDLE_DEED := Deed(0, None, {})

  function PacketDeed(skills: map<nat, SkillData>, session: SessionId, packet: ClientPacket): Deed {
    Deed(PacketDamage(skills, packet), None, {session})
  }

  // What a job brings to the zone it finds.
  function DeedOf(skills: map<nat, SkillData>, job: Job, now: real, closed: bool, lastTick: real): Deed {
    match job
    case FromClient(session, packet) => PacketDeed(skills, session, packet)
    case SpawnRow(session, _, _, _) => Deed(0, None, {session})
    case Tick => Deed(0, if closed then None else Some(Min(now - lastTick, MAX_TICK_DT)), {})
    case _ => IDLE_DEED
  }

  // What a packet of a player in an open zone comes to; a portal and a READY are a matter of the membership.
  ghost predicate ActDone(
    a: Situation, b: Situation, player: PlayerId, packet: ClientPacket, now: real, rules: Rules)
  {
    match packet
    case MoveTo(target) => MoveDone(a, b, player, target, now, rules.sqrt)
    case Attack(atMonster, uid) => AttackDone(a, b, player, atMonster, uid, now, rules.roll)
    case ReviveMe => ReviveDone(a, b, player, rules.spawnPoint)
    case CastSkill(id, atMonster, uid) =>
      exists targets :: SkillDone(a, b, player, rules.skills, id, atMonster, uid, targets, now, rules.roll)
    case UsePortal(_) => b == a.(portalPending := b.portalPending)
    case ReadyToSpawn(_) => b == a
    case Malformed => b == a
  }

  // Packets of strangers, and all packets to a zone that is shutting down, come to nothing.
  ghost predicate PacketDone(
    a: Situation, b: Situation, closed: bool, session: SessionId, packet: ClientPacket, now: real, rules: Rules)
  {
    if closed || session !in a.sessions then b == a else ActDone(a, b, a.sessions[session], packet, now, rules)
  }

  // What a job makes of the membership, and the requests it sends to the database.
  ghost predicate MembersFollow(
    zone: nat, portals: map<nat, PortalData>, a: M.Members, b: M.Members, requests: seq<M.Request>, job: Job)
  {
    match job
    case FromClient(session, packet) => PacketFollows(portals, a, b, requests, session, packet)
    case Disconnected(session) => M.Outcome(b, requests) == M.Disconnect(a, zone, session)
    case SpawnRow(session, player, row, _) => b == M.LoadDone(a, session, player, row) && requests == []
    case PortalSaved(session, player, _, ok) => b == M.PortalDone(a, session, player, ok) && requests == []
    case Tick => TickFollows(zone, a, b, requests)
    case ClearZone => b == M.Clear(a) && M.ClearSaves(a, zone, requests)
    case CloseZone => b == M.Close(a) && requests == []
  }

  // A closed zone ignores every packet.
  ghost predicate PacketFollows(
    portals: map<nat, PortalData>, a: M.Members, b: M.Members, requests: seq<M.Request>, session: SessionId,
    packet: ClientPacket)
  {
    if a.closed then b == a && requests == []
    else match packet
      case ReadyToSpawn(player) => M.Outcome(b, requests) == M.Ready(a, session, player)
      case UsePortal(portal) =>
        if session in a.sessions && a.sessions[session] in a.players
           && InPortal(a.players[a.sessions[session]].state, portals, portal)
        then M.Outcome(b, requests) == M.Portal(a, a.sessions[session], portals[portal].dest, portals[portal].destZone)
        else b == a && requests == []
      case _ => M.SamePresence(a, b) && requests == []
  }

  // A tick saves some of those present who are not leaving, each in the state the tick leaves it in.
  ghost predicate TickFollows(zone: nat, a: M.Members, b: M.Members, requests: seq<M.Request>) {
    && M.SamePresence(a, b)
    && exists who :: who <= b.players.Keys - b.portalPending && M.SavesExactly(b, zone, who, requests)
  }

  ghost function SituationOf(s: Snapshot): Situation {
    Situation(s.players, s.members.sessions, s.members.portalPending, s.monsters, s.deaths, s.sent, s.lost)
  }

  ghost predicate IsCoherent(s: Snapshot) {
    s.members.players == PresenceOf(s.players)
  }

  // A tick: every monster takes its turn once; then whoever is not leaving regenerates, and a slice of the
  // players is saved, if it is time.
  ghost predicate TickDone(
    a: Snapshot, b: Snapshot, rounds: seq<Situation>, turns: seq<Turn>, fit: map<PlayerId, Players.PlayerRecord>,
    now: real, rules: Rules)
    requires IsSqrt(rules.sqrt)
  {
    var dt := Min(now - a.lastTick, MAX_TICK_DT);
    && AllTurns(rounds, turns, dt, now, rules.sqrt) && EachOnce(turns, a.monsters.Keys) && rounds[0] == SituationOf(a)
    && TimersDone(rounds[|turns|], SituationOf(b), fit, a.timers, dt)
    && b.timers == TimersAfter(a.timers, dt) && b.lastTick == now
    && a.requests <= b.requests
    && M.SavesExactly(b.members, rules.zone,
                      SavedNow(fit, a.members.portalPending, a.timers.slice, a.timers.save + dt),
                      b.requests[|a.requests|..])
  }

  // Such a tick sends the database what a tick may send.
  lemma TickRequests(
    a: Snapshot, b: Snapshot, rounds: seq<Situation>, turns: seq<Turn>, fit: map<PlayerId, Players.PlayerRecord>,
    now: real, rules: Rules)
    requires IsSqrt(rules.sqrt) && TickDone(a, b, rounds, turns, fit, now, rules) && IsCoherent(b)
    requires M.SamePresence(a.members, b.members)
    ensures TickFollows(rules.zone, a.members, b.members, b.requests[|a.requests|..])
  {
    hide AllTurns, EachOnce, Regenerated, M.SavesExactly, RegenNews;
    var dt := Min(now - a.lastTick, MAX_TICK_DT);
    var who := SavedNow(fit, a.members.portalPending, a.timers.slice, a.timers.save + dt);
    assert b.players.Keys == fit.Keys;
    assert PresenceOf(b.players).Keys == b.players.Keys;
    assert who <= b.members.players.Keys - b.members.portalPending;
    assert M.SavesExactly(b.members, rules.zone, who, b.requests[|a.requests|..]);
  }

  lemma NobodySaved(m: M.Members, zone: nat)
    ensures TickFollows(zone, m, m, [])
  {
    assert M.SavesExactly(m, zone, {}, []);
  }

  // What a job comes to, for players, monsters and clients.
  ghost predicate JobDone(a: Snapshot, b: Snapshot, j: TimedJob, rules: Rules)
    requires IsSqrt(rules.sqrt)
  {
    var before, after := SituationOf(a), SituationOf(b);
    if j.job.Tick? && !a.members.closed then
      exists rounds, turns, fit :: TickDone(a, b, rounds, turns, fit, j.now, rules)
    else
      && b.timers == a.timers && b.lastTick == a.lastTick
      && match j.job
         case FromClient(session, packet) => PacketDone(before, after, a.members.closed, session, packet, j.now, rules)
         case Disconnected(session) =>
           if session in before.sessions then LeaveDone(before, after, before.sessions[session]) else after == before
         case SpawnRow(session, player, row, born) =>
           if session in a.members.spawnPending && row.Some? && player !in a.players
           then EnterDone(before, after, player, Players.New(session, row.value, born)) else after == before
         case PortalSaved(session, player, nextZone, ok) => PortalDone(before, after, session, player, nextZone, ok)
         case Tick => after == before
         case ClearZone => after == before.(players := map[], sessions := map[])
         case CloseZone => after == before
  }

  ghost predicate JobAdvances(a: Snapshot, b: Snapshot, j: TimedJob, rules: Rules)
    requires IsSqrt(rules.sqrt)
  {
    && a.lastTick <= j.now && a.requests <= b.requests
    && Advances(a, b, DeedOf(rules.skills, j.job, j.now, a.members.closed, a.lastTick), rules.sqrt)
    && MembersFollow(rules.zone, rules.portals, a.members, b.members, b.requests[|a.requests|..], j.job)
    && IsCoherent(a) && IsCoherent(b) && JobDone(a, b, j, rules)
  }

  // The clock is where it was, and what the job sends is at the end.
  predicate SameClock(a: Snapshot, b: Snapshot) {
    b.timers == a.timers && b.lastTick == a.lastTick && a.requests <= b.requests
  }

  lemma PacketIsDone(
    a: Snapshot, b: Snapshot, session: SessionId, packet: ClientPacket, now: real, rules: Rules)
    requires IsSqrt(rules.sqrt) && SameClock(a, b)
    requires PacketDone(SituationOf(a), SituationOf(b), a.members.closed, session, packet, now, rules)
    ensures JobDone(a, b, TimedJob(FromClient(session, packet), now), rules)
  {
    hide PacketDone;
  }

  lemma DisconnectFollows(a: Snapshot, b: Snapshot, session: SessionId, now: real, rules: Rules)
    requires IsSqrt(rules.sqrt) && SameClock(a, b)
    requires var r := M.Disconnect(a.members, rules.zone, session);
             b.members == r.m && b.requests == a.requests + r.requests
    requires if session in a.members.sessions
             then LeaveDone(SituationOf(a), SituationOf(b), a.members.sessions[session])
             else SituationOf(b) == SituationOf(a)
    ensures JobDone(a, b, TimedJob(Disconnected(session), now), rules)
    ensures MembersFollow(rules.zone, rules.portals, a.members, b.members, b.requests[|a.requests|..],
                          Disconnected(session))
  {
    hide LeaveDone, M.Disconnect;
  }

  lemma SpawnFollows(
    a: Snapshot, b: Snapshot, session: SessionId, player: PlayerId, row: Option<PlayerState>, born: real, now: real,
    rules: Rules)
    requires IsSqrt(rules.sqrt) && SameClock(a, b) && b.requests == a.requests
    requires b.members == M.LoadDone(a.members, session, player, row)
    requires if session in a.members.spawnPending && row.Some? && player !in a.players
             then EnterDone(SituationOf(a), SituationOf(b), player, Players.New(session, row.value, born))
             else SituationOf(b) == SituationOf(a)
    ensures JobDone(a, b, TimedJob(SpawnRow(session, player, row, born), now), rules)
    ensures MembersFollow(rules.zone, rules.portals, a.members, b.members, b.requests[|a.requests|..],
                          SpawnRow(session, player, row, born))
  {
    hide EnterDone, M.LoadDone;
  }

  lemma PortalFollows(
    a: Snapshot, b: Snapshot, session: SessionId, player: PlayerId, nextZone: nat, ok: bool, now: real, rules: Rules)
    requires IsSqrt(rules.sqrt) && SameClock(a, b) && b.requests == a.requests
    requires b.members == M.PortalDone(a.members, session, player, ok)
    requires PortalDone(SituationOf(a), SituationOf(b), session, player, nextZone, ok)
    ensures JobDone(a, b, TimedJob(PortalSaved(session, player, nextZone, ok), now), rules)
    ensures MembersFollow(rules.zone, rules.portals, a.members, b.members, b.requests[|a.requests|..],
                          PortalSaved(session, player, nextZone, ok))
  {
    hide PortalDone, M.PortalDone;
  }

  lemma TickAdvances(a: Snapshot, b: Snapshot, now: real, rules: Rules)
    requires IsSqrt(rules.sqrt) && a.requests <= b.requests
    requires TickFollows(rules.zone, a.members, b.members, b.requests[|a.requests|..])
    requires if a.members.closed then b == a
             else exists rounds, turns, fit :: TickDone(a, b, rounds, turns, fit, now, rules)
    ensures JobDone(a, b, TimedJob(Tick, now), rules)
    ensures MembersFollow(rules.zone, rules.portals, a.members, b.members, b.requests[|a.requests|..], Tick)
  {
    hide TickDone, TickFollows;
  }

  lemma ClearFollows(a: Snapshot, b: Snapshot, now: real, rules: Rules)
    requires IsSqrt(rules.sqrt) && SameClock(a, b)
    requires b.members == M.Clear(a.members) && M.ClearSaves(a.members, rules.zone, b.requests[|a.requests|..])
    requires SituationOf(b) == SituationOf(a).(players := map[], sessions := map[])
    ensures JobDone(a, b, TimedJob(ClearZone, now), rules)
    ensures MembersFollow(rules.zone, rules.portals, a.members, b.members, b.requests[|a.requests|..], ClearZone)
  {
    hide M.ClearSaves;
  }

  lemma CloseFollows(a: Snapshot, b: Snapshot, now: real, rules: Rules)
    requires IsSqrt(rules.sqrt) && SameClock(a, b) && SituationOf(b) == SituationOf(a)
    requires b.members == M.Close(a.members) && b.requests == a.requests
    ensures JobDone(a, b, TimedJob(CloseZone, now), rules)
    ensures MembersFollow(rules.zone, rules.portals, a.members, b.members, b.requests[|a.requests|..], CloseZone)
  {
  }

  // No job saves a player whose portal save is under way; a closed zone stays closed, and if it is empty, empty.
  lemma FollowingIsOrderly(
    zone: nat, portals: map<nat, PortalData>, a: M.Members, b: M.Members, requests: seq<M.Request>, job: Job)
    requires MembersFollow(zone, portals, a, b, requests, job)
    ensures forall i | 0 <= i < |requests| :: requests[i].SaveRequest? ==> requests[i].player !in a.portalPending
    ensures a.closed ==> b.closed
    ensures a.closed && IsEmpty(a) ==> IsEmpty(b)
  {
    if job.Tick? {
      var who :| who <= b.players.Keys - b.portalPending && M.SavesExactly(b, zone, who, requests);
    }
    if IsEmpty(a) && b.players.Keys == a.players.Keys {
      assert b.players.Keys == {};
    }
  }

  predicate IsEmpty(m: M.Members) {
    m.players == map[] && m.spawnPending == {}
  }

  // The zone before the first job and after each.
  ghost predicate IsHistory(history: seq<Snapshot>, jobs: seq<TimedJob>, rules: Rules)
    requires IsSqrt(rules.sqrt)
  {
    && |history| == |jobs| + 1
    && forall i | 0 <= i < |jobs| :: JobAdvances(history[i], history[i + 1], jobs[i], rules)
  }

  lemma HistoryGrows(
    history: seq<Snapshot>, jobs: seq<TimedJob>, k: nat, next: Snapshot, rules: Rules)
    requires IsSqrt(rules.sqrt) && k < |jobs| && IsHistory(history, jobs[..k], rules)
    requires JobAdvances(history[k], next, jobs[k], rules)
    ensures IsHistory(history + [next], jobs[..k + 1], rules)
  {
    var longer, done := history + [next], jobs[..k + 1];
    forall i | 0 <= i < |done| ensures JobAdvances(longer[i], longer[i + 1], done[i], rules) {
      if i < k {
        assert JobAdvances(history[i], history[i + 1], jobs[..k][i], rules);
      }
    }
  }

  lemma HistoryShrinks(history: seq<Snapshot>, jobs: seq<TimedJob>, rules: Rules)
    requires IsSqrt(rules.sqrt) && IsHistory(history, jobs, rules) && jobs != []
    ensures var k := |jobs| - 1;
            && IsHistory(history[..|jobs|], jobs[..k], rules)
            && JobAdvances(history[k], history[k + 1], jobs[k], rules)
  {
    var k := |jobs| - 1;
    forall i | 0 <= i < k ensures JobAdvances(history[..|jobs|][i], history[..|jobs|][i + 1], jobs[..k][i], rules) {
      assert JobAdvances(history[i], history[i + 1], jobs[i], rules);
    }
  }

  lemma HistoryStarts(history: seq<Snapshot>, jobs: seq<TimedJob>, rules: Rules)
    requires IsSqrt(rules.sqrt) && IsHistory(history, jobs, rules) && jobs != []
    ensures IsHistory(history[1..], jobs[1..], rules) && JobAdvances(history[0], history[1], jobs[0], rules)
  {
    forall i | 0 <= i < |jobs| - 1 ensures JobAdvances(history[1..][i], history[1..][i + 1], jobs[1..][i], rules) {
      assert JobAdvances(history[i + 1], history[i + 2], jobs[i + 1], rules);
    }
  }

  lemma JobForgetsNothing(a: Snapshot, b: Snapshot, j: TimedJob, rules: Rules)
    requires IsSqrt(rules.sqrt) && JobAdvances(a, b, j, rules)
    ensures a.deaths <= b.deaths && a.requests <= b.requests && b.monsters.Keys == a.monsters.Keys && a.lost <= b.lost
    ensures a.members.closed ==> b.members.closed
    ensures a.members.closed && IsEmpty(a.members) ==> IsEmpty(b.members)
  {
    hide JobDone, LivesOn, MembersFollow, PresenceOf;
    FollowingIsOrderly(rules.zone, rules.portals, a.members, b.members, b.requests[|a.requests|..], j.job);
  }

  // Logs only grow, the monsters are the same ones, and a closed and empty zone stays so.
  lemma {:induction false} NothingForgotten(
    history: seq<Snapshot>, jobs: seq<TimedJob>, rules: Rules)
    requires IsSqrt(rules.sqrt) && IsHistory(history, jobs, rules)
    ensures var a, b := history[0], history[|jobs|];
            && a.deaths <= b.deaths && a.requests <= b.requests && b.monsters.Keys == a.monsters.Keys
              && a.lost <= b.lost
            && (a.members.closed && IsEmpty(a.members) ==> b.members.closed && IsEmpty(b.members))
    decreases |jobs|
  {
    hide MembersFollow, MonstersAdvance, JobDone, PresenceOf, IsCoherent;
    if jobs != [] {
      HistoryShrinks(history, jobs, rules);
      NothingForgotten(history[..|jobs|], jobs[..|jobs| - 1], rules);
      JobForgetsNothing(history[|jobs| - 1], history[|jobs|], jobs[|jobs| - 1], rules);
    }
  }

  function Times(u: MonsterId, log: seq<MonsterId>): nat {
    if log == [] then 0 else Times(u, log[..|log| - 1]) + if log[|log| - 1] == u then 1 else 0
  }

  lemma {:induction false} TimesAppend(u: MonsterId, a: seq<MonsterId>, b: seq<MonsterId>)
    ensures Times(u, a + b) == Times(u, a) + Times(u, b)
    decreases |b|
  {
    if b == [] {
      assert a + b == a;
    } else {
      assert (a + b)[..|a + b| - 1] == a + b[..|b| - 1];
      TimesAppend(u, a, b[..|b| - 1]);
    }
  }

  lemma {:induction false} TimesOfDistinct(u: MonsterId, log: seq<MonsterId>)
    requires Distinct(log)
    ensures Times(u, log) == if u in log then 1 else 0
    decreases |log|
  {
    if log != [] {
      var k := |log| - 1;
      assert log == log[..k] + [log[k]];
      TimesOfDistinct(u, log[..k]);
    }
  }

  predicate Fell(m: MonsterRecord, n: MonsterRecord) {
    !m.phase.Dead? && n.phase.Dead?
  }

  // How often a monster that was alive before a job was dead after it.
  ghost function Falls(history: seq<Snapshot>, u: MonsterId): nat
    requires forall i | 0 <= i < |history| :: u in history[i].monsters
  {
    if |history| < 2 then 0
    else
      var k := |history| - 1;
      Falls(history[..k], u) + if Fell(history[k - 1].monsters[u], history[k].monsters[u]) then 1 else 0
  }

  lemma JobReportsItsFalls(a: Snapshot, b: Snapshot, j: TimedJob, rules: Rules, u: MonsterId)
    requires IsSqrt(rules.sqrt) && JobAdvances(a, b, j, rules) && u in a.monsters && u in b.monsters
    ensures Times(u, b.deaths) == Times(u, a.deaths) + if Fell(a.monsters[u], b.monsters[u]) then 1 else 0
  {
    hide JobDone, MembersFollow, LivesOn, IsCoherent;
    var died := b.deaths[|a.deaths|..];
    assert b.deaths == a.deaths + died;
    TimesAppend(u, a.deaths, died);
    TimesOfDistinct(u, died);
  }

  // Over every run, a monster is reported dead, and rolled for, exactly as often as it fell.
  lemma {:induction false} DeathsMatchFalls(
    history: seq<Snapshot>, jobs: seq<TimedJob>, rules: Rules, u: MonsterId)
    requires IsSqrt(rules.sqrt) && IsHistory(history, jobs, rules)
    requires forall i | 0 <= i < |history| :: u in history[i].monsters
    ensures Times(u, history[|jobs|].deaths) == Times(u, history[0].deaths) + Falls(history, u)
    decreases |jobs|
  {
    hide JobAdvances, Times, Fell;
    if jobs != [] {
      HistoryShrinks(history, jobs, rules);
      hide IsHistory;
      var k := |jobs|;
      DeathsMatchFalls(history[..k], jobs[..k - 1], rules, u);
      JobReportsItsFalls(history[k - 1], history[k], jobs[k - 1], rules, u);
    }
  }

  // The damage a monster has taken since it last healed, job by job: what the job deals, or what the monster had left.
  ghost function DamageTaken(history: seq<Snapshot>, jobs: seq<TimedJob>, skills: map<nat, SkillData>,
      u: MonsterId): int
    requires |history| == |jobs| + 1 && forall i | 0 <= i < |history| :: u in history[i].monsters
    decreases |jobs|
  {
    var k := |jobs|;
    var n := history[k].monsters[u];
    if k == 0 then n.data.maxHp - n.hp
    else
      var m := history[k - 1].monsters[u];
      var before := DamageTaken(history[..k], jobs[..k - 1], skills, u);
      if Heals(m, n) then 0
      else if n.hp < m.hp then before + LeastOf(DeedOf(skills, jobs[k - 1].job, 0.0, false, 0.0).damage, m.hp)
      else before
  }

  // Over every run, a monster lacks exactly the hit points that the jobs that struck it since it last healed took off
  // it.
  lemma {:induction false} DamageAccountsForHp(
    history: seq<Snapshot>, jobs: seq<TimedJob>, rules: Rules, u: MonsterId)
    requires IsSqrt(rules.sqrt) && IsHistory(history, jobs, rules)
    requires forall i | 0 <= i < |history| :: u in history[i].monsters
    ensures var n := history[|jobs|].monsters[u];
            n.hp == n.data.maxHp - DamageTaken(history, jobs, rules.skills, u) && n.data == history[0].monsters[u].data
    decreases |jobs|
  {
    hide JobAdvances, ReturnTick;
    if jobs != [] {
      HistoryShrinks(history, jobs, rules);
      hide IsHistory;
      var k := |jobs|;
      DamageAccountsForHp(history[..k], jobs[..k - 1], rules, u);
      LivesOnIn(history[k - 1], history[k], jobs[k - 1], rules, u);
    }
  }

  lemma LivesOnIn(a: Snapshot, b: Snapshot, j: TimedJob, rules: Rules, u: MonsterId)
    requires IsSqrt(rules.sqrt) && JobAdvances(a, b, j, rules) && u in a.monsters
    ensures u in b.monsters
    ensures LivesOn(a.monsters[u], b.monsters[u], DeedOf(rules.skills, j.job, j.now, a.members.closed, a.lastTick),
          rules.sqrt)
    ensures a.lastTick <= j.now
  {
    hide JobDone, MembersFollow, LivesOn;
    assert u in b.monsters.Keys;
  }

  // ------------------------------------------------------------------------------------------------ homecoming

  // Whether a job moves a returning monster on, and by how much.
  ghost function Stride(a: Snapshot, j: TimedJob, m: MonsterRecord): Option<real> {
    if j.job.Tick? && !a.members.closed then Some(StepOf(m, Min(j.now - a.lastTick, MAX_TICK_DT))) else None
  }

  // One job in the life of a monster on its way home: it stays as it is, or goes on by the stride of the tick. It never
  // comes farther from home nor loses hit points, and it goes nowhere else but home.
  lemma HomewardJob(
    a: Snapshot, b: Snapshot, j: TimedJob, rules: Rules, u: MonsterId)
    requires IsSqrt(rules.sqrt) && JobAdvances(a, b, j, rules) && u in a.monsters && a.monsters[u].phase.Return?
    ensures u in b.monsters
    ensures var m, n := a.monsters[u], b.monsters[u];
            match Stride(a, j, m)
            case None => n == m
            case Some(step) =>
              && step >= 0.0 && n.data == m.data && n.spawn == m.spawn
              && HomeDistance(n, rules.sqrt) == (if step >= HomeDistance(m, rules.sqrt) then 0.0
                else HomeDistance(m, rules.sqrt) - step)
              && (if HomeDistance(n, rules.sqrt) <= 0.1 then n.phase.Idle? && n.hp == n.data.maxHp
                  else n.phase.Return? && n.hp == m.hp)
  {
    hide JobAdvances, ReturnTick, Heals, LeastOf;
    LivesOnIn(a, b, j, rules, u);
    var m := a.monsters[u];
    if Stride(a, j, m).Some? {
      StepIsBounded(m, Min(j.now - a.lastTick, MAX_TICK_DT));
      ReturnTickShrinks(m, Stride(a, j, m).value, rules.sqrt);
    }
  }

  // The time that the ticks of a run let pass.
  ghost function TickTime(history: seq<Snapshot>, jobs: seq<TimedJob>): real
    requires |history| == |jobs| + 1
    decreases |jobs|
  {
    if jobs == [] then 0.0
    else
      var passed := if jobs[0].job.Tick? && !history[0].members.closed
        then Min(jobs[0].now - history[0].lastTick, MAX_TICK_DT) else 0.0;
      passed + TickTime(history[1..], jobs[1..])
  }

  ghost function Way(history: seq<Snapshot>, jobs: seq<TimedJob>, m: MonsterRecord): real
    requires |history| == |jobs| + 1
  {
    m.data.moveSpeed * TickTime(history, jobs)
  }

  lemma WayFirst(history: seq<Snapshot>, jobs: seq<TimedJob>, m: MonsterRecord)
    requires |history| == |jobs| + 1 && jobs != []
    ensures var stride := Stride(history[0], jobs[0], m);
            Way(history, jobs, m) == (if stride.Some? then stride.value else 0.0) + Way(history[1..], jobs[1..], m)
  {
    var passed := if jobs[0].job.Tick? && !history[0].members.closed
      then Min(jobs[0].now - history[0].lastTick, MAX_TICK_DT) else 0.0;
    StepsAdd(m.data.moveSpeed, passed, TickTime(history[1..], jobs[1..]));
  }

  lemma NoWay(history: seq<Snapshot>, jobs: seq<TimedJob>, m: MonsterRecord)
    requires |history| == |jobs| + 1 && jobs == []
    ensures Way(history, jobs, m) == 0.0
  {
    StepsAdd(m.data.moveSpeed, 0.0, 0.0);
  }

  lemma StepsAdd(speed: real, a: real, b: real)
    ensures speed * (a + b) == speed * a + speed * b && speed * 0.0 == 0.0
  {
  }

  // Up to snapshot k the monster has been on its way home, never farther from it than at first, with the hit points it
  // had at first.
  ghost predicate OnItsWay(history: seq<Snapshot>, k: nat, u: MonsterId, sqrt: real -> real) {
    forall i | 0 <= i < k && i < |history| ::
      && u in history[i].monsters && u in history[0].monsters
      && var first, m := history[0].monsters[u], history[i].monsters[u];
         m.phase.Return? && m.hp == first.hp && HomeDistance(m, sqrt) <= HomeDistance(first, sqrt)
  }

  // Over every run: a monster on its way home stays on it, undamaged and never farther away, until it is idle at full
  // health. It gets there if the ticks let any time pass that it can use, and its speed times that time is the way
  // home.
  lemma {:induction false} HomeInTheEnd(
    history: seq<Snapshot>, jobs: seq<TimedJob>, rules: Rules, u: MonsterId)
    returns (k: nat)
    requires IsSqrt(rules.sqrt) && IsHistory(history, jobs, rules)
    requires forall i | 0 <= i < |history| :: u in history[i].monsters
    requires history[0].monsters[u].phase.Return?
    ensures k <= |jobs| + 1 && OnItsWay(history, k, u, rules.sqrt)
    ensures k <= |jobs| ==>
              var n := history[k].monsters[u]; n.phase.Idle? && n.hp == n.data.maxHp
    ensures var m := history[0].monsters[u];
            k == |jobs| + 1 ==>
              && HomeDistance(history[|jobs|].monsters[u], rules.sqrt)
                == HomeDistance(m, rules.sqrt) - Way(history, jobs, m)
              && (Way(history, jobs, m) == 0.0 || Way(history, jobs, m) + 0.1 < HomeDistance(m, rules.sqrt))
    decreases |jobs|
  {
    hide JobAdvances, DistSq, OnItsWay, TickTime;
    var m := history[0].monsters[u];
    if jobs == [] {
      k := 1;
      NoWay(history, jobs, m);
      OnItsWayAtFirst(history, u, rules.sqrt);
    } else {
      HistoryStarts(history, jobs, rules);
      HomewardJob(history[0], history[1], jobs[0], rules, u);
      WayFirst(history, jobs, m);
      if history[1].monsters[u].phase.Idle? {
        k := 1;
        OnItsWayAtFirst(history, u, rules.sqrt);
      } else {
        var rest := HomeInTheEnd(history[1..], jobs[1..], rules, u);
        k := rest + 1;
        OnItsWayFrom(history, rest, u, rules.sqrt);
      }
    }
  }

  lemma OnItsWayAtFirst(history: seq<Snapshot>, u: MonsterId, sqrt: real -> real)
    requires history != [] && u in history[0].monsters && history[0].monsters[u].phase.Return?
    ensures OnItsWay(history, 1, u, sqrt)
  {
  }

  lemma OnItsWayFrom(history: seq<Snapshot>, k: nat, u: MonsterId, sqrt: real -> real)
    requires |history| > 1 && u in history[0].monsters && u in history[1].monsters && OnItsWay(history[1..], k, u, sqrt)
    requires var m, n := history[0].monsters[u], history[1].monsters[u];
             m.phase.Return? && n.hp == m.hp && HomeDistance(n, sqrt) <= HomeDistance(m, sqrt)
    ensures OnItsWay(history, k + 1, u, sqrt)
  {
    forall i | 0 <= i < k + 1 && i < |history|
      ensures u in history[i].monsters
      ensures var first, m := history[0].monsters[u], history[i].monsters[u];
              m.phase.Return? && m.hp == first.hp && HomeDistance(m, sqrt) <= HomeDistance(first, sqrt)
    {
      if i > 0 {
        assert history[1..][i - 1] == history[i];
      }
    }
  }
}
