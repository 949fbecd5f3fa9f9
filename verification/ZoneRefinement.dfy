/** The zone's jobs are steps of the portal protocol: whatever history the zone has, interleaved with its database in
    whatever way, is a run of SpawnPortal, so every theorem about those runs is one about the zone. */
module ZoneRefinement {
  import opened Options
  import opened WorldTypes
  import opened Geometry
  import opened Membership
  import opened ZoneData
  import opened ZoneTables
  import opened ZoneJobs
  import opened ZoneHistory
  import opened SavedRows
  import S = SpawnPortal

  // A job that a database thread has posted is the oldest callback.
  predicate IsPosted(s: S.System, job: Job) {
    match job
    case SpawnRow(session, player, row, _) =>
      && s.callbacks != [] && s.callbacks[0].Loaded?
      && s.callbacks[0].player == player && s.callbacks[0].session == session
      && row == StateOf(s.callbacks[0].row)
    case PortalSaved(session, player, _, ok) =>
      && s.callbacks != [] && s.callbacks[0].PortalSaved?
      && s.callbacks[0].player == player && s.callbacks[0].session == session && s.callbacks[0].ok == ok
    case _ => true
  }

  function StateOf(row: Option<S.Row>): Option<PlayerState> {
    if row.Some? then Some(row.value.state) else None
  }

  // The system once the zone has taken the job, changed its membership and enqueued its requests.
  function After(s: S.System, job: Job, m: Members, requests: seq<Request>): S.System
    requires IsPosted(s, job)
  {
    var taken := if job.SpawnRow? || job.PortalSaved? then s.(callbacks := s.callbacks[1..]) else s;
    S.EnqueueAll(taken.(m := m), requests)
  }

  lemma OneStep(s: S.System, a: S.Action, t: S.System)
    requires S.Step(s, a) == Some(t)
    ensures S.Run(s, [a]) == Some(t)
  {
    assert S.Run(s, []) == Some(s);
    S.RunSnoc(s, [], a);
    assert [] + [a] == [a];
  }

  // Any change of the states of players present is a run of plays.
  lemma {:induction false} PlayedTo(s: S.System, b: Members, rest: set<PlayerId>) returns (schedule: seq<S.Action>)
    requires SamePresence(s.m, b) && rest <= b.players.Keys
    requires forall p | p in b.players && p !in rest :: s.m.players[p] == b.players[p]
    ensures S.Run(s, schedule) == Some(s.(m := b)) && forall i | 0 <= i < |schedule| :: schedule[i].PlayJob?
    decreases rest
  {
    if rest == {} {
      schedule := [];
      assert s.m.players == b.players;
      assert s.(m := b) == s;
    } else {
      var p :| p in rest;
      var a := S.PlayJob(p, b.players[p].state);
      assert p in s.m.players.Keys;
      var played := S.Step(s, a).value;
      assert played.m.players[p] == b.players[p];
      assert SamePresence(played.m, b) && played.(m := b) == s.(m := b);
      var more := PlayedTo(played, b, rest - {p});
      OneStep(s, a, played);
      S.RunConcat(s, [a], more);
      schedule := [a] + more;
    }
  }

  lemma {:induction false} NothingEnqueued(s: S.System)
    ensures S.EnqueueAll(s, []) == s
  {
  }

  // A portal job that a portal packet of its player has caused.
  predicate IsPortalOf(portals: map<nat, PortalData>, m: Members, job: Job, a: S.Action) {
    && a.PortalJob? && job.FromClient? && job.packet.UsePortal? && job.packet.portal in portals
    && job.session in m.sessions && m.sessions[job.session] == a.player
    && a.dest == portals[job.packet.portal].dest && a.destZone == portals[job.packet.portal].destZone
  }

  // The portal jobs among the steps of one job: at most the first, if a packet has caused it.
  predicate PortalsOf(portals: map<nat, PortalData>, m: Members, job: Job, schedule: seq<S.Action>) {
    forall i | 0 <= i < |schedule| && schedule[i].PortalJob? :: i == 0 && IsPortalOf(portals, m, job, schedule[i])
  }

  // A packet is one step, or none, or plays.
  lemma PacketIsSteps(
    s: S.System, portals: map<nat, PortalData>, b: Members, requests: seq<Request>, session: SessionId,
      packet: ClientPacket)
    returns (schedule: seq<S.Action>)
    requires PacketFollows(portals, s.m, b, requests, session, packet)
    ensures S.Run(s, schedule) == Some(S.EnqueueAll(s.(m := b), requests))
    ensures PortalsOf(portals, s.m, FromClient(session, packet), schedule)
  {
    NothingEnqueued(s.(m := b));
    if b == s.m && requests == [] {
      schedule := [];
      assert s.(m := b) == s;
    } else if packet.ReadyToSpawn? {
      schedule := [S.ReadyJob(session, packet.player)];
      OneStep(s, schedule[0], S.EnqueueAll(s.(m := b), requests));
    } else if packet.UsePortal? {
      var data := portals[packet.portal];
      schedule := [S.PortalJob(s.m.sessions[session], data.dest, data.destZone)];
      OneStep(s, schedule[0], S.EnqueueAll(s.(m := b), requests));
    } else {
      schedule := PlayedTo(s, b, b.players.Keys);
    }
  }

  // A tick is plays and one autosave.
  lemma TickIsSteps(s: S.System, b: Members, requests: seq<Request>) returns (schedule: seq<S.Action>)
    requires TickFollows(s.zone, s.m, b, requests)
    ensures S.Run(s, schedule) == Some(S.EnqueueAll(s.(m := b), requests))
    ensures forall i | 0 <= i < |schedule| :: !schedule[i].PortalJob?
  {
    var who :| who <= b.players.Keys - b.portalPending && SavesExactly(b, s.zone, who, requests);
    var plays := PlayedTo(s, b, b.players.Keys);
    var a := S.AutosaveJob(who, requests);
    schedule := plays + [a];
    S.RunSnoc(s, plays, a);
  }

  // Every job of the zone is a run of protocol steps.
  lemma JobIsSteps(
    s: S.System, portals: map<nat, PortalData>, b: Members, requests: seq<Request>,
      job: Job) returns (schedule: seq<S.Action>)
    requires MembersFollow(s.zone, portals, s.m, b, requests, job) && IsPosted(s, job)
    ensures S.Run(s, schedule) == Some(After(s, job, b, requests)) && PortalsOf(portals, s.m, job, schedule)
  {
    hide S.EnqueueAll, S.Run;
    NothingEnqueued(s.(m := b));
    match job
    case FromClient(session, packet) => schedule := PacketIsSteps(s, portals, b, requests, session, packet);
    case Tick => schedule := TickIsSteps(s, b, requests);
    case Disconnected(session) =>
      schedule := [S.DisconnectJob(session)];
      OneStep(s, schedule[0], After(s, job, b, requests));
    case SpawnRow(_, _, _, _) =>
      schedule := [S.RunCallback];
      NothingEnqueued(s.(callbacks := s.callbacks[1..], m := b));
      OneStep(s, schedule[0], After(s, job, b, requests));
    case PortalSaved(_, _, _, _) =>
      schedule := [S.RunCallback];
      NothingEnqueued(s.(callbacks := s.callbacks[1..], m := b));
      OneStep(s, schedule[0], After(s, job, b, requests));
    case ClearZone =>
      schedule := [S.ClearJob(requests)];
      OneStep(s, schedule[0], After(s, job, b, requests));
    case CloseZone =>
      schedule := [S.CloseJob];
      OneStep(s, schedule[0], After(s, job, b, requests));
  }

  // ---------------------------------------------------------------------------------------- the zone with its database

  // Whose turn it is: the zone runs its next job, or the database the oldest task of a player.
  datatype Turn = ZoneTurn | DatabaseTurn(player: PlayerId, ok: bool)

  // The database beside a history of the zone, turn by turn. None where a turn cannot be taken: a callback job that has
  // not been posted, or a task that is not queued.
  ghost function Together(s: S.System, history: seq<Snapshot>, jobs: seq<TimedJob>, turns: seq<Turn>): Option<S.System>
    requires |history| == |jobs| + 1
    decreases |turns|
  {
    if turns == [] then Some(s)
    else match turns[0]
      case DatabaseTurn(player, ok) =>
        (match S.Step(s, S.RunDbTask(player, ok))
         case None => None
         case Some(t) => Together(t, history, jobs, turns[1..]))
      case ZoneTurn =>
        if jobs == [] || !IsPosted(s, jobs[0].job) || !(history[0].requests <= history[1].requests) then None
        else
          var t := After(s, jobs[0].job, history[1].members, history[1].requests[|history[0].requests|..]);
          Together(t, history[1..], jobs[1..], turns[1..])
  }

  // A portal job that job k of the history has caused, when the membership was `m`.
  predicate IsPortalJob(
    history: seq<Snapshot>, jobs: seq<TimedJob>, portals: map<nat, PortalData>, k: nat, a: S.Action, m: Members)
    requires |history| == |jobs| + 1
  {
    k < |jobs| && history[k].members == m && IsPortalOf(portals, m, jobs[k].job, a)
  }

  ghost predicate ComesFromPortal(
    history: seq<Snapshot>, jobs: seq<TimedJob>, portals: map<nat, PortalData>, a: S.Action, m: Members)
    requires |history| == |jobs| + 1
  {
    exists k :: IsPortalJob(history, jobs, portals, k, a, m)
  }

  // So it is for every portal job of a schedule.
  ghost predicate PortalsComeFromJobs(
    history: seq<Snapshot>, jobs: seq<TimedJob>, portals: map<nat, PortalData>, s: S.System, schedule: seq<S.Action>)
    requires |history| == |jobs| + 1 && S.Run(s, schedule).Some?
  {
    forall i | 0 <= i < |schedule| && schedule[i].PortalJob? ::
      ComesFromPortal(history, jobs, portals, schedule[i], S.Before(s, schedule, i).m)
  }

  lemma LaterPortal(
    history: seq<Snapshot>, jobs: seq<TimedJob>, portals: map<nat, PortalData>, a: S.Action, m: Members)
    requires |history| == |jobs| + 1 && jobs != [] && ComesFromPortal(history[1..], jobs[1..], portals, a, m)
    ensures ComesFromPortal(history, jobs, portals, a, m)
  {
    var k: nat :| IsPortalJob(history[1..], jobs[1..], portals, k, a, m);
    assert IsPortalJob(history, jobs, portals, k + 1, a, m);
  }

  lemma BeforeConcat(s: S.System, first: seq<S.Action>, more: seq<S.Action>, i: nat)
    requires S.Run(s, first + more).Some? && S.Run(s, first).Some? && i <= |first + more|
    ensures S.Run(S.Run(s, first).value, more).Some?
    ensures S.Before(s, first + more, i) == if i <= |first| then S.Before(s, first, i)
                                            else S.Before(S.Run(s, first).value, more, i - |first|)
  {
    S.RunConcat(s, first, more);
    if i <= |first| {
      assert (first + more)[..i] == first[..i];
    } else {
      assert (first + more)[..i] == first + more[..i - |first|];
      S.RunPrefix(s, first + more, i);
      S.RunConcat(s, first, more[..i - |first|]);
    }
  }

  // The portal jobs of the first turn and of the turns after it.
  lemma PortalsJoin(
    history: seq<Snapshot>, jobs: seq<TimedJob>, portals: map<nat, PortalData>, s: S.System, first: seq<S.Action>,
    more: seq<S.Action>, zoneTurn: bool)
    requires |history| == |jobs| + 1 && S.Run(s, first).Some? && S.Run(s, first + more).Some?
    requires S.Run(S.Run(s, first).value, more).Some?
    requires zoneTurn ==> jobs != [] && PortalsOf(portals, s.m, jobs[0].job, first) && s.m == history[0].members
    requires !zoneTurn ==> forall i | 0 <= i < |first| :: !first[i].PortalJob?
    requires PortalsComeFromJobs(if zoneTurn then history[1..] else history, if zoneTurn then jobs[1..] else jobs,
                                 portals, S.Run(s, first).value, more)
    ensures PortalsComeFromJobs(history, jobs, portals, s, first + more)
  {
    hide S.Run, S.Before, ComesFromPortal, IsPortalOf;
    var t := S.Run(s, first).value;
    forall i | 0 <= i < |first + more| && (first + more)[i].PortalJob?
      ensures ComesFromPortal(history, jobs, portals, (first + more)[i], S.Before(s, first + more, i).m)
    {
      BeforeConcat(s, first, more, i);
      BeforeFirst(s, first + more);
      if i < |first| {
        assert first[i].PortalJob?;
        PortalNow(history, jobs, portals, first[0], s.m);
      } else {
        BeforeConcat(s, first, more, |first|);
        BeforeFirst(t, more);
        BeforeAll(s, first);
        assert more[i - |first|].PortalJob?;
        if zoneTurn {
          LaterPortal(history, jobs, portals, more[i - |first|], S.Before(t, more, i - |first|).m);
        }
      }
    }
  }

  lemma BeforeFirst(s: S.System, schedule: seq<S.Action>)
    requires S.Run(s, schedule).Some?
    ensures S.Before(s, schedule, 0) == s
  {
    assert schedule[..0] == [];
  }

  lemma BeforeAll(s: S.System, schedule: seq<S.Action>)
    requires S.Run(s, schedule).Some?
    ensures S.Before(s, schedule, |schedule|) == S.Run(s, schedule).value
  {
    assert schedule[..|schedule|] == schedule;
  }

  lemma PortalNow(
    history: seq<Snapshot>, jobs: seq<TimedJob>, portals: map<nat, PortalData>, a: S.Action, m: Members)
    requires |history| == |jobs| + 1 && jobs != [] && history[0].members == m && IsPortalOf(portals, m, jobs[0].job, a)
    ensures ComesFromPortal(history, jobs, portals, a, m)
  {
    assert IsPortalJob(history, jobs, portals, 0, a, m);
  }

  // Every such run is a run of the protocol, and its portal jobs are portal packets of the history.
  lemma {:induction false} TogetherIsProtocol(
    s: S.System, history: seq<Snapshot>, jobs: seq<TimedJob>, turns: seq<Turn>, rules: Rules, end: S.System)
    returns (schedule: seq<S.Action>)
    requires IsSqrt(rules.sqrt) && IsHistory(history, jobs, rules) && s.m == history[0].members && s.zone == rules.zone
    requires Together(s, history, jobs, turns) == Some(end)
    ensures S.Run(s, schedule) == Some(end) && PortalsComeFromJobs(history, jobs, rules.portals, s, schedule)
    decreases |turns|
  {
    hide PortalsComeFromJobs, PortalsOf, S.Run;
    if turns == [] {
      NoPortals(history, jobs, rules.portals, s);
      schedule := [];
    } else {
      var t, first, more;
      if turns[0].DatabaseTurn? {
        var a := S.RunDbTask(turns[0].player, turns[0].ok);
        t := S.Step(s, a).value;
        OneStep(s, a, t);
        first := [a];
        more := TogetherIsProtocol(t, history, jobs, turns[1..], rules, end);
      } else {
        HistoryStarts(history, jobs, rules);
        var requests := history[1].requests[|history[0].requests|..];
        t := After(s, jobs[0].job, history[1].members, requests);
        first := JobIsSteps(s, rules.portals, history[1].members, requests, jobs[0].job);
        AfterParts(s, jobs[0].job, history[1].members, requests);
        more := TogetherIsProtocol(t, history[1..], jobs[1..], turns[1..], rules, end);
      }
      S.RunConcat(s, first, more);
      schedule := first + more;
      PortalsJoin(history, jobs, rules.portals, s, first, more, turns[0].ZoneTurn?);
    }
  }

  lemma NoPortals(history: seq<Snapshot>, jobs: seq<TimedJob>, portals: map<nat, PortalData>, s: S.System)
    requires |history| == |jobs| + 1
    ensures S.Run(s, []) == Some(s) && PortalsComeFromJobs(history, jobs, portals, s, [])
  {
  }

  lemma AfterParts(s: S.System, job: Job, m: Members, requests: seq<Request>)
    requires IsPosted(s, job)
    ensures After(s, job, m, requests).m == m && After(s, job, m, requests).zone == s.zone
  {
    var taken := if job.SpawnRow? || job.PortalSaved? then s.(callbacks := s.callbacks[1..]) else s;
    S.EnqueueAllMembers(taken.(m := m), requests);
    EnqueueAllZone(taken.(m := m), requests);
  }

  // So a portal save is final in the zone itself: when the database reports that one has succeeded, there is a portal
  // packet of that player's, and the row has the destination of its portal and for the rest what the player was when
  // the packet came. Nothing else of the player's is queued for saving, and the zone still counts it as leaving.
  lemma ZonePortalSaveIsFinal(
    rows: map<PlayerId, PlayerState>, history: seq<Snapshot>, jobs: seq<TimedJob>, turns: seq<Turn>, rules: Rules,
    end: S.System, i: nat) returns (k: nat)
    requires IsSqrt(rules.sqrt) && IsHistory(history, jobs, rules) && history[0].members == EMPTY
    requires Together(S.Init(rules.zone, rows), history, jobs, turns) == Some(end)
    requires i < |end.callbacks| && end.callbacks[i].PortalSaved? && end.callbacks[i].ok
    ensures var p := end.callbacks[i].player;
            && p in end.m.portalPending && p in end.rows && S.SavesIn(S.Queue(end, p)) == []
            && k < |jobs| && jobs[k].job.FromClient? && jobs[k].job.packet.UsePortal?
            && jobs[k].job.packet.portal in rules.portals && p in history[k].members.players
            && jobs[k].job.session in history[k].members.sessions
            && history[k].members.sessions[jobs[k].job.session] == p
            && var data, was, row := rules.portals[jobs[k].job.packet.portal], history[k].members.players[p].state,
                 end.rows[p];
               && row.zone == data.destZone && row.state.pos == data.dest
               && row.state.exp == was.exp && row.state.hp == was.hp && row.state.mp == was.mp
  {
    var start := S.Init(rules.zone, rows);
    var schedule := TogetherIsProtocol(start, history, jobs, turns, rules, end);
    S.PortalSaveIsFinal(end, rules.zone, rows, schedule, i);
    var j := PortalSaveIsTheDestination(end, rules.zone, rows, schedule, i);
    hide IsHistory, Together, S.Run, S.Before, S.SavesIn;
    assert ComesFromPortal(history, jobs, rules.portals, schedule[j], S.Before(start, schedule, j).m);
    k :| IsPortalJob(history, jobs, rules.portals, k, schedule[j], S.Before(start, schedule, j).m);
  }
}
