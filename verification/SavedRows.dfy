/** Where the rows of the database come from: what is written for a player is what the zone sent for it, at a step of
    the run that can be named, and with what the player was at that step. */
module SavedRows {
  import opened Options
  import opened WorldTypes
  import opened Membership
  import opened SpawnPortal

  // Action i sent this request.
  ghost predicate RequestedAt(s: System, schedule: seq<Action>, i: nat, r: Request)
    requires Run(s, schedule).Some?
  {
    i < |schedule| && r in RequestsOf(Before(s, schedule, i), schedule[i])
  }

  ghost predicate Requested(s: System, schedule: seq<Action>, r: Request)
    requires Run(s, schedule).Some?
  {
    exists i :: RequestedAt(s, schedule, i, r)
  }

  ghost predicate TasksRequested(s: System, schedule: seq<Action>, q: seq<Task>, p: PlayerId)
    requires Run(s, schedule).Some?
  {
    forall k | 0 <= k < |q| :: q[k].request.player == p && Requested(s, schedule, q[k].request)
  }

  // The save a portal answer is about.
  function SaveOf(c: Callback): Request
    requires c.PortalSaved?
  {
    SaveRequest(c.player, c.sent.state, c.sent.zone, Some(c.session))
  }

  ghost predicate AnswersRequested(s: System, schedule: seq<Action>, callbacks: seq<Callback>)
    requires Run(s, schedule).Some?
  {
    forall k | 0 <= k < |callbacks| :: callbacks[k].PortalSaved? ==> Requested(s, schedule, SaveOf(callbacks[k]))
  }

  // A row nobody has written yet, or one that was sent.
  ghost predicate RowRequested(s: System, schedule: seq<Action>, p: PlayerId, row: Row)
    requires Run(s, schedule).Some?
  {
    || (p in s.rows && row == s.rows[p])
    || exists portal :: Requested(s, schedule, SaveRequest(p, row.state, row.zone, portal))
  }

  ghost predicate AllRequested(s: System, schedule: seq<Action>)
    requires Run(s, schedule).Some?
  {
    var now := Run(s, schedule).value;
    && (forall p: PlayerId :: TasksRequested(s, schedule, Queue(now, p), p))
    && AnswersRequested(s, schedule, now.callbacks)
    && forall p | p in now.rows :: RowRequested(s, schedule, p, now.rows[p])
  }

  // ------------------------------------------------------------------------------------------------ one more step

  lemma RequestedLater(s: System, front: seq<Action>, a: Action, r: Request)
    requires Run(s, front).Some? && Run(s, front + [a]).Some? && Requested(s, front, r)
    ensures Requested(s, front + [a], r)
  {
    var i: nat :| RequestedAt(s, front, i, r);
    assert (front + [a])[..i] == front[..i];
    assert RequestedAt(s, front + [a], i, r);
  }

  lemma RequestedNow(s: System, front: seq<Action>, a: Action, r: Request)
    requires Run(s, front).Some? && Run(s, front + [a]).Some? && r in RequestsOf(Run(s, front).value, a)
    ensures Requested(s, front + [a], r)
  {
    assert (front + [a])[..|front|] == front;
    assert RequestedAt(s, front + [a], |front|, r);
  }

  lemma TasksRequestedLater(s: System, front: seq<Action>, a: Action, q: seq<Task>, taken: nat, p: PlayerId)
    requires Run(s, front).Some? && Run(s, front + [a]).Some? && TasksRequested(s, front, q, p) && taken <= |q|
    ensures TasksRequested(s, front + [a], q[taken..], p)
  {
    hide Requested;
    forall k | 0 <= k < |q[taken..]|
      ensures q[taken..][k].request.player == p && Requested(s, front + [a], q[taken..][k].request)
    {
      RequestedLater(s, front, a, q[taken + k].request);
    }
  }

  lemma AnswersRequestedLater(s: System, front: seq<Action>, a: Action, callbacks: seq<Callback>, taken: nat)
    requires Run(s, front).Some? && Run(s, front + [a]).Some? && AnswersRequested(s, front, callbacks)
          && taken <= |callbacks|
    ensures AnswersRequested(s, front + [a], callbacks[taken..])
  {
    hide Requested;
    forall k | 0 <= k < |callbacks[taken..]| && callbacks[taken..][k].PortalSaved?
      ensures Requested(s, front + [a], SaveOf(callbacks[taken..][k]))
    {
      RequestedLater(s, front, a, SaveOf(callbacks[taken + k]));
    }
  }

  lemma RowRequestedLater(s: System, front: seq<Action>, a: Action, p: PlayerId, row: Row)
    requires Run(s, front).Some? && Run(s, front + [a]).Some? && RowRequested(s, front, p, row)
    ensures RowRequested(s, front + [a], p, row)
  {
    hide Requested;
    if !(p in s.rows && row == s.rows[p]) {
      var portal :| Requested(s, front, SaveRequest(p, row.state, row.zone, portal));
      RequestedLater(s, front, a, SaveRequest(p, row.state, row.zone, portal));
    }
  }

  // Enqueueing adds nothing but the requests, each to its own player's queue.
  lemma {:induction false} EnqueueAllAdds(s: System, requests: seq<Request>, p: PlayerId)
    ensures var q := Queue(EnqueueAll(s, requests), p);
            && Queue(s, p) <= q
            && forall k | |Queue(s, p)| <= k < |q| :: q[k].request in requests && q[k].request.player == p
    decreases |requests|
  {
    if requests != [] {
      EnqueueAllAdds(Enqueue(s, requests[0]), requests[1..], p);
    }
  }

  lemma {:induction false} EnqueueAllRows(s: System, requests: seq<Request>)
    ensures EnqueueAll(s, requests).rows == s.rows && EnqueueAll(s, requests).callbacks == s.callbacks
    decreases |requests|
  {
    if requests != [] {
      EnqueueAllRows(Enqueue(s, requests[0]), requests[1..]);
    }
  }

  lemma NewTasksRequested(s: System, front: seq<Action>, a: Action, q0: seq<Task>, q: seq<Task>, p: PlayerId)
    requires Run(s, front).Some? && Run(s, front + [a]).Some? && TasksRequested(s, front, q0, p) && q0 <= q
    requires forall k | |q0| <= k < |q| ::
               q[k].request in RequestsOf(Run(s, front).value, a) && q[k].request.player == p
    ensures TasksRequested(s, front + [a], q, p)
  {
    hide Requested;
    forall k | 0 <= k < |q| ensures q[k].request.player == p && Requested(s, front + [a], q[k].request) {
      if k < |q0| {
        assert q[k] == q0[k];
        RequestedLater(s, front, a, q[k].request);
      } else {
        RequestedNow(s, front, a, q[k].request);
      }
    }
  }

  lemma ZoneStepRequests(s: System, front: seq<Action>, a: Action)
    requires Run(s, front).Some? && Run(s, front + [a]).Some? && !a.RunDbTask? && AllRequested(s, front)
    ensures AllRequested(s, front + [a])
  {
    hide Requested, RowRequested, TasksRequested, RequestsOf;
    RunSnoc(s, front, a);
    var before, now := Run(s, front).value, Run(s, front + [a]).value;
    var m := ZoneStep(before, a);
    var taken := if a.RunCallback? then before.(callbacks := before.callbacks[1..]) else before;
    EnqueueAllRows(taken.(m := m), RequestsOf(before, a));
    AnswersRequestedLater(s, front, a, before.callbacks, if a.RunCallback? then 1 else 0);
    assert before.callbacks[0..] == before.callbacks;
    forall p: PlayerId ensures TasksRequested(s, front + [a], Queue(now, p), p) {
      EnqueueAllAdds(taken.(m := m), RequestsOf(before, a), p);
      NewTasksRequested(s, front, a, Queue(before, p), Queue(now, p), p);
    }
    forall p | p in now.rows ensures RowRequested(s, front + [a], p, now.rows[p]) {
      RowRequestedLater(s, front, a, p, now.rows[p]);
    }
  }

  lemma DbStepRequests(s: System, front: seq<Action>, a: Action)
    requires Run(s, front).Some? && Run(s, front + [a]).Some? && a.RunDbTask? && AllRequested(s, front)
    ensures AllRequested(s, front + [a])
  {
    hide Requested;
    RunSnoc(s, front, a);
    var before, now := Run(s, front).value, Run(s, front + [a]).value;
    var t := Queue(before, a.player)[0];
    TaskMoves(before, a.player, a.ok);
    assert TasksRequested(s, front, Queue(before, a.player), a.player);
    RequestedLater(s, front, a, t.request);
    forall p: PlayerId ensures TasksRequested(s, front + [a], Queue(now, p), p) {
      assert TasksRequested(s, front, Queue(before, p), p);
      TasksRequestedLater(s, front, a, Queue(before, p), if p == a.player then 1 else 0, p);
      assert Queue(before, p)[0..] == Queue(before, p);
    }
    AnswersRequestedLater(s, front, a, before.callbacks, 0);
    assert before.callbacks[0..] == before.callbacks;
    forall p | p in now.rows ensures RowRequested(s, front + [a], p, now.rows[p]) {
      if p in before.rows && now.rows[p] == before.rows[p] {
        RowRequestedLater(s, front, a, p, now.rows[p]);
      } else {
        assert now.rows[p] == SentRow(t) && p == t.request.player;
      }
    }
  }

  lemma {:induction false} RunRequests(s: System, schedule: seq<Action>)
    requires s.queues == map[] && s.callbacks == [] && Run(s, schedule).Some?
    ensures AllRequested(s, schedule)
  {
    if schedule != [] {
      var last := |schedule| - 1;
      assert schedule == schedule[..last] + [schedule[last]];
      RunPrefix(s, schedule, last);
      RunRequests(s, schedule[..last]);
      if schedule[last].RunDbTask? {
        DbStepRequests(s, schedule[..last], schedule[last]);
      } else {
        ZoneStepRequests(s, schedule[..last], schedule[last]);
      }
    }
  }

  // ------------------------------------------------------------------------------------------------ what was sent

  // What action i says of player p: where a portal takes it, or what it is when it leaves or is saved.
  ghost predicate SavedAt(
    s: System, schedule: seq<Action>, i: nat, p: PlayerId, state: PlayerState, zone: nat, portal: Option<SessionId>)
    requires Run(s, schedule).Some?
  {
    && i < |schedule| && p in Before(s, schedule, i).m.players
    && var was := Before(s, schedule, i).m.players[p];
       match schedule[i]
       case PortalJob(q, dest, destZone) =>
         && q == p && portal == Some(was.session) && p !in Before(s, schedule, i).m.portalPending
         && zone == destZone && state.pos == dest
         && state.exp == was.state.exp && state.hp == was.state.hp && state.mp == was.state.mp
       case DisconnectJob(session) => was.session == session && portal.None? && zone == s.zone && state == was.state
       case ClearJob(_) => portal.None? && zone == s.zone && state == was.state
       case AutosaveJob(_, _) => portal.None? && zone == s.zone && state == was.state
       case _ => false
  }

  lemma SaveSays(s: System, a: Action, r: Request)
    requires Consistent(s.m) && Step(s, a).Some? && r.SaveRequest? && r in RequestsOf(s, a)
    ensures r.player in s.m.players
    ensures var was := s.m.players[r.player];
            match a
            case PortalJob(q, dest, destZone) =>
              && q == r.player && r.portal == Some(was.session) && q !in s.m.portalPending
              && r.zone == destZone && r.state.pos == dest
              && r.state.exp == was.state.exp && r.state.hp == was.state.hp && r.state.mp == was.state.mp
            case DisconnectJob(session) =>
              was.session == session && r.portal.None? && r.zone == s.zone && r.state == was.state
            case ClearJob(_) => r.portal.None? && r.zone == s.zone && r.state == was.state
            case AutosaveJob(_, _) => r.portal.None? && r.zone == s.zone && r.state == was.state
            case _ => false
  {
    if a.ClearJob? || a.AutosaveJob? {
      var i :| 0 <= i < |RequestsOf(s, a)| && RequestsOf(s, a)[i] == r;
    }
  }

  lemma {:induction false} ZoneStays(s: System, schedule: seq<Action>)
    requires Run(s, schedule).Some?
    ensures Run(s, schedule).value.zone == s.zone
  {
    if schedule != [] {
      var last := |schedule| - 1;
      var before, a := Run(s, schedule[..last]).value, schedule[last];
      ZoneStays(s, schedule[..last]);
      if !a.RunDbTask? {
        var m := ZoneStep(before, a);
        var taken := if a.RunCallback? then before.(callbacks := before.callbacks[1..]) else before;
        EnqueueAllZone(taken.(m := m), RequestsOf(before, a));
      }
    }
  }

  lemma {:induction false} EnqueueAllZone(s: System, requests: seq<Request>)
    ensures EnqueueAll(s, requests).zone == s.zone
    decreases |requests|
  {
    if requests != [] {
      EnqueueAllZone(Enqueue(s, requests[0]), requests[1..]);
    }
  }

  // What holds of the system before any action of a run, and that the action can be taken.
  lemma BeforeAction(zone: nat, rows: map<PlayerId, PlayerState>, schedule: seq<Action>, i: nat)
    requires Run(Init(zone, rows), schedule).Some? && i < |schedule|
    ensures var before := Before(Init(zone, rows), schedule, i);
            Consistent(before.m) && before.zone == zone && Step(before, schedule[i]).Some?
  {
    var s := Init(zone, rows);
    hide Step;
    RunPrefix(s, schedule, i + 1);
    assert schedule[..i + 1] == schedule[..i] + [schedule[i]];
    RunPrefix(s, schedule, i);
    RunSnoc(s, schedule[..i], schedule[i]);
    RunKeepsInv(zone, rows, schedule[..i]);
    ZoneStays(s, schedule[..i]);
  }

  lemma RequestedSave(zone: nat, rows: map<PlayerId, PlayerState>, schedule: seq<Action>, r: Request) returns (i: nat)
    requires Run(Init(zone, rows), schedule).Some? && Requested(Init(zone, rows), schedule, r) && r.SaveRequest?
    ensures SavedAt(Init(zone, rows), schedule, i, r.player, r.state, r.zone, r.portal)
  {
    var s := Init(zone, rows);
    i :| RequestedAt(s, schedule, i, r);
    BeforeAction(zone, rows, schedule, i);
    SaveSays(Before(s, schedule, i), schedule[i], r);
    hide Run, Step, Before, Consistent, RequestsOf;
  }

  // A portal save that is answered was sent by a portal job of the run, for the session the answer goes to: it carries
  // the destination of that portal, and otherwise what the player was when the job ran. Once its success is reported
  // this is the player's row.
  lemma PortalSaveIsTheDestination(
    s: System, zone: nat, rows: map<PlayerId, PlayerState>, schedule: seq<Action>, k: nat) returns (i: nat)
    requires Run(Init(zone, rows), schedule) == Some(s)
    requires k < |s.callbacks| && s.callbacks[k].PortalSaved?
    ensures i < |schedule| && schedule[i].PortalJob? && schedule[i].player == s.callbacks[k].player
    ensures var c, before := s.callbacks[k], Before(Init(zone, rows), schedule, i);
            && c.player in before.m.players && before.m.players[c.player].session == c.session
            && c.sent.state.pos == schedule[i].dest && c.sent.zone == schedule[i].destZone
            && var was := before.m.players[c.player].state;
               c.sent.state.exp == was.exp && c.sent.state.hp == was.hp && c.sent.state.mp == was.mp
    ensures var c := s.callbacks[k]; c.ok ==> c.player in s.rows && s.rows[c.player] == c.sent
  {
    RunRequests(Init(zone, rows), schedule);
    i := RequestedSave(zone, rows, schedule, SaveOf(s.callbacks[k]));
    if s.callbacks[k].ok {
      PortalSaveIsFinal(s, zone, rows, schedule, k);
    }
  }

  // No row is invented: each is the one the database began with, or what some step of the run said of its player,
  // whole.
  lemma RowsAreWhatWasSent(
    s: System, zone: nat, rows: map<PlayerId, PlayerState>, schedule: seq<Action>, p: PlayerId)
    returns (i: nat, portal: Option<SessionId>)
    requires Run(Init(zone, rows), schedule) == Some(s) && p in s.rows
    ensures || (p in rows && s.rows[p].state == rows[p] && s.rows[p].zone == zone)
            || SavedAt(Init(zone, rows), schedule, i, p, s.rows[p].state, s.rows[p].zone, portal)
  {
    var start := Init(zone, rows);
    RunRequests(start, schedule);
    i, portal := 0, None;
    assert RowRequested(start, schedule, p, s.rows[p]);
    if !(p in start.rows && s.rows[p] == start.rows[p]) {
      portal :| Requested(start, schedule, SaveRequest(p, s.rows[p].state, s.rows[p].zone, portal));
      i := RequestedSave(zone, rows, schedule, SaveRequest(p, s.rows[p].state, s.rows[p].zone, portal));
    }
  }

  // A row changes exactly when a save of its player runs and succeeds, and becomes what the save carries. A save that
  // is refused leaves it alone.
  lemma OnlySuccessWrites(s: System, a: Action, p: PlayerId)
    requires Step(s, a).Some? && p in s.rows
    ensures p in Step(s, a).value.rows
    ensures Step(s, a).value.rows[p]
         == if a == RunDbTask(p, true) && Queue(s, p)[0].request.SaveRequest?
            then Row(Queue(s, p)[0].request.state, Queue(s, p)[0].request.zone, Queue(s, p)[0].stamp)
            else s.rows[p]
  {
    if !a.RunDbTask? {
      var m := ZoneStep(s, a);
      var taken := if a.RunCallback? then s.(callbacks := s.callbacks[1..]) else s;
      EnqueueAllRows(taken.(m := m), RequestsOf(s, a));
    }
  }
}
