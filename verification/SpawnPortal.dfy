/** The zone's membership jobs running against the asynchronous database: saves and loads queue per player, run at
    any later time, and answer with jobs of their own. One zone and its database as a transition system. The log is
    history: the state a player's row had at first, and then every state enqueued for saving, in order. A stamp is a
    number of log entries; the one it stands for is the last of them. */
module SpawnPortal {
  import opened Options
  import opened WorldTypes
  import opened Membership

  datatype Row = Row(state: PlayerState, zone: nat, stamp: nat)

  datatype Task = Task(request: Request, stamp: nat)

  datatype Callback =
    | Loaded(player: PlayerId, session: SessionId, row: Option<Row>, stamp: nat)
    | PortalSaved(player: PlayerId, session: SessionId, sent: Row, ok: bool)

  datatype System = System(
    zone: nat,
    m: Members,
    queues: map<PlayerId, seq<Task>>,   // one first-in-first-out queue per key; keys interleave freely
    callbacks: seq<Callback>,           // jobs the database threads have posted back to the zone
    rows: map<PlayerId, Row>,
    log: map<PlayerId, seq<PlayerState>>,   // history: the states of a player's row to be, oldest first
    failed: set<PlayerId>)              // history: players some save of whom the database refused

  datatype Action =
    | ReadyJob(session: SessionId, player: PlayerId)
    | DisconnectJob(session: SessionId)
    | PortalJob(player: PlayerId, dest: Pos, destZone: nat)
    | CloseJob
    | ClearJob(requests: seq<Request>)
    | AutosaveJob(who: set<PlayerId>, requests: seq<Request>)
    | PlayJob(player: PlayerId, state: PlayerState)     // any job that changes a present player's state
    | RunDbTask(player: PlayerId, ok: bool)             // the oldest task of that key
    | RunCallback                                       // the oldest posted callback

  function Init(zone: nat, rows: map<PlayerId, PlayerState>): System {
    System(zone, EMPTY, map[], [], map p | p in rows :: Row(rows[p], zone, 1), map p | p in rows :: [rows[p]], {})
  }

  function Queue(s: System, p: PlayerId): seq<Task> {
    if p in s.queues then s.queues[p] else []
  }

  function RowOf(s: System, p: PlayerId): Option<Row> {
    if p in s.rows then Some(s.rows[p]) else None
  }

  function Log(s: System, p: PlayerId): seq<PlayerState> {
    if p in s.log then s.log[p] else []
  }

  // The log of the request's player once it is enqueued.
  function Logged(s: System, r: Request): seq<PlayerState> {
    Log(s, r.player) + if r.SaveRequest? then [r.state] else []
  }

  function Enqueue(s: System, r: Request): System {
    var p, log := r.player, Logged(s, r);
    s.(queues := s.queues[p := Queue(s, p) + [Task(r, |log|)]], log := s.log[p := log])
  }

  function EnqueueAll(s: System, requests: seq<Request>): System
    decreases |requests|
  {
    if requests == [] then s else EnqueueAll(Enqueue(s, requests[0]), requests[1..])
  }

  function Apply(s: System, o: Outcome): System {
    EnqueueAll(s.(m := o.m), o.requests)
  }

  function SentRow(t: Task): Row
    requires t.request.SaveRequest?
  {
    Row(t.request.state, t.request.zone, t.stamp)
  }

  // The job a finished task posts back to the zone, if any.
  function Answer(s: System, p: PlayerId, t: Task, ok: bool): seq<Callback> {
    match t.request
    case SaveRequest(_, _, _, portal) => if portal.Some? then [PortalSaved(p, portal.value, SentRow(t), ok)] else []
    case LoadRequest(_, session) => [Loaded(p, session, if ok then RowOf(s, p) else None, t.stamp)]
  }

  // The update touches nothing when the row is missing, and then still succeeds.
  function RunTask(s: System, p: PlayerId, t: Task, ok: bool): System {
    var save := t.request.SaveRequest?;
    s.(rows := if save && ok && p in s.rows then s.rows[p := SentRow(t)] else s.rows,
       failed := if save && !ok then s.failed + {p} else s.failed,
       callbacks := s.callbacks + Answer(s, p, t, ok))
  }

  function RunPosted(s: System, c: Callback): System {
    match c
    case Loaded(p, session, row, _) =>
      s.(m := LoadDone(s.m, session, p, if row.Some? then Some(row.value.state) else None))
    case PortalSaved(p, session, _, ok) => s.(m := PortalDone(s.m, session, p, ok))
  }

  ghost function Step(s: System, a: Action): Option<System> {
    match a
    case ReadyJob(session, p) => Some(Apply(s, Ready(s.m, session, p)))
    case DisconnectJob(session) => Some(Apply(s, Disconnect(s.m, s.zone, session)))
    case PortalJob(p, dest, destZone) => Some(Apply(s, Portal(s.m, p, dest, destZone)))
    case CloseJob => Some(s.(m := Close(s.m)))
    case ClearJob(requests) =>
      if ClearSaves(s.m, s.zone, requests) then Some(Apply(s, Outcome(Clear(s.m), requests))) else None
    case AutosaveJob(who, requests) =>
      if who <= s.m.players.Keys - s.m.portalPending && SavesExactly(s.m, s.zone, who, requests)
      then Some(EnqueueAll(s, requests)) else None
    case PlayJob(p, state) =>
      if p in s.m.players
      then Some(s.(m := s.m.(players := s.m.players[p := s.m.players[p].(state := state)]))) else None
    case RunDbTask(p, ok) =>
      if Queue(s, p) == [] then None
      else Some(RunTask(s.(queues := s.queues[p := Queue(s, p)[1..]]), p, Queue(s, p)[0], ok))
    case RunCallback =>
      if s.callbacks == [] then None else Some(RunPosted(s.(callbacks := s.callbacks[1..]), s.callbacks[0]))
  }

  ghost function Run(s: System, schedule: seq<Action>): Option<System> {
    if schedule == [] then Some(s)
    else match Run(s, schedule[..|schedule| - 1])
      case None => None
      case Some(before) => Step(before, schedule[|schedule| - 1])
  }

  // ------------------------------------------------------------------------------------------------ invariant

  function SavesIn(q: seq<Task>): seq<Task> {
    if q == [] then []
    else SavesIn(q[..|q| - 1]) + if q[|q| - 1].request.SaveRequest? then [q[|q| - 1]] else []
  }

  function PortalAnswers(callbacks: seq<Callback>, p: PlayerId): seq<Callback> {
    if callbacks == [] then []
    else PortalAnswers(callbacks[..|callbacks| - 1], p)
         + var last := callbacks[|callbacks| - 1];
           if last.PortalSaved? && last.player == p then [last] else []
  }

  predicate IsPortalSave(t: Task) {
    t.request.SaveRequest? && t.request.portal.Some?
  }

  ghost predicate NoPortalSave(saves: seq<Task>) {
    forall i | 0 <= i < |saves| :: !IsPortalSave(saves[i])
  }

  // The portal save is queued as the last save of its player, and nobody has answered it yet.
  ghost predicate PortalQueued(saves: seq<Task>, answers: seq<Callback>) {
    && saves != [] && IsPortalSave(saves[|saves| - 1]) && NoPortalSave(saves[..|saves| - 1])
    && answers == []
  }

  // The portal save has run: no save of the player is queued, and if it succeeded the row is what it sent.
  ghost predicate PortalAnswered(saves: seq<Task>, answers: seq<Callback>, row: Option<Row>) {
    saves == [] && |answers| == 1 && answers[0].PortalSaved? && (answers[0].ok ==> row == Some(answers[0].sent))
  }

  // What holds of one player's queued saves, portal answers, pending flag and row.
  ghost predicate PortalState(saves: seq<Task>, answers: seq<Callback>, pending: bool, row: Option<Row>) {
    if pending then PortalQueued(saves, answers) || PortalAnswered(saves, answers, row)
    else NoPortalSave(saves) && answers == []
  }

  // A player's queue holds only that player's tasks, and saves only for an existing row.
  ghost predicate OwnTasks(q: seq<Task>, p: PlayerId, hasRow: bool) {
    forall i | 0 <= i < |q| :: q[i].request.player == p && (q[i].request.SaveRequest? ==> hasRow)
  }

  ghost predicate InvOf(s: System, p: PlayerId) {
    && OwnTasks(Queue(s, p), p, p in s.rows)
    && PortalState(SavesIn(Queue(s, p)), PortalAnswers(s.callbacks, p), p in s.m.portalPending, RowOf(s, p))
  }

  ghost predicate LoadsHaveRows(callbacks: seq<Callback>, rows: map<PlayerId, Row>) {
    forall i | 0 <= i < |callbacks| :: callbacks[i].Loaded? && callbacks[i].row.Some? ==> callbacks[i].player in rows
  }

  ghost predicate Inv(s: System) {
    && Consistent(s.m)
    && s.m.players.Keys <= s.rows.Keys
    && LoadsHaveRows(s.callbacks, s.rows)
    && forall p: PlayerId :: InvOf(s, p)
  }

  // ------------------------------------------------------------------------------------------------ enqueueing

  lemma SavesInSnoc(q: seq<Task>, t: Task)
    ensures SavesIn(q + [t]) == SavesIn(q) + if t.request.SaveRequest? then [t] else []
  {
    assert (q + [t])[..|q|] == q;
  }

  // What one finished task adds to the answers of player r.
  lemma AnswersAfter(s: System, p: PlayerId, t: Task, ok: bool, r: PlayerId)
    ensures PortalAnswers(s.callbacks + Answer(s, p, t, ok), r)
         == PortalAnswers(s.callbacks, r) + if IsPortalSave(t) && p == r then Answer(s, p, t, ok) else []
  {
    var a := Answer(s, p, t, ok);
    if a == [] {
      assert s.callbacks + a == s.callbacks;
    } else {
      assert (s.callbacks + a)[..|s.callbacks|] == s.callbacks;
    }
  }

  // A save that is not a portal's may only be enqueued for a player with a row who is not leaving through a portal.
  ghost predicate MayEnqueue(s: System, r: Request) {
    r.SaveRequest? ==> r.portal.None? && r.player !in s.m.portalPending && r.player in s.rows
  }

  // One queue: a task that is no portal save joins it, unless a portal is pending and it is a save.
  lemma TaskJoins(q: seq<Task>, t: Task, answers: seq<Callback>, pending: bool, row: Option<Row>)
    requires PortalState(SavesIn(q), answers, pending, row) && !IsPortalSave(t) && (t.request.SaveRequest? ==> !pending)
    ensures PortalState(SavesIn(q + [t]), answers, pending, row)
  {
    SavesInSnoc(q, t);
    assert SavesIn(q) + [] == SavesIn(q);
  }

  // One queue: the portal's save is the last one in it, and the one that is owed an answer.
  lemma PortalSaveJoins(q: seq<Task>, t: Task, answers: seq<Callback>, row: Option<Row>)
    requires PortalState(SavesIn(q), answers, false, row) && IsPortalSave(t)
    ensures PortalState(SavesIn(q + [t]), answers, true, row)
  {
    SavesInSnoc(q, t);
    assert (SavesIn(q) + [t])[..|SavesIn(q)|] == SavesIn(q);
    assert PortalQueued(SavesIn(q + [t]), answers);
  }

  lemma OwnTaskJoins(q: seq<Task>, t: Task, p: PlayerId, hasRow: bool)
    requires OwnTasks(q, p, hasRow) && t.request.player == p && (t.request.SaveRequest? ==> hasRow)
    ensures OwnTasks(q + [t], p, hasRow)
  {
  }

  // What enqueueing a request does to the parts of the system the invariant speaks of.
  lemma EnqueueParts(s: System, r: Request, p: PlayerId)
    ensures var next := Enqueue(s, r);
            && next.m == s.m && next.rows == s.rows && next.callbacks == s.callbacks
            && Queue(next, p) == Queue(s, p) + if p == r.player then [Task(r, |Logged(s, r)|)] else []
  {
  }

  lemma EnqueueKeepsInv(s: System, r: Request)
    requires Inv(s) && MayEnqueue(s, r)
    ensures Inv(Enqueue(s, r))
  {
    hide Enqueue, SavesIn, PortalState, OwnTasks, Queue, PortalAnswers, RowOf, Consistent;
    var next := Enqueue(s, r);
    EnqueueParts(s, r, r.player);
    forall p: PlayerId ensures InvOf(next, p) {
      assert InvOf(s, p);
      EnqueueParts(s, r, p);
      assert RowOf(next, p) == RowOf(s, p) by { SameRow(s, next, p); }
      if p == r.player {
        OwnTaskJoins(Queue(s, p), Task(r, |Logged(s, r)|), p, p in s.rows);
        TaskJoins(Queue(s, p), Task(r, |Logged(s, r)|), PortalAnswers(s.callbacks, p), p in s.m.portalPending,
          RowOf(s, p));
      } else {
        assert Queue(s, p) + [] == Queue(s, p);
      }
    }
  }

  lemma SameRow(s: System, t: System, p: PlayerId)
    requires s.rows == t.rows
    ensures RowOf(s, p) == RowOf(t, p)
  {
  }

  lemma {:induction false} EnqueueAllKeepsInv(s: System, requests: seq<Request>)
    requires Inv(s) && forall i | 0 <= i < |requests| :: MayEnqueue(s, requests[i])
    ensures Inv(EnqueueAll(s, requests)) && EnqueueAll(s, requests).m == s.m
    decreases |requests|
  {
    if requests != [] {
      var next := Enqueue(s, requests[0]);
      assert MayEnqueue(s, requests[0]);
      EnqueueKeepsInv(s, requests[0]);
      forall i | 0 <= i < |requests[1..]| ensures MayEnqueue(next, requests[1..][i]) {
        assert MayEnqueue(s, requests[i + 1]);
      }
      EnqueueAllKeepsInv(next, requests[1..]);
    }
  }

  // Changing the membership without touching portalPending.
  lemma MembersKeepInv(s: System, m: Members)
    requires Inv(s) && Consistent(m) && m.portalPending == s.m.portalPending && m.players.Keys <= s.rows.Keys
    ensures Inv(s.(m := m))
  {
    forall p: PlayerId ensures InvOf(s.(m := m), p) {
      assert InvOf(s, p);
    }
  }

  lemma PortalJobKeepsInv(s: System, p: PlayerId, dest: Pos, destZone: nat)
    requires Inv(s) && p in s.m.players && p !in s.m.portalPending
    ensures Inv(Apply(s, Portal(s.m, p, dest, destZone)))
  {
    var o := Portal(s.m, p, dest, destZone);
    PortalKeepsConsistent(s.m, 0, p, dest, destZone, false);
    var mid := s.(m := o.m);
    var next := Enqueue(mid, o.requests[0]);
    assert EnqueueAll(mid, o.requests) == next by {
      assert o.requests[1..] == [];
      assert EnqueueAll(next, []) == next;
    }
    PortalEnqueueKeepsInv(s, mid, o.requests[0], p);
  }

  lemma PortalEnqueueKeepsInv(s: System, mid: System, r: Request, p: PlayerId)
    requires Inv(s) && p in s.m.players && p !in s.m.portalPending && Consistent(mid.m)
    requires mid == s.(m := mid.m) && mid.m.portalPending == s.m.portalPending + {p} && mid.m.players == s.m.players
    requires r.SaveRequest? && r.portal.Some? && r.player == p
    ensures Inv(Enqueue(mid, r))
  {
    hide Enqueue, SavesIn, PortalState, OwnTasks, Queue, PortalAnswers, RowOf, Consistent;
    var next := Enqueue(mid, r);
    EnqueueParts(mid, r, p);
    forall q: PlayerId ensures InvOf(next, q) {
      assert InvOf(s, q);
      EnqueueParts(mid, r, q);
      assert Queue(mid, q) == Queue(s, q) by { SameQueue(s, mid, q); }
      assert RowOf(next, q) == RowOf(s, q) by { SameRow(s, next, q); }
      if q == p {
        OwnTaskJoins(Queue(s, p), Task(r, |Logged(mid, r)|), p, p in s.rows);
        PortalSaveJoins(Queue(s, p), Task(r, |Logged(mid, r)|), PortalAnswers(s.callbacks, p), RowOf(s, p));
      } else {
        assert Queue(s, q) + [] == Queue(s, q);
      }
    }
  }

  lemma SameQueue(s: System, t: System, p: PlayerId)
    requires s.queues == t.queues
    ensures Queue(s, p) == Queue(t, p)
  {
  }

  // ------------------------------------------------------------------------------------------------ database steps

  lemma {:induction false} SavesInHead(q: seq<Task>)
    requires q != []
    ensures SavesIn(q) == (if q[0].request.SaveRequest? then [q[0]] else []) + SavesIn(q[1..])
  {
    if |q| > 1 {
      SavesInHead(q[..|q| - 1]);
      assert q[..|q| - 1][1..] == q[1..][..|q[1..]| - 1];
    }
  }

  // The oldest save runs: what was owed to a pending portal is now answered, or still last in the queue.
  lemma SaveRuns(saves: seq<Task>, answers: seq<Callback>, pending: bool, row: Option<Row>, ok: bool,
                 answers': seq<Callback>, row': Option<Row>)
    requires PortalState(saves, answers, pending, row) && saves != [] && saves[0].request.SaveRequest?
    requires ok ==> row' == Some(SentRow(saves[0]))
    requires if IsPortalSave(saves[0])
             then exists p, session :: answers' == answers + [PortalSaved(p, session, SentRow(saves[0]), ok)]
             else answers' == answers
    ensures PortalState(saves[1..], answers', pending, row')
  {
    if pending && !IsPortalSave(saves[0]) {
      var last := |saves| - 1;
      assert last > 0 && saves[1..][last - 1] == saves[last];
      assert saves[1..][..last - 1] == saves[..last][1..];
    }
  }

  // Running the oldest task of a player keeps that player's invariant.
  lemma RunSaveKeepsPlayerInv(s: System, p: PlayerId, ok: bool)
    requires InvOf(s, p) && Queue(s, p) != [] && Queue(s, p)[0].request.SaveRequest?
    ensures InvOf(Step(s, RunDbTask(p, ok)).value, p)
  {
    var next := Step(s, RunDbTask(p, ok)).value;
    var q := Queue(s, p);
    assert Queue(next, p) == q[1..];
    SavesInHead(q);
    assert SavesIn(q)[1..] == SavesIn(q[1..]);
    AnswersAfter(s.(queues := s.queues[p := q[1..]]), p, q[0], ok, p);
    SaveRuns(SavesIn(q), PortalAnswers(s.callbacks, p), p in s.m.portalPending, RowOf(s, p), ok,
             PortalAnswers(next.callbacks, p), RowOf(next, p));
  }

  lemma RunLoadKeepsPlayerInv(s: System, p: PlayerId, ok: bool)
    requires InvOf(s, p) && Queue(s, p) != [] && Queue(s, p)[0].request.LoadRequest?
    ensures InvOf(Step(s, RunDbTask(p, ok)).value, p)
  {
    var next := Step(s, RunDbTask(p, ok)).value;
    var q := Queue(s, p);
    assert Queue(next, p) == q[1..];
    SavesInHead(q);
    assert SavesIn(q) == SavesIn(q[1..]);
    assert PortalAnswers(next.callbacks, p) == PortalAnswers(s.callbacks, p) by {
      AnswersAfter(s.(queues := s.queues[p := q[1..]]), p, q[0], ok, p);
    }
    assert RowOf(next, p) == RowOf(s, p) && next.m == s.m;
    assert OwnTasks(q[1..], p, p in s.rows);
  }

  lemma RunTaskKeepsOthers(s: System, p: PlayerId, ok: bool, r: PlayerId)
    requires InvOf(s, r) && Queue(s, p) != [] && r != p
    ensures InvOf(Step(s, RunDbTask(p, ok)).value, r)
  {
    var next := Step(s, RunDbTask(p, ok)).value;
    AnswersAfter(s.(queues := s.queues[p := Queue(s, p)[1..]]), p, Queue(s, p)[0], ok, r);
    assert PortalAnswers(next.callbacks, r) == PortalAnswers(s.callbacks, r);
    assert Queue(next, r) == Queue(s, r) && RowOf(next, r) == RowOf(s, r);
  }

  lemma RunTaskKeepsInv(s: System, p: PlayerId, ok: bool)
    requires Inv(s) && Queue(s, p) != []
    ensures Inv(Step(s, RunDbTask(p, ok)).value)
  {
    var next := Step(s, RunDbTask(p, ok)).value;
    assert next.m == s.m && s.rows.Keys == next.rows.Keys && LoadsHaveRows(next.callbacks, next.rows);
    forall r: PlayerId ensures InvOf(next, r) {
      assert InvOf(s, r);
      if r != p { RunTaskKeepsOthers(s, p, ok, r); }
      else if Queue(s, p)[0].request.SaveRequest? { RunSaveKeepsPlayerInv(s, p, ok); }
      else { RunLoadKeepsPlayerInv(s, p, ok); }
    }
  }

  lemma {:induction false} AnswersHead(callbacks: seq<Callback>, p: PlayerId)
    requires callbacks != []
    ensures PortalAnswers(callbacks, p)
         == (if callbacks[0].PortalSaved? && callbacks[0].player == p then [callbacks[0]] else [])
            + PortalAnswers(callbacks[1..], p)
  {
    if |callbacks| > 1 {
      AnswersHead(callbacks[..|callbacks| - 1], p);
      assert callbacks[..|callbacks| - 1][1..] == callbacks[1..][..|callbacks[1..]| - 1];
    }
  }

  // The zone processes the answer a pending portal was waiting for.
  lemma AnswerTaken(saves: seq<Task>, answers: seq<Callback>, rest: seq<Callback>, pending: bool, row: Option<Row>)
    requires PortalState(saves, answers, pending, row) && |answers| == 1 + |rest|
    ensures pending && PortalState(saves, rest, false, row)
  {
  }

  // How one callback touches the portal bookkeeping of player r.
  lemma CallbackEffect(s: System, r: PlayerId)
    requires s.callbacks != []
    ensures var next, c := Step(s, RunCallback).value, s.callbacks[0];
            var mine := c.PortalSaved? && c.player == r;
            && next.queues == s.queues && next.rows == s.rows && next.callbacks == s.callbacks[1..]
            && (r in next.m.portalPending) == (r in s.m.portalPending && !mine)
            && PortalAnswers(s.callbacks, r) == (if mine then [c] else []) + PortalAnswers(next.callbacks, r)
  {
    AnswersHead(s.callbacks, r);
  }

  lemma CallbackKeepsInvOf(s: System, r: PlayerId)
    requires InvOf(s, r) && s.callbacks != []
    ensures InvOf(Step(s, RunCallback).value, r)
  {
    var next, c := Step(s, RunCallback).value, s.callbacks[0];
    CallbackEffect(s, r);
    var saves, row := SavesIn(Queue(s, r)), RowOf(s, r);
    assert saves == SavesIn(Queue(next, r)) && row == RowOf(next, r);
    if c.PortalSaved? && c.player == r {
      AnswerTaken(saves, PortalAnswers(s.callbacks, r), PortalAnswers(next.callbacks, r), r in s.m.portalPending, row);
    } else {
      assert PortalAnswers(s.callbacks, r) == PortalAnswers(next.callbacks, r);
      assert PortalState(saves, PortalAnswers(next.callbacks, r), r in s.m.portalPending, row);
    }
  }

  lemma CallbackKeepsInv(s: System)
    requires Inv(s) && s.callbacks != []
    ensures Inv(Step(s, RunCallback).value)
  {
    var next := Step(s, RunCallback).value;
    assert Consistent(next.m) && next.m.players.Keys <= s.rows.Keys by {
      match s.callbacks[0]
      case Loaded(p, session, row, _) =>
        LoadDoneKeepsConsistent(s.m, session, p, if row.Some? then Some(row.value.state) else None);
      case PortalSaved(p, session, _, ok) =>
        PortalKeepsConsistent(s.m, session, p, Point(0.0, 0.0, 0.0), 0, ok);
    }
    forall r: PlayerId ensures InvOf(next, r) {
      assert InvOf(s, r);
      CallbackKeepsInvOf(s, r);
    }
  }

  // ------------------------------------------------------------------------------------------------ zone jobs

  lemma DisconnectKeepsInv(s: System, session: SessionId)
    requires Inv(s)
    ensures Inv(Apply(s, Disconnect(s.m, s.zone, session)))
  {
    var o := Disconnect(s.m, s.zone, session);
    DisconnectKeepsConsistent(s.m, s.zone, session);
    MembersKeepInv(s, o.m);
    EnqueueAllKeepsInv(s.(m := o.m), o.requests);
  }

  lemma ReadyKeepsInv(s: System, session: SessionId, p: PlayerId)
    requires Inv(s)
    ensures Inv(Apply(s, Ready(s.m, session, p)))
  {
    var o := Ready(s.m, session, p);
    ReadyKeepsConsistent(s.m, session, p);
    MembersKeepInv(s, o.m);
    EnqueueAllKeepsInv(s.(m := o.m), o.requests);
  }

  lemma ClearKeepsInv(s: System, requests: seq<Request>)
    requires Inv(s) && ClearSaves(s.m, s.zone, requests)
    ensures Inv(Apply(s, Outcome(Clear(s.m), requests)))
  {
    MembersKeepInv(s, Clear(s.m));
    EnqueueAllKeepsInv(s.(m := Clear(s.m)), requests);
  }

  lemma StepKeepsInv(s: System, a: Action)
    requires Inv(s) && Step(s, a).Some?
    ensures Inv(Step(s, a).value)
  {
    match a
    case ReadyJob(session, p) => ReadyKeepsInv(s, session, p);
    case DisconnectJob(session) => DisconnectKeepsInv(s, session);
    case PortalJob(p, dest, destZone) =>
      if p in s.m.players && p !in s.m.portalPending { PortalJobKeepsInv(s, p, dest, destZone); }
    case CloseJob => MembersKeepInv(s, Close(s.m));
    case ClearJob(requests) => ClearKeepsInv(s, requests);
    case AutosaveJob(who, requests) => EnqueueAllKeepsInv(s, requests);
    case PlayJob(p, state) => MembersKeepInv(s, Step(s, a).value.m);
    case RunDbTask(p, ok) => RunTaskKeepsInv(s, p, ok);
    case RunCallback => CallbackKeepsInv(s);
  }

  lemma InitInv(zone: nat, rows: map<PlayerId, PlayerState>)
    ensures Inv(Init(zone, rows))
  {
  }

  lemma {:induction false} RunKeepsInv(zone: nat, rows: map<PlayerId, PlayerState>, schedule: seq<Action>)
    requires Run(Init(zone, rows), schedule).Some?
    ensures Inv(Run(Init(zone, rows), schedule).value)
  {
    if schedule == [] {
      InitInv(zone, rows);
    } else {
      RunKeepsInv(zone, rows, schedule[..|schedule| - 1]);
      StepKeepsInv(Run(Init(zone, rows), schedule[..|schedule| - 1]).value, schedule[|schedule| - 1]);
    }
  }

  // ------------------------------------------------------------------------------------------------ portal theorems

  function PortalSaves(tasks: seq<Task>): nat {
    if tasks == [] then 0 else PortalSaves(tasks[..|tasks| - 1]) + if IsPortalSave(tasks[|tasks| - 1]) then 1 else 0
  }

  lemma {:induction false} NoneQueued(tasks: seq<Task>)
    requires NoPortalSave(tasks)
    ensures PortalSaves(tasks) == 0
  {
    if tasks != [] {
      NoneQueued(tasks[..|tasks| - 1]);
    }
  }

  // portalPending_ holds a player exactly while one portal save, or its answer, is outstanding; never two.
  lemma PortalPendingIsExact(s: System, zone: nat, rows: map<PlayerId, PlayerState>, schedule: seq<Action>, p: PlayerId)
    requires Run(Init(zone, rows), schedule) == Some(s)
    ensures PortalSaves(SavesIn(Queue(s, p))) + |PortalAnswers(s.callbacks, p)| == if p in s.m.portalPending then 1
          else 0
  {
    RunKeepsInv(zone, rows, schedule);
    assert InvOf(s, p);
    var saves := SavesIn(Queue(s, p));
    if PortalQueued(saves, PortalAnswers(s.callbacks, p)) {
      NoneQueued(saves[..|saves| - 1]);
    } else {
      NoneQueued(saves);
    }
  }

  // A portal save is the player's last save: when its success is reported, the row is what the portal sent and no
  // other save of that player is on its way.
  lemma PortalSaveIsFinal(s: System, zone: nat, rows: map<PlayerId, PlayerState>, schedule: seq<Action>, i: nat)
    requires Run(Init(zone, rows), schedule) == Some(s)
    requires i < |s.callbacks| && s.callbacks[i].PortalSaved? && s.callbacks[i].ok
    ensures var c := s.callbacks[i];
            && c.player in s.m.portalPending
            && c.player in s.rows && s.rows[c.player] == c.sent
            && SavesIn(Queue(s, c.player)) == []
  {
    RunKeepsInv(zone, rows, schedule);
    assert InvOf(s, s.callbacks[i].player);
    AnswerListed(s.callbacks, i);
  }

  lemma {:induction false} AnswerListed(callbacks: seq<Callback>, i: nat)
    requires i < |callbacks| && callbacks[i].PortalSaved?
    ensures callbacks[i] in PortalAnswers(callbacks, callbacks[i].player)
  {
    if i < |callbacks| - 1 {
      AnswerListed(callbacks[..|callbacks| - 1], i);
    }
  }

  lemma {:induction false} EnqueueAllSaves(s: System, requests: seq<Request>, p: PlayerId)
    requires forall i | 0 <= i < |requests| :: requests[i].player != p
    ensures var next := EnqueueAll(s, requests);
            Log(next, p) == Log(s, p) && Queue(next, p) == Queue(s, p)
    decreases |requests|
  {
    if requests != [] {
      EnqueueAllSaves(Enqueue(s, requests[0]), requests[1..], p);
    }
  }

  // While a portal save of a player is outstanding, no job of the zone enqueues another save of that player:
  // not a disconnect, not a clear, not an autosave, not a second portal.
  lemma PendingBlocksSaves(s: System, a: Action, p: PlayerId)
    requires Inv(s) && p in s.m.portalPending && Step(s, a).Some?
    ensures Log(Step(s, a).value, p) == Log(s, p)
  {
    match a
    case ReadyJob(session, q) => SingleKeepsSaves(s, Ready(s.m, session, q), p);
    case DisconnectJob(session) => SingleKeepsSaves(s, Disconnect(s.m, s.zone, session), p);
    case PortalJob(q, dest, destZone) => SingleKeepsSaves(s, Portal(s.m, q, dest, destZone), p);
    case ClearJob(requests) => EnqueueAllSaves(s.(m := Clear(s.m)), requests, p);
    case AutosaveJob(who, requests) => EnqueueAllSaves(s, requests, p);
    case _ =>
  }

  lemma SingleKeepsSaves(s: System, o: Outcome, p: PlayerId)
    requires |o.requests| <= 1
    requires o.requests != [] ==> o.requests[0].LoadRequest? || o.requests[0].player != p
    ensures Log(Apply(s, o), p) == Log(s, p)
  {
    if o.requests != [] {
      assert o.requests[1..] == [];
      assert EnqueueAll(Enqueue(s.(m := o.m), o.requests[0]), []) == Enqueue(s.(m := o.m), o.requests[0]);
    }
  }

  // The answer to a portal removes its player if and only if the save succeeded and the player is still there under
  // the session that asked; somebody who came back under another session stays.
  lemma PortalAnswerRemovesOnlyItsSession(s: System, p: PlayerId)
    requires Inv(s) && s.callbacks != [] && s.callbacks[0].PortalSaved? && s.callbacks[0].player == p
    ensures var next, c := Step(s, RunCallback).value, s.callbacks[0];
            && next.m.players.Keys <= s.m.players.Keys && s.m.players.Keys - next.m.players.Keys <= {p}
            && (p in next.m.players
                <==> p in s.m.players && !(c.ok && s.m.players[p].session == c.session))
            && (c.ok && p !in next.m.players && p in s.m.players ==> s.rows[p] == c.sent)
            && p !in next.m.portalPending
  {
    assert InvOf(s, p);
    AnswerListed(s.callbacks, 0);
  }

  // ------------------------------------------------------------------------------------------------ presence theorems

  predicate Present(s: System, session: SessionId) {
    session in s.m.sessions
  }

  // After some READY of the session there is no disconnect of it and no clear.
  ghost predicate ReadySinceGone(schedule: seq<Action>, session: SessionId) {
    exists i | 0 <= i < |schedule| ::
      && schedule[i].ReadyJob? && schedule[i].session == session
      && forall j | i < j < |schedule| :: schedule[j] != DisconnectJob(session) && !schedule[j].ClearJob?
  }

  lemma StepKeepsAwaited(before: System, a: Action, session: SessionId)
    requires Consistent(before.m) && Step(before, a).Some?
    requires session in Step(before, a).value.m.spawnPending || Present(Step(before, a).value, session)
    ensures a != DisconnectJob(session) && !a.ClearJob?
    ensures (a.ReadyJob? && a.session == session) || session in before.m.spawnPending || Present(before, session)
  {
    hide Enqueue;
    match a
    case ReadyJob(s, p) => EnqueueAllMembers(before.(m := Ready(before.m, s, p).m), Ready(before.m, s, p).requests);
    case DisconnectJob(s) =>
      var o := Disconnect(before.m, before.zone, s);
      DisconnectKeepsConsistent(before.m, before.zone, s);
      EnqueueAllMembers(before.(m := o.m), o.requests);
    case PortalJob(p, dest, destZone) =>
      var o := Portal(before.m, p, dest, destZone);
      EnqueueAllMembers(before.(m := o.m), o.requests);
    case ClearJob(requests) => EnqueueAllMembers(before.(m := Clear(before.m)), requests);
    case AutosaveJob(_, requests) => EnqueueAllMembers(before, requests);
    case _ =>
  }

  lemma {:induction false} EnqueueAllMembers(s: System, requests: seq<Request>)
    ensures EnqueueAll(s, requests).m == s.m
    decreases |requests|
  {
    if requests != [] {
      EnqueueAllMembers(Enqueue(s, requests[0]), requests[1..]);
    }
  }

  lemma StillReady(front: seq<Action>, last: Action, session: SessionId)
    requires ReadySinceGone(front, session) && last != DisconnectJob(session) && !last.ClearJob?
    ensures ReadySinceGone(front + [last], session)
  {
    var i :| 0 <= i < |front| && front[i].ReadyJob? && front[i].session == session
      && forall j | i < j < |front| :: front[j] != DisconnectJob(session) && !front[j].ClearJob?;
    assert (front + [last])[i] == front[i];
  }

  lemma ReadyNow(front: seq<Action>, p: PlayerId, session: SessionId)
    ensures ReadySinceGone(front + [ReadyJob(session, p)], session)
  {
    assert (front + [ReadyJob(session, p)])[|front|].ReadyJob?;
  }

  // No resurrection: a session that is present, or still loading, had a READY after its latest disconnect or clear,
  // in whatever order the loads in flight came back.
  lemma {:induction false} NoResurrection(s: System, zone: nat, rows: map<PlayerId, PlayerState>, schedule: seq<Action>,
                                          session: SessionId)
    requires Run(Init(zone, rows), schedule) == Some(s)
    requires Present(s, session) || session in s.m.spawnPending
    ensures ReadySinceGone(schedule, session)
    decreases |schedule|
  {
    if schedule != [] {
      var front, last := schedule[..|schedule| - 1], schedule[|schedule| - 1];
      var before := Run(Init(zone, rows), front).value;
      RunKeepsInv(zone, rows, front);
      StepKeepsAwaited(before, last, session);
      assert schedule == front + [last];
      if last.ReadyJob? && last.session == session {
        ReadyNow(front, last.player, session);
      } else {
        NoResurrection(before, zone, rows, front, session);
        StillReady(front, last, session);
      }
    }
  }

  // The zone has been closed and cleared: nobody is there, nobody is loading.
  predicate ShutDown(s: System) {
    s.m.closed && s.m.players == map[] && s.m.sessions == map[] && s.m.spawnPending == {}
  }

  lemma ClearAfterCloseShutsDown(s: System, requests: seq<Request>)
    requires s.m.closed && Step(s, ClearJob(requests)).Some?
    ensures ShutDown(Step(s, ClearJob(requests)).value)
  {
    EnqueueAllMembers(s.(m := Clear(s.m)), requests);
  }

  lemma StepKeepsShutDown(s: System, a: Action)
    requires ShutDown(s) && Step(s, a).Some?
    ensures ShutDown(Step(s, a).value)
  {
    match a
    case ClearJob(requests) => EnqueueAllMembers(s.(m := Clear(s.m)), requests);
    case AutosaveJob(_, requests) => EnqueueAllMembers(s, requests);
    case _ =>
  }

  // Shutdown is absorbing: whatever loads, portals and client jobs are still on their way, the zone stays empty.
  lemma {:induction false} ShutDownForever(s: System, later: seq<Action>)
    requires ShutDown(s) && Run(s, later).Some?
    ensures ShutDown(Run(s, later).value)
  {
    if later != [] {
      ShutDownForever(s, later[..|later| - 1]);
      StepKeepsShutDown(Run(s, later[..|later| - 1]).value, later[|later| - 1]);
    }
  }

  lemma {:induction false} EnqueueAllAppends(s: System, requests: seq<Request>, i: nat)
    requires i < |requests| && forall j, k | 0 <= j < k < |requests| :: requests[j].player != requests[k].player
    ensures var p := requests[i].player;
            Queue(EnqueueAll(s, requests), p) == Queue(Enqueue(s, requests[i]), p)
    decreases |requests|
  {
    var next := Enqueue(s, requests[0]);
    if i == 0 {
      EnqueueAllSaves(next, requests[1..], requests[0].player);
    } else {
      EnqueueAllAppends(next, requests[1..], i - 1);
      assert requests[1..][i - 1] == requests[i];
      assert requests[0].player != requests[i].player;
    }
  }

  // A clear enqueues the final state of everybody present, once, except for those whose portal save is already
  // queued; and then nobody is left.
  lemma ClearSavesEverybody(s: System, requests: seq<Request>, p: PlayerId)
    requires Inv(s) && Step(s, ClearJob(requests)).Some? && p in s.m.players
    ensures var next := Step(s, ClearJob(requests)).value;
            Queue(next, p) == Queue(s, p) +
              if p in s.m.portalPending then []
              else [Task(SaveRequest(p, s.m.players[p].state, s.zone, None), |Log(s, p)| + 1)]
  {
    var cleared := s.(m := Clear(s.m));
    if p in s.m.portalPending {
      EnqueueAllSaves(cleared, requests, p);
    } else {
      assert p in s.m.players.Keys - s.m.portalPending;
      var i :| 0 <= i < |requests| && requests[i].player == p;
      EnqueueAllAppends(cleared, requests, i);
      assert Queue(cleared, p) == Queue(s, p) && Log(cleared, p) == Log(s, p);
    }
  }

  // ------------------------------------------------------------------------------------------------ what a spawn loads

  function RowStamp(s: System, p: PlayerId): nat {
    if p in s.rows then s.rows[p].stamp else 0
  }

  // The queued saves carry the next stamps in order, and each queued load carries the stamp it will find.
  ghost predicate InSequence(stamp: nat, q: seq<Task>, final: nat)
    decreases |q|
  {
    if q == [] then stamp == final
    else if q[0].request.SaveRequest? then q[0].stamp == stamp + 1 && InSequence(stamp + 1, q[1..], final)
    else q[0].stamp == stamp && InSequence(stamp, q[1..], final)
  }

  ghost predicate StampsOf(s: System, p: PlayerId) {
    p !in s.failed ==> InSequence(RowStamp(s, p), Queue(s, p), |Log(s, p)|)
  }

  ghost predicate LoadsFresh(s: System) {
    forall i | 0 <= i < |s.callbacks| ::
      var c := s.callbacks[i];
      c.Loaded? && c.row.Some? && c.player !in s.failed ==> c.row.value.stamp == c.stamp
  }

  ghost predicate StampInv(s: System) {
    LoadsFresh(s) && forall p: PlayerId :: StampsOf(s, p)
  }

  lemma {:induction false} InSequenceSnoc(stamp: nat, q: seq<Task>, final: nat, t: Task)
    requires InSequence(stamp, q, final) && t.stamp == final + (if t.request.SaveRequest? then 1 else 0)
    ensures InSequence(stamp, q + [t], t.stamp)
    decreases |q|
  {
    if q == [] {
      assert q + [t] == [t];
    } else {
      assert (q + [t])[1..] == q[1..] + [t];
      InSequenceSnoc(if q[0].request.SaveRequest? then stamp + 1 else stamp, q[1..], final, t);
    }
  }

  lemma EnqueueKeepsStamps(s: System, r: Request)
    requires StampInv(s)
    ensures StampInv(Enqueue(s, r))
  {
    var next := Enqueue(s, r);
    forall p: PlayerId ensures StampsOf(next, p) {
      assert StampsOf(s, p);
      if p == r.player && p !in s.failed {
        InSequenceSnoc(RowStamp(s, p), Queue(s, p), |Log(s, p)|, next.queues[p][|Queue(s, p)|]);
      }
    }
  }

  lemma {:induction false} EnqueueAllKeepsStamps(s: System, requests: seq<Request>)
    requires StampInv(s)
    ensures StampInv(EnqueueAll(s, requests))
    decreases |requests|
  {
    if requests != [] {
      EnqueueKeepsStamps(s, requests[0]);
      EnqueueAllKeepsStamps(Enqueue(s, requests[0]), requests[1..]);
    }
  }

  lemma MembersKeepStamps(s: System, m: Members)
    requires StampInv(s)
    ensures StampInv(s.(m := m))
  {
    forall p: PlayerId ensures StampsOf(s.(m := m), p) {
      assert StampsOf(s, p);
    }
  }

  // The oldest task of a player leaves the rest of its queue in sequence.
  lemma TaskKeepsStampsOf(s: System, p: PlayerId, ok: bool)
    requires InvOf(s, p) && StampsOf(s, p) && Queue(s, p) != []
    ensures StampsOf(Step(s, RunDbTask(p, ok)).value, p)
  {
    hide Answer, PortalState, PortalAnswers;
  }

  lemma TaskKeepsStampsOfOthers(s: System, p: PlayerId, ok: bool, r: PlayerId)
    requires StampsOf(s, r) && Queue(s, p) != [] && r != p
    ensures StampsOf(Step(s, RunDbTask(p, ok)).value, r)
  {
    hide Answer, InSequence;
    var next := Step(s, RunDbTask(p, ok)).value;
    assert Queue(next, r) == Queue(s, r) && RowStamp(next, r) == RowStamp(s, r) && Log(next, r) == Log(s, r);
  }

  lemma TaskKeepsLoadsFresh(s: System, p: PlayerId, ok: bool)
    requires LoadsFresh(s) && InvOf(s, p) && StampsOf(s, p) && Queue(s, p) != []
    ensures LoadsFresh(Step(s, RunDbTask(p, ok)).value)
  {
    hide PortalState, PortalAnswers;
  }

  lemma RunTaskKeepsStamps(s: System, p: PlayerId, ok: bool)
    requires Inv(s) && StampInv(s) && Queue(s, p) != []
    ensures StampInv(Step(s, RunDbTask(p, ok)).value)
  {
    var next := Step(s, RunDbTask(p, ok)).value;
    hide Step, StampsOf, LoadsFresh, InvOf;
    assert InvOf(s, p) && StampsOf(s, p);
    forall r: PlayerId ensures StampsOf(next, r) {
      assert StampsOf(s, r);
      if r == p { TaskKeepsStampsOf(s, p, ok); } else { TaskKeepsStampsOfOthers(s, p, ok, r); }
    }
    TaskKeepsLoadsFresh(s, p, ok);
  }

  lemma StepKeepsStamps(s: System, a: Action)
    requires Inv(s) && StampInv(s) && Step(s, a).Some?
    ensures StampInv(Step(s, a).value)
  {
    match a
    case ReadyJob(session, p) => ApplyKeepsStamps(s, Ready(s.m, session, p));
    case DisconnectJob(session) => ApplyKeepsStamps(s, Disconnect(s.m, s.zone, session));
    case PortalJob(p, dest, destZone) => ApplyKeepsStamps(s, Portal(s.m, p, dest, destZone));
    case ClearJob(requests) => ApplyKeepsStamps(s, Outcome(Clear(s.m), requests));
    case AutosaveJob(_, requests) => EnqueueAllKeepsStamps(s, requests);
    case RunDbTask(p, ok) => RunTaskKeepsStamps(s, p, ok);
    case RunCallback =>
      var popped := s.(callbacks := s.callbacks[1..]);
      assert StampInv(popped) by {
        forall p: PlayerId ensures StampsOf(popped, p) { assert StampsOf(s, p); }
      }
      MembersKeepStamps(popped, Step(s, a).value.m);
    case _ => MembersKeepStamps(s, Step(s, a).value.m);
  }

  lemma ApplyKeepsStamps(s: System, o: Outcome)
    requires StampInv(s)
    ensures StampInv(Apply(s, o))
  {
    MembersKeepStamps(s, o.m);
    EnqueueAllKeepsStamps(s.(m := o.m), o.requests);
  }

  lemma {:induction false} RunKeepsStamps(zone: nat, rows: map<PlayerId, PlayerState>, schedule: seq<Action>)
    requires Run(Init(zone, rows), schedule).Some?
    ensures StampInv(Run(Init(zone, rows), schedule).value)
  {
    if schedule != [] {
      RunKeepsInv(zone, rows, schedule[..|schedule| - 1]);
      RunKeepsStamps(zone, rows, schedule[..|schedule| - 1]);
      StepKeepsStamps(Run(Init(zone, rows), schedule[..|schedule| - 1]).value, schedule[|schedule| - 1]);
    }
  }

  // What a stamp stands for: the log entry it counts up to.
  ghost predicate IsEntry(log: seq<PlayerState>, stamp: nat, state: PlayerState) {
    1 <= stamp <= |log| && log[stamp - 1] == state
  }

  ghost predicate TasksLogged(log: seq<PlayerState>, q: seq<Task>) {
    forall i | 0 <= i < |q| :: q[i].request.SaveRequest? ==> IsEntry(log, q[i].stamp, q[i].request.state)
  }

  // Rows, queued saves and what loads have read are entries of the log.
  ghost predicate LogsOf(s: System, p: PlayerId) {
    TasksLogged(Log(s, p), Queue(s, p)) && (p in s.rows ==> IsEntry(Log(s, p), s.rows[p].stamp, s.rows[p].state))
  }

  ghost predicate ReadLogged(s: System, c: Callback) {
    c.Loaded? && c.row.Some? ==> IsEntry(Log(s, c.player), c.row.value.stamp, c.row.value.state)
  }

  ghost predicate LogInv(s: System) {
    && (forall p: PlayerId :: LogsOf(s, p))
    && forall i | 0 <= i < |s.callbacks| :: ReadLogged(s, s.callbacks[i])
  }

  // Only the players' logs, queues and rows and the callbacks matter to it.
  lemma EnqueueKeepsLogs(s: System, r: Request)
    requires LogInv(s)
    ensures LogInv(Enqueue(s, r))
  {
    var next := Enqueue(s, r);
    forall p: PlayerId ensures LogsOf(next, p) {
      assert LogsOf(s, p);
    }
    forall i | 0 <= i < |next.callbacks| ensures ReadLogged(next, next.callbacks[i]) {
      assert ReadLogged(s, s.callbacks[i]);
    }
  }

  lemma {:induction false} EnqueueAllKeepsLogs(s: System, requests: seq<Request>)
    requires LogInv(s)
    ensures LogInv(EnqueueAll(s, requests))
    decreases |requests|
  {
    if requests != [] {
      EnqueueKeepsLogs(s, requests[0]);
      EnqueueAllKeepsLogs(Enqueue(s, requests[0]), requests[1..]);
    }
  }

  lemma MembersKeepLogs(s: System, m: Members)
    requires LogInv(s)
    ensures LogInv(s.(m := m))
  {
    forall p: PlayerId ensures LogsOf(s.(m := m), p) {
      assert LogsOf(s, p);
    }
    forall i | 0 <= i < |s.callbacks| ensures ReadLogged(s.(m := m), s.callbacks[i]) {
      assert ReadLogged(s, s.callbacks[i]);
    }
  }

  lemma RunTaskKeepsLogs(s: System, p: PlayerId, ok: bool)
    requires LogInv(s) && Queue(s, p) != []
    ensures LogInv(Step(s, RunDbTask(p, ok)).value)
  {
    var next := Step(s, RunDbTask(p, ok)).value;
    assert LogsOf(s, p);
    forall r: PlayerId ensures LogsOf(next, r) {
      assert LogsOf(s, r);
      if r != p { assert Queue(next, r) == Queue(s, r); }
    }
    forall i | 0 <= i < |next.callbacks| ensures ReadLogged(next, next.callbacks[i]) {
      if i < |s.callbacks| { assert ReadLogged(s, s.callbacks[i]); }
    }
  }

  // The requests a step sends to the database.
  function RequestsOf(s: System, a: Action): seq<Request> {
    match a
    case ReadyJob(session, p) => Ready(s.m, session, p).requests
    case DisconnectJob(session) => Disconnect(s.m, s.zone, session).requests
    case PortalJob(p, dest, destZone) => Portal(s.m, p, dest, destZone).requests
    case ClearJob(requests) => requests
    case AutosaveJob(_, requests) => requests
    case _ => []
  }

  // A step of the zone changes the membership, takes a callback off, and enqueues its requests.
  lemma ZoneStep(s: System, a: Action) returns (m: Members)
    requires Step(s, a).Some? && !a.RunDbTask?
    ensures var taken := if a.RunCallback? then s.(callbacks := s.callbacks[1..]) else s;
            Step(s, a).value == EnqueueAll(taken.(m := m), RequestsOf(s, a))
  {
    match a
    case ReadyJob(session, p) => m := Ready(s.m, session, p).m;
    case DisconnectJob(session) => m := Disconnect(s.m, s.zone, session).m;
    case PortalJob(p, dest, destZone) => m := Portal(s.m, p, dest, destZone).m;
    case ClearJob(requests) => m := Clear(s.m);
    case AutosaveJob(_, requests) => m := s.m;
    case CloseJob => m := Close(s.m);
    case PlayJob(_, _) => m := Step(s, a).value.m;
    case RunCallback => m := Step(s, a).value.m;
    case RunDbTask(_, _) => m := s.m;
  }

  lemma StepKeepsLogs(s: System, a: Action)
    requires LogInv(s) && Step(s, a).Some?
    ensures LogInv(Step(s, a).value)
  {
    if a.RunDbTask? {
      RunTaskKeepsLogs(s, a.player, a.ok);
    } else {
      var m := ZoneStep(s, a);
      var taken := if a.RunCallback? then s.(callbacks := s.callbacks[1..]) else s;
      assert LogInv(taken) by {
        forall p: PlayerId ensures LogsOf(taken, p) { assert LogsOf(s, p); }
        forall i | 0 <= i < |taken.callbacks| ensures ReadLogged(taken, taken.callbacks[i]) {
          assert ReadLogged(s, s.callbacks[if a.RunCallback? then i + 1 else i]);
        }
      }
      MembersKeepLogs(taken, m);
      EnqueueAllKeepsLogs(taken.(m := m), RequestsOf(s, a));
    }
  }

  lemma {:induction false} RunKeepsLogs(zone: nat, rows: map<PlayerId, PlayerState>, schedule: seq<Action>)
    requires Run(Init(zone, rows), schedule).Some?
    ensures LogInv(Run(Init(zone, rows), schedule).value)
  {
    if schedule != [] {
      RunKeepsLogs(zone, rows, schedule[..|schedule| - 1]);
      StepKeepsLogs(Run(Init(zone, rows), schedule[..|schedule| - 1]).value, schedule[|schedule| - 1]);
    }
  }

  ghost predicate HasSaveOf(requests: seq<Request>, p: PlayerId) {
    exists i | 0 <= i < |requests| :: requests[i].SaveRequest? && requests[i].player == p
  }

  // The log grows by the saves enqueued.
  lemma {:induction false} EnqueueAllLog(s: System, requests: seq<Request>, p: PlayerId)
    ensures Log(s, p) <= Log(EnqueueAll(s, requests), p)
    ensures Log(EnqueueAll(s, requests), p) == Log(s, p) <==> !HasSaveOf(requests, p)
    decreases |requests|
  {
    if requests != [] {
      var next := Enqueue(s, requests[0]);
      EnqueueAllLog(next, requests[1..], p);
      if HasSaveOf(requests[1..], p) {
        var i :| 0 <= i < |requests[1..]| && requests[1..][i].SaveRequest? && requests[1..][i].player == p;
        assert requests[i + 1].SaveRequest? && requests[i + 1].player == p;
      } else if requests[0].SaveRequest? && requests[0].player == p {
        assert |Log(next, p)| == |Log(s, p)| + 1;
      } else {
        assert Log(next, p) == Log(s, p);
        OthersSave(requests, p);
      }
    }
  }

  lemma OthersSave(requests: seq<Request>, p: PlayerId)
    requires requests != [] && !HasSaveOf(requests[1..], p) && !(requests[0].SaveRequest? && requests[0].player == p)
    ensures !HasSaveOf(requests, p)
  {
    forall i | 0 <= i < |requests| ensures !(requests[i].SaveRequest? && requests[i].player == p) {
      if i > 0 {
        assert requests[1..][i - 1] == requests[i];
      }
    }
  }

  lemma StepLog(s: System, a: Action, p: PlayerId)
    requires Step(s, a).Some?
    ensures Log(s, p) <= Log(Step(s, a).value, p)
    ensures Log(Step(s, a).value, p) == Log(s, p) <==> !HasSaveOf(RequestsOf(s, a), p)
  {
    if !a.RunDbTask? {
      var m := ZoneStep(s, a);
      var taken := if a.RunCallback? then s.(callbacks := s.callbacks[1..]) else s;
      EnqueueAllLog(taken.(m := m), RequestsOf(s, a), p);
    }
  }

  // The system before action i of a run.
  ghost function Before(s: System, schedule: seq<Action>, i: nat): System
    requires i <= |schedule| && Run(s, schedule).Some?
  {
    RunPrefix(s, schedule, i);
    Run(s, schedule[..i]).value
  }

  lemma {:induction false} RunPrefix(s: System, schedule: seq<Action>, i: nat)
    requires i <= |schedule| && Run(s, schedule).Some?
    ensures Run(s, schedule[..i]).Some?
    decreases |schedule|
  {
    if i < |schedule| {
      var front := schedule[..|schedule| - 1];
      RunPrefix(s, front, i);
      assert front[..i] == schedule[..i];
    } else {
      assert schedule[..i] == schedule;
    }
  }

  // From action i on, no save of the player is enqueued.
  ghost predicate NothingSavedSince(s: System, schedule: seq<Action>, i: nat, p: PlayerId)
    requires i <= |schedule| && Run(s, schedule).Some?
  {
    forall j | i <= j < |schedule| :: !HasSaveOf(RequestsOf(Before(s, schedule, j), schedule[j]), p)
  }

  lemma BeforeFront(s: System, schedule: seq<Action>, i: nat)
    requires i < |schedule| && Run(s, schedule).Some?
    ensures Run(s, schedule[..|schedule| - 1]).Some?
    ensures Before(s, schedule[..|schedule| - 1], i) == Before(s, schedule, i)
  {
    RunPrefix(s, schedule, |schedule| - 1);
    assert schedule[..|schedule| - 1][..i] == schedule[..i];
  }

  lemma NothingSavedSnoc(s: System, schedule: seq<Action>, i: nat, p: PlayerId)
    requires i < |schedule| && Run(s, schedule).Some? && Run(s, schedule[..|schedule| - 1]).Some?
    ensures var k := |schedule| - 1;
            NothingSavedSince(s, schedule, i, p)
            <==>
            && NothingSavedSince(s, schedule[..k], i, p)
            && !HasSaveOf(RequestsOf(Before(s, schedule, k), schedule[k]), p)
  {
    hide HasSaveOf, RequestsOf, Before;
    var k := |schedule| - 1;
    forall j | i <= j < k ensures Before(s, schedule[..k], j) == Before(s, schedule, j)
      && schedule[..k][j] == schedule[j] {
      BeforeFront(s, schedule, j);
    }
  }

  lemma {:induction false} LogSince(s: System, schedule: seq<Action>, i: nat, p: PlayerId)
    requires i <= |schedule| && Run(s, schedule).Some?
    ensures var now, then_ := Run(s, schedule).value, Before(s, schedule, i);
            && Log(then_, p) <= Log(now, p)
            && (Log(now, p) == Log(then_, p) <==> NothingSavedSince(s, schedule, i, p))
    decreases |schedule|
  {
    hide HasSaveOf, RequestsOf, Step, Log, NothingSavedSince;
    if i == |schedule| {
      assert schedule[..i] == schedule;
      NothingYet(s, schedule, p);
    } else {
      var k := |schedule| - 1;
      BeforeFront(s, schedule, i);
      LogSince(s, schedule[..k], i, p);
      StepLog(Run(s, schedule[..k]).value, schedule[k], p);
      NothingSavedSnoc(s, schedule, i, p);
    }
  }

  lemma NothingYet(s: System, schedule: seq<Action>, p: PlayerId)
    requires Run(s, schedule).Some?
    ensures NothingSavedSince(s, schedule, |schedule|, p)
  {
  }

  // ---------------------------------------------------------------------------------------- whose READY a load answers

  // Action i is a READY of this session and player that made the zone ask the database.
  ghost predicate AskedAt(s: System, schedule: seq<Action>, i: nat, session: SessionId, p: PlayerId)
    requires Run(s, schedule).Some?
  {
    && i < |schedule| && schedule[i] == ReadyJob(session, p)
    && RequestsOf(Before(s, schedule, i), schedule[i]) == [LoadRequest(p, session)]
  }

  // It did so when the log had `stamp` entries.
  ghost predicate AskedWith(s: System, schedule: seq<Action>, session: SessionId, p: PlayerId, stamp: nat)
    requires Run(s, schedule).Some?
  {
    exists i :: AskedAt(s, schedule, i, session, p) && |Log(Before(s, schedule, i), p)| == stamp
  }

  ghost predicate TasksAsked(s: System, schedule: seq<Action>, q: seq<Task>, p: PlayerId)
    requires Run(s, schedule).Some?
  {
    forall k | 0 <= k < |q| ::
      q[k].request.LoadRequest? ==> AskedWith(s, schedule, q[k].request.session, p, q[k].stamp)
  }

  ghost predicate AnswersAsked(s: System, schedule: seq<Action>, callbacks: seq<Callback>)
    requires Run(s, schedule).Some?
  {
    forall k | 0 <= k < |callbacks| ::
      callbacks[k].Loaded? ==> AskedWith(s, schedule, callbacks[k].session, callbacks[k].player, callbacks[k].stamp)
  }

  ghost predicate LoadsAsked(s: System, schedule: seq<Action>)
    requires Run(s, schedule).Some?
  {
    var now := Run(s, schedule).value;
    (forall p: PlayerId :: TasksAsked(s, schedule, Queue(now, p), p)) && AnswersAsked(s, schedule, now.callbacks)
  }

  lemma AskedLater(s: System, front: seq<Action>, a: Action, session: SessionId, p: PlayerId, stamp: nat)
    requires Run(s, front).Some? && Run(s, front + [a]).Some? && AskedWith(s, front, session, p, stamp)
    ensures AskedWith(s, front + [a], session, p, stamp)
  {
    var i: nat :| AskedAt(s, front, i, session, p) && |Log(Before(s, front, i), p)| == stamp;
    assert (front + [a])[..i] == front[..i];
    assert AskedAt(s, front + [a], i, session, p);
  }

  // Enqueueing adds to a queue only its own player's requests, with the log's length then.
  lemma {:induction false} EnqueueAllQueue(s: System, requests: seq<Request>, p: PlayerId)
    requires forall i | 0 <= i < |requests| :: requests[i].LoadRequest? ==> |requests| == 1
    ensures var q := Queue(EnqueueAll(s, requests), p);
            && Queue(s, p) <= q
            && forall k | |Queue(s, p)| <= k < |q| :: q[k].request.LoadRequest? ==>
                 requests == [q[k].request] && q[k].request.player == p && q[k].stamp == |Log(s, p)|
    decreases |requests|
  {
    if requests != [] {
      EnqueueAllQueue(Enqueue(s, requests[0]), requests[1..], p);
    }
  }

  lemma ZoneStepAsks(s: System, schedule: seq<Action>)
    requires schedule != [] && Run(s, schedule).Some? && !schedule[|schedule| - 1].RunDbTask?
    requires Run(s, schedule[..|schedule| - 1]).Some? && LoadsAsked(s, schedule[..|schedule| - 1])
    ensures LoadsAsked(s, schedule)
  {
    hide AskedWith;
    var k := |schedule| - 1;
    var front, a := schedule[..k], schedule[k];
    var before, now := Run(s, front).value, Run(s, schedule).value;
    var m := ZoneStep(before, a);
    var taken := if a.RunCallback? then before.(callbacks := before.callbacks[1..]) else before;
    assert schedule == front + [a];
    EnqueueAllCallbacks(taken.(m := m), RequestsOf(before, a));
    AnswersAskedLater(s, front, a, before.callbacks, if a.RunCallback? then 1 else 0);
    assert before.callbacks[0..] == before.callbacks;
    forall p: PlayerId ensures TasksAsked(s, schedule, Queue(now, p), p) {
      LoadsComeAlone(before, a);
      EnqueueAllQueue(taken.(m := m), RequestsOf(before, a), p);
      NewTasksAsked(s, front, a, Queue(before, p), Queue(now, p), p);
    }
  }

  // What the last action has added to a queue it asked for itself.
  lemma NewTasksAsked(s: System, front: seq<Action>, a: Action, q0: seq<Task>, q: seq<Task>, p: PlayerId)
    requires Run(s, front).Some? && Run(s, front + [a]).Some? && TasksAsked(s, front, q0, p) && q0 <= q
    requires var before := Run(s, front).value;
             forall k | |q0| <= k < |q| :: q[k].request.LoadRequest? ==>
               && RequestsOf(before, a) == [q[k].request] && q[k].request.player == p && q[k].stamp == |Log(before, p)|
               && a == ReadyJob(q[k].request.session, p)
    ensures TasksAsked(s, front + [a], q, p)
  {
    TasksAskedLater(s, front, a, q0, 0, p);
    assert q0[0..] == q0;
    forall k | 0 <= k < |q| && q[k].request.LoadRequest?
      ensures AskedWith(s, front + [a], q[k].request.session, p, q[k].stamp)
    {
      if k >= |q0| {
        assert (front + [a])[..|front|] == front;
        assert AskedAt(s, front + [a], |front|, q[k].request.session, p);
      } else {
        assert q[k] == q0[k];
      }
    }
  }

  // Only a READY asks for a load, and for nothing else.
  lemma LoadsComeAlone(s: System, a: Action)
    requires Step(s, a).Some?
    ensures forall i | 0 <= i < |RequestsOf(s, a)| :: RequestsOf(s, a)[i].LoadRequest? ==>
              |RequestsOf(s, a)| == 1 && a == ReadyJob(RequestsOf(s, a)[i].session, RequestsOf(s, a)[i].player)
  {
  }

  lemma {:induction false} EnqueueAllCallbacks(s: System, requests: seq<Request>)
    ensures EnqueueAll(s, requests).callbacks == s.callbacks
    decreases |requests|
  {
    if requests != [] {
      EnqueueAllCallbacks(Enqueue(s, requests[0]), requests[1..]);
    }
  }

  // A task that has run has only moved on: a load from the queue to the callbacks.
  lemma TaskMoves(s: System, p: PlayerId, ok: bool)
    requires Queue(s, p) != []
    ensures var next := Step(s, RunDbTask(p, ok)).value;
            && (forall r: PlayerId :: Queue(next, r) == if r == p then Queue(s, r)[1..] else Queue(s, r))
            && next.callbacks == s.callbacks + Answer(s, p, Queue(s, p)[0], ok)
              && |Answer(s, p, Queue(s, p)[0], ok)| <= 1
  {
    var next := Step(s, RunDbTask(p, ok)).value;
    forall r: PlayerId ensures Queue(next, r) == if r == p then Queue(s, r)[1..] else Queue(s, r) {
    }
  }

  lemma DbStepAsks(s: System, schedule: seq<Action>)
    requires schedule != [] && Run(s, schedule).Some? && schedule[|schedule| - 1].RunDbTask?
    requires Run(s, schedule[..|schedule| - 1]).Some? && LoadsAsked(s, schedule[..|schedule| - 1])
    ensures LoadsAsked(s, schedule)
  {
    hide AskedWith;
    var k := |schedule| - 1;
    var front, a := schedule[..k], schedule[k];
    var before, now := Run(s, front).value, Run(s, schedule).value;
    assert schedule == front + [a];
    TaskMoves(before, a.player, a.ok);
    forall p: PlayerId ensures TasksAsked(s, schedule, Queue(now, p), p) {
      assert TasksAsked(s, front, Queue(before, p), p);
      TasksAskedLater(s, front, a, Queue(before, p), if p == a.player then 1 else 0, p);
      assert Queue(before, p)[0..] == Queue(before, p);
    }
    assert AnswersAsked(s, schedule, now.callbacks) by {
      AnswersAskedLater(s, front, a, before.callbacks, 0);
      assert before.callbacks[0..] == before.callbacks;
      assert TasksAsked(s, front, Queue(before, a.player), a.player);
      var t := Queue(before, a.player)[0];
      if t.request.LoadRequest? {
        AskedLater(s, front, a, t.request.session, a.player, t.stamp);
      }
    }
  }

  lemma TasksAskedLater(s: System, front: seq<Action>, a: Action, q: seq<Task>, taken: nat, p: PlayerId)
    requires Run(s, front).Some? && Run(s, front + [a]).Some? && TasksAsked(s, front, q, p) && taken <= |q|
    ensures TasksAsked(s, front + [a], q[taken..], p)
  {
    hide AskedWith;
    forall k | 0 <= k < |q[taken..]| && q[taken..][k].request.LoadRequest?
      ensures AskedWith(s, front + [a], q[taken..][k].request.session, p, q[taken..][k].stamp)
    {
      assert q[taken..][k] == q[taken + k];
      AskedLater(s, front, a, q[taken + k].request.session, p, q[taken + k].stamp);
    }
  }

  lemma AnswersAskedLater(s: System, front: seq<Action>, a: Action, callbacks: seq<Callback>, taken: nat)
    requires Run(s, front).Some? && Run(s, front + [a]).Some? && AnswersAsked(s, front, callbacks)
          && taken <= |callbacks|
    ensures AnswersAsked(s, front + [a], callbacks[taken..])
  {
    hide AskedWith;
    forall k | 0 <= k < |callbacks[taken..]| && callbacks[taken..][k].Loaded?
      ensures var c := callbacks[taken..][k]; AskedWith(s, front + [a], c.session, c.player, c.stamp)
    {
      var c := callbacks[taken + k];
      assert callbacks[taken..][k] == c;
      AskedLater(s, front, a, c.session, c.player, c.stamp);
    }
  }

  lemma {:induction false} RunAsks(zone: nat, rows: map<PlayerId, PlayerState>, schedule: seq<Action>)
    requires Run(Init(zone, rows), schedule).Some?
    ensures LoadsAsked(Init(zone, rows), schedule)
  {
    if schedule != [] {
      RunPrefix(Init(zone, rows), schedule, |schedule| - 1);
      RunAsks(zone, rows, schedule[..|schedule| - 1]);
      if schedule[|schedule| - 1].RunDbTask? {
        DbStepAsks(Init(zone, rows), schedule);
      } else {
        ZoneStepAsks(Init(zone, rows), schedule);
      }
    }
  }

  // Unless the database refused a save, a load returns the state last enqueued for saving before the READY that asked
  // for it, or the row's first state if there was none.
  lemma LoadReadsLastSaveBeforeIt(s: System, zone: nat, rows: map<PlayerId, PlayerState>, schedule: seq<Action>, k: nat)
    returns (i: nat)
    requires Run(Init(zone, rows), schedule) == Some(s)
    requires k < |s.callbacks| && s.callbacks[k].Loaded? && s.callbacks[k].row.Some?
    requires s.callbacks[k].player !in s.failed
    ensures AskedAt(Init(zone, rows), schedule, i, s.callbacks[k].session, s.callbacks[k].player)
    ensures var c := s.callbacks[k];
            var log := Log(Before(Init(zone, rows), schedule, i), c.player);
            log != [] && c.row.value.state == log[|log| - 1]
  {
    var c := s.callbacks[k];
    RunKeepsStamps(zone, rows, schedule);
    RunKeepsLogs(zone, rows, schedule);
    RunAsks(zone, rows, schedule);
    hide Run, Step, StampsOf, LogsOf, TasksAsked, AskedWith, IsEntry, Log, Before, AskedAt;
    assert ReadLogged(s, c);
    i := AskedEntry(Init(zone, rows), schedule, c.session, c.player, c.stamp, c.row.value.state);
  }

  lemma AskedEntry(
    s: System, schedule: seq<Action>, session: SessionId, p: PlayerId, stamp: nat, state: PlayerState) returns (i: nat)
    requires Run(s, schedule).Some? && AskedWith(s, schedule, session, p, stamp)
    requires IsEntry(Log(Run(s, schedule).value, p), stamp, state)
    ensures AskedAt(s, schedule, i, session, p)
    ensures var log := Log(Before(s, schedule, i), p); log != [] && log[|log| - 1] == state
  {
    hide Run, Step, RequestsOf;
    i :| AskedAt(s, schedule, i, session, p) && |Log(Before(s, schedule, i), p)| == stamp;
    LogSince(s, schedule, i, p);
  }

  function Last(log: seq<PlayerState>): PlayerState
    requires log != []
  {
    log[|log| - 1]
  }

  lemma LastAgain(asked: seq<PlayerState>, log: seq<PlayerState>)
    requires asked != [] && asked <= log
    ensures Last(log) == Last(asked) <==> log == asked || Last(log[|asked|..]) == Last(asked)
  {
    assert log == asked + log[|asked|..];
  }

  lemma EntryAfterLoad(s: System, p: PlayerId, session: SessionId)
    requires s.callbacks != [] && s.callbacks[0].Loaded? && s.callbacks[0].row.Some?
    requires s.callbacks[0].player == p && s.callbacks[0].session == session
    requires session in s.m.spawnPending && p !in s.m.players
    ensures var next := Step(s, RunCallback).value;
            p in next.m.players && next.m.players[p] == Presence(session, s.callbacks[0].row.value.state)
  {
  }

  // A player enters with the state its load read: the last one enqueued for saving before the READY. If no save of the
  // player has been enqueued since that READY, this is the last state enqueued at all; otherwise it is so only if the
  // last save since carried the same state again.
  lemma EntersFreshExactlyWhenNothingSavedSince(
    s: System, zone: nat, rows: map<PlayerId, PlayerState>, schedule: seq<Action>, p: PlayerId, session: SessionId)
    returns (i: nat)
    requires Run(Init(zone, rows), schedule) == Some(s) && p !in s.failed
    requires s.callbacks != [] && s.callbacks[0].Loaded? && s.callbacks[0].row.Some?
    requires s.callbacks[0].player == p && s.callbacks[0].session == session
    requires session in s.m.spawnPending && p !in s.m.players
    ensures AskedAt(Init(zone, rows), schedule, i, session, p)
    ensures var next := Step(s, RunCallback).value;
            var asked := Log(Before(Init(zone, rows), schedule, i), p);
            && asked != [] && asked <= Log(s, p)
            && p in next.m.players && next.m.players[p] == Presence(session, Last(asked))
            && (NothingSavedSince(Init(zone, rows), schedule, i, p) <==> Log(s, p) == asked)
            && (next.m.players[p].state == Last(Log(s, p))
                <==> NothingSavedSince(Init(zone, rows), schedule, i, p) || Last(Log(s, p)[|asked|..]) == Last(asked))
  {
    i := LoadReadsLastSaveBeforeIt(s, zone, rows, schedule, 0);
    EntryAfterLoad(s, p, session);
    hide Run, Step, Before, AskedAt, NothingSavedSince, Init;
    LogSince(Init(zone, rows), schedule, i, p);
    LastAgain(Log(Before(Init(zone, rows), schedule, i), p), Log(s, p));
  }

  lemma RunSnoc(s: System, schedule: seq<Action>, a: Action)
    requires Run(s, schedule).Some?
    ensures Run(s, schedule + [a]) == Step(Run(s, schedule).value, a)
  {
    assert (schedule + [a])[..|schedule|] == schedule;
  }

  lemma SingleRequest(s: System, o: Outcome)
    requires |o.requests| == 1
    ensures Apply(s, o) == Enqueue(s.(m := o.m), o.requests[0])
  {
    assert o.requests[1..] == [];
    assert EnqueueAll(Enqueue(s.(m := o.m), o.requests[0]), []) == Enqueue(s.(m := o.m), o.requests[0]);
  }

  lemma SameSystem(s: System, t: System)
    requires s.zone == t.zone && s.rows == t.rows && s.queues == t.queues && s.callbacks == t.callbacks
    requires s.log == t.log && s.failed == t.failed && s.m.players == t.m.players && s.m.sessions == t.m.sessions
    requires s.m.spawnPending == t.m.spawnPending && s.m.portalPending == t.m.portalPending && s.m.closed == t.m.closed
    ensures s == t
  {
  }

  // Session 1 of player 7 has loaded and entered.
  function Entered(zone: nat, state: PlayerState): System {
    System(zone, Members(map[7 := Presence(1, state)], map[1 := 7], {}, {}, false), map[7 := []], [],
           map[7 := Row(state, zone, 1)], map[7 := [state]], {})
  }

  const ENTRY := [ReadyJob(1, 7), RunDbTask(7, true), RunCallback]

  // It has asked for its row, and it has been read.
  function Asking(zone: nat, state: PlayerState): System {
    System(zone, EMPTY.(spawnPending := {1}), map[7 := [Task(LoadRequest(7, 1), 1)]], [], map[7 := Row(state, zone, 1)],
           map[7 := [state]], {})
  }

  function Read(zone: nat, state: PlayerState): System {
    Asking(zone, state).(queues := map[7 := []], callbacks := [Loaded(7, 1, Some(Row(state, zone, 1)), 1)])
  }

  lemma FirstSessionAsks(zone: nat, state: PlayerState)
    ensures Step(Init(zone, map[7 := state]), ReadyJob(1, 7)) == Some(Asking(zone, state))
  {
    var s0 := Init(zone, map[7 := state]);
    assert s0.rows == map[7 := Row(state, zone, 1)] && s0.log == map[7 := [state]];
    SingleRequest(s0, Ready(s0.m, 1, 7));
    assert [] + [Task(LoadRequest(7, 1), 1)] == [Task(LoadRequest(7, 1), 1)] && [state] + [] == [state];
    SameSystem(Step(s0, ReadyJob(1, 7)).value, Asking(zone, state));
  }

  lemma FirstSessionReads(zone: nat, state: PlayerState)
    ensures Step(Asking(zone, state), RunDbTask(7, true)) == Some(Read(zone, state))
    ensures Step(Read(zone, state), RunCallback) == Some(Entered(zone, state))
  {
    SameSystem(Step(Asking(zone, state), RunDbTask(7, true)).value, Read(zone, state));
    SameSystem(Step(Read(zone, state), RunCallback).value, Entered(zone, state));
  }

  lemma FirstSessionEnters(zone: nat, state: PlayerState)
    ensures Run(Init(zone, map[7 := state]), ENTRY) == Some(Entered(zone, state))
  {
    hide Step;
    var s0 := Init(zone, map[7 := state]);
    FirstSessionAsks(zone, state);
    FirstSessionReads(zone, state);
    assert Run(s0, []) == Some(s0);
    RunSnoc(s0, [], ReadyJob(1, 7));
    RunSnoc(s0, [] + [ReadyJob(1, 7)], RunDbTask(7, true));
    RunSnoc(s0, [] + [ReadyJob(1, 7)] + [RunDbTask(7, true)], RunCallback);
    assert ENTRY == [] + [ReadyJob(1, 7)] + [RunDbTask(7, true)] + [RunCallback];
  }

  // A second session of the player has read the row and the first one has played on.
  function SecondLoaded(zone: nat, older: PlayerState, newer: PlayerState): System {
    System(zone, Members(map[7 := Presence(1, newer)], map[1 := 7], {2}, {}, false), map[7 := []],
           [Loaded(7, 2, Some(Row(older, zone, 1)), 1)], map[7 := Row(older, zone, 1)], map[7 := [older]], {})
  }

  // It is being read.
  function SecondAsking(zone: nat, older: PlayerState): System {
    var entered := Entered(zone, older);
    entered.(m := entered.m.(spawnPending := {2}), queues := map[7 := [Task(LoadRequest(7, 2), 1)]])
  }

  function SecondRead(zone: nat, older: PlayerState): System {
    SecondAsking(zone, older).(queues := map[7 := []], callbacks := [Loaded(7, 2, Some(Row(older, zone, 1)), 1)])
  }

  lemma SecondSessionAsks(zone: nat, older: PlayerState)
    ensures Step(Entered(zone, older), ReadyJob(2, 7)) == Some(SecondAsking(zone, older))
  {
    var entered := Entered(zone, older);
    SingleRequest(entered, Ready(entered.m, 2, 7));
    assert [] + [Task(LoadRequest(7, 2), 1)] == [Task(LoadRequest(7, 2), 1)] && [older] + [] == [older];
    SameSystem(Step(entered, ReadyJob(2, 7)).value, SecondAsking(zone, older));
  }

  lemma SecondSessionReads(zone: nat, older: PlayerState, newer: PlayerState)
    ensures Step(SecondAsking(zone, older), RunDbTask(7, true)) == Some(SecondRead(zone, older))
    ensures Step(SecondRead(zone, older), PlayJob(7, newer)) == Some(SecondLoaded(zone, older, newer))
  {
    SameSystem(Step(SecondAsking(zone, older), RunDbTask(7, true)).value, SecondRead(zone, older));
    SameSystem(Step(SecondRead(zone, older), PlayJob(7, newer)).value, SecondLoaded(zone, older, newer));
  }

  lemma SecondSessionLoads(zone: nat, older: PlayerState, newer: PlayerState)
    ensures Run(Init(zone, map[7 := older]), ENTRY + [ReadyJob(2, 7)] + [RunDbTask(7, true)] + [PlayJob(7, newer)])
         == Some(SecondLoaded(zone, older, newer))
  {
    hide Step;
    var s0 := Init(zone, map[7 := older]);
    FirstSessionEnters(zone, older);
    SecondSessionAsks(zone, older);
    SecondSessionReads(zone, older, newer);
    RunSnoc(s0, ENTRY, ReadyJob(2, 7));
    RunSnoc(s0, ENTRY + [ReadyJob(2, 7)], RunDbTask(7, true));
    RunSnoc(s0, ENTRY + [ReadyJob(2, 7)] + [RunDbTask(7, true)], PlayJob(7, newer));
  }

  // The first session has left and its save has run.
  function FirstLeft(zone: nat, older: PlayerState, newer: PlayerState): System {
    System(zone, Members(map[], map[], {2}, {}, false), map[7 := []],
           [Loaded(7, 2, Some(Row(older, zone, 1)), 1)], map[7 := Row(newer, zone, 2)], map[7 := [older, newer]], {})
  }

  lemma FirstSessionLeaves(zone: nat, older: PlayerState, newer: PlayerState)
    ensures Run(SecondLoaded(zone, older, newer), [DisconnectJob(1), RunDbTask(7, true)])
          == Some(FirstLeft(zone, older, newer))
  {
    var s6 := SecondLoaded(zone, older, newer);
    SingleRequest(s6, Disconnect(s6.m, zone, 1));
    var save := Task(SaveRequest(7, newer, zone, None), 2);
    var s7 := FirstLeft(zone, older, newer).(queues := map[7 := [save]], rows := s6.rows);
    assert [] + [save] == [save] && [older] + [newer] == [older, newer];
    SameSystem(Step(s6, DisconnectJob(1)).value, s7);
    SameSystem(Step(s7, RunDbTask(7, true)).value, FirstLeft(zone, older, newer));
    assert Run(s6, []) == Some(s6);
    RunSnoc(s6, [], DisconnectJob(1));
    RunSnoc(s6, [] + [DisconnectJob(1)], RunDbTask(7, true));
    assert [] + [DisconnectJob(1)] + [RunDbTask(7, true)] == [DisconnectJob(1), RunDbTask(7, true)];
  }

  lemma {:induction false} RunConcat(s: System, a: seq<Action>, b: seq<Action>)
    requires Run(s, a).Some?
    ensures Run(s, a + b) == Run(Run(s, a).value, b)
    decreases |b|
  {
    if b == [] {
      assert a + b == a;
    } else {
      RunConcat(s, a, b[..|b| - 1]);
      assert (a + b)[..|a + b| - 1] == a + b[..|b| - 1];
    }
  }

  // It does happen that a save is enqueued in between: a second session reads the row, the first session then plays on
  // and leaves, and the player comes back in the state from before, while the row holds the newer one.
  lemma EnteringStaleIsPossible(zone: nat, older: PlayerState, newer: PlayerState) returns (schedule: seq<Action>,
      s: System)
    requires older != newer
    ensures Run(Init(zone, map[7 := older]), schedule) == Some(s)
    ensures s.failed == {} && 7 in s.m.players && s.m.players[7] == Presence(2, older)
    ensures 7 in s.rows && s.rows[7].state == newer
  {
    var loaded := ENTRY + [ReadyJob(2, 7)] + [RunDbTask(7, true)] + [PlayJob(7, newer)];
    var left := [DisconnectJob(1), RunDbTask(7, true)];
    SecondSessionLoads(zone, older, newer);
    FirstSessionLeaves(zone, older, newer);
    RunConcat(Init(zone, map[7 := older]), loaded, left);
    RunSnoc(Init(zone, map[7 := older]), loaded + left, RunCallback);
    schedule := loaded + left + [RunCallback];
    s := StaleEntry(zone, older, newer);
  }

  lemma StaleEntry(zone: nat, older: PlayerState, newer: PlayerState) returns (s: System)
    ensures Step(FirstLeft(zone, older, newer), RunCallback) == Some(s)
    ensures s.failed == {} && 7 in s.m.players && s.m.players[7] == Presence(2, older)
    ensures s.rows == map[7 := Row(newer, zone, 2)]
  {
    s := Step(FirstLeft(zone, older, newer), RunCallback).value;
  }
}
