/** The replica theorem, change by change: if every present client's picture was the server's before a change, and the
    change was announced to those the zone announces it to, every picture is the server's after it. */
module Replicas {
  import opened WorldTypes
  import opened AoiGrids
  import opened ClientView

  // Where everybody present stands, where every living monster stands, and who is behind which session.
  datatype Scene = Scene(
    positions: map<PlayerId, Pos>, alive: map<MonsterId, Pos>, sessions: map<SessionId, PlayerId>)

  // Nobody else is behind the same player.
  ghost predicate OnlySession(w: Scene, session: SessionId) {
    && session in w.sessions && w.sessions[session] in w.positions
    && (forall s | s in w.sessions && s != session :: w.sessions[s] != w.sessions[session])
  }

  ghost function PictureOf(w: Scene, s: SessionId): Client
    requires s in w.sessions && w.sessions[s] in w.positions
  {
    Picture(w.positions, w.alive, w.sessions[s], CellAt(w.positions[w.sessions[s]]))
  }

  // Every present session shows exactly what it should, and nobody has ever been sent a message that makes no sense,
  // but for the sessions in `lost`, to which a list could not be sent.
  ghost predicate Faithful(sent: seq<Send>, w: Scene, lost: set<SessionId>) {
    && (forall s | s in w.sessions ::
          w.sessions[s] in w.positions && (s !in lost ==> ClientOf(sent, s) == PictureOf(w, s)))
    && (forall s | s !in lost :: ClientOf(sent, s) != Broken)
  }

  // The players in the 3x3 cells around a cell.
  ghost function Around(positions: map<PlayerId, Pos>, center: Cell): set<PlayerId> {
    set p | p in positions && IsNear(CellAt(positions[p]), center)
  }

  lemma MoreLost(sent: seq<Send>, w: Scene, lost0: set<SessionId>, lost: set<SessionId>)
    requires Faithful(sent, w, lost0) && lost0 <= lost
    ensures Faithful(sent, w, lost)
  {
  }

  lemma OwnPositionIsUnseen(positions: map<PlayerId, Pos>, alive: map<MonsterId, Pos>, me: PlayerId, pos: Pos, at: Cell)
    ensures Picture(positions[me := pos], alive, me, at) == Picture(positions, alive, me, at)
  {
    assert Sight(positions[me := pos], me, at) == Sight(positions, me, at);
  }

  lemma QuietKeepsFaithful(sent0: seq<Send>, sent1: seq<Send>, w: Scene, who: set<PlayerId>, msg: Message,
      lost: set<SessionId>)
    requires Faithful(sent0, w, lost) && Told(sent0, sent1, w.sessions, who, msg) && IsQuiet(msg)
    ensures Faithful(sent1, w, lost)
  {
    forall s ensures ClientOf(sent1, s) == ClientOf(sent0, s) {
      ToldClient(sent0, sent1, w.sessions, who, msg, s);
    }
  }

  lemma QuietSendKeepsFaithful(sent: seq<Send>, w: Scene, to: SessionId, msg: Message, lost: set<SessionId>)
    requires Faithful(sent, w, lost) && IsQuiet(msg)
    ensures Faithful(sent + [Send(to, msg)], w, lost)
  {
    forall s ensures ClientOf(sent + [Send(to, msg)], s) == ClientOf(sent, s) {
      SentOne(sent, to, msg, s);
    }
  }

  // Telling a client where its own player stands changes nothing it shows of others.
  lemma CorrectionKeepsFaithful(sent: seq<Send>, w: Scene, session: SessionId, pos: Pos, lost: set<SessionId>)
    requires Faithful(sent, w, lost) && session in w.sessions
    ensures Faithful(sent + [Send(session, Move(w.sessions[session], pos))], w, lost)
  {
    forall s | s !in lost ensures ClientOf(sent + [Send(session, Move(w.sessions[session], pos))], s)
      == ClientOf(sent, s) {
      SentOne(sent, session, Move(w.sessions[session], pos), s);
    }
  }

  // ------------------------------------------------------------------------------------------------ leaving

  lemma LeaveIsFaithful(sent0: seq<Send>, sent1: seq<Send>, w: Scene, session: SessionId, lost: set<SessionId>)
    requires Faithful(sent0, w, lost) && OnlySession(w, session)
    requires var id := w.sessions[session];
             Told(sent0, sent1, w.sessions - {session}, Around(w.positions - {id}, CellAt(w.positions[id])),
               Despawn(id))
    ensures var id := w.sessions[session];
            Faithful(sent1, w.(positions := w.positions - {id}, sessions := w.sessions - {session}), lost)
  {
    var id := w.sessions[session];
    var who := Around(w.positions - {id}, CellAt(w.positions[id]));
    var w' := w.(positions := w.positions - {id}, sessions := w.sessions - {session});
    forall s
      ensures s in w'.sessions ==>
                w'.sessions[s] in w'.positions && (s !in lost ==> ClientOf(sent1, s) == PictureOf(w', s))
      ensures s !in lost ==> ClientOf(sent1, s) != Broken
    {
      ToldClient(sent0, sent1, w'.sessions, who, Despawn(id), s);
      if s in w'.sessions {
        WatcherSeesDeparture(w.positions, w.alive, w.sessions[s], CellAt(w.positions[w.sessions[s]]), id);
      }
    }
  }

  // ------------------------------------------------------------------------------------------------ entering

  lemma EnterIsFaithful(
    sent0: seq<Send>, sent1: seq<Send>, sent2: seq<Send>, w: Scene, session: SessionId, me: PlayerInfo,
    lost: set<SessionId>)
    requires Faithful(sent0, w, lost) && session !in w.sessions && me.id !in w.positions
    requires session !in lost ==> ClientOf(sent1, session) == Picture(w.positions, w.alive, me.id, CellAt(me.pos))
    requires forall s | s != session :: Trace(sent1, s) == Trace(sent0, s)
    requires Told(sent1, sent2, w.sessions, Around(w.positions, CellAt(me.pos)), Spawn([me]))
    ensures Faithful(sent2, w.(positions := w.positions[me.id := me.pos], sessions := w.sessions[session := me.id]),
          lost)
  {
    var w' := w.(positions := w.positions[me.id := me.pos], sessions := w.sessions[session := me.id]);
    forall s
      ensures s in w'.sessions ==>
                w'.sessions[s] in w'.positions && (s !in lost ==> ClientOf(sent2, s) == PictureOf(w', s))
      ensures s !in lost ==> ClientOf(sent2, s) != Broken
    {
      ToldClient(sent1, sent2, w.sessions, Around(w.positions, CellAt(me.pos)), Spawn([me]), s);
      assert s != session ==> ClientOf(sent1, s) == ClientOf(sent0, s);
      if s == session {
        OwnPositionIsUnseen(w.positions, w.alive, me.id, me.pos, CellAt(me.pos));
      } else if s in w.sessions {
        ArrivalFor(w, s, me);
      }
    }
  }

  lemma ArrivalFor(w: Scene, s: SessionId, me: PlayerInfo)
    requires s in w.sessions && w.sessions[s] in w.positions && me.id !in w.positions
    ensures Picture(w.positions[me.id := me.pos], w.alive, w.sessions[s], CellAt(w.positions[w.sessions[s]]))
         == if w.sessions[s] in Around(w.positions, CellAt(me.pos)) then Receive(PictureOf(w, s), Spawn([me]))
           else PictureOf(w, s)
  {
    WatcherSeesArrival(w.positions, w.alive, w.sessions[s], CellAt(w.positions[w.sessions[s]]), me);
  }

  // ------------------------------------------------------------------------------------------------ moving

  // A move under way: everyone has been told of crossed borders, nobody of the new position. The mover itself already
  // sees the surroundings of its new cell.
  ghost predicate Crossing(sent: seq<Send>, w: Scene, info: PlayerInfo, lost: set<SessionId>) {
    && info.id in w.positions
    && (forall s | s in w.sessions && w.sessions[s] in w.positions && s !in lost ::
          ClientOf(sent, s) == if w.sessions[s] == info.id
            then Picture(w.positions, w.alive, info.id, CellAt(info.pos))
            else FollowCells(PictureOf(w, s),
                   IsNear(CellAt(w.positions[info.id]), CellAt(w.positions[w.sessions[s]])),
                   IsNear(CellAt(info.pos), CellAt(w.positions[w.sessions[s]])), info))
    && (forall s | s !in w.sessions && s !in lost :: ClientOf(sent, s) != Broken)
  }

  lemma MoveIsFaithful(
    sent0: seq<Send>, sent1: seq<Send>, w: Scene, info: PlayerInfo, who: set<PlayerId>, msg: Message,
    lost: set<SessionId>)
    requires Crossing(sent0, w, info, lost) && forall s | s in w.sessions :: w.sessions[s] in w.positions
    requires msg == Move(info.id, info.pos) || (msg.Revive? && msg.id == info.id && msg.pos == info.pos)
    requires var all := Around(w.positions[info.id := info.pos], CellAt(info.pos)); who == all || who == all - {info.id}
    requires Told(sent0, sent1, w.sessions, who, msg)
    ensures Faithful(sent1, w.(positions := w.positions[info.id := info.pos]), lost)
  {
    var w' := w.(positions := w.positions[info.id := info.pos]);
    forall s
      ensures s in w'.sessions ==>
                w'.sessions[s] in w'.positions && (s !in lost ==> ClientOf(sent1, s) == PictureOf(w', s))
      ensures s !in lost ==> ClientOf(sent1, s) != Broken
    {
      ToldClient(sent0, sent1, w.sessions, who, msg, s);
      if s in w.sessions {
        if w.sessions[s] == info.id {
          OwnPositionIsUnseen(w.positions, w.alive, info.id, info.pos, CellAt(info.pos));
        } else {
          FollowFor(w, s, info, who, msg);
        }
      }
    }
  }

  lemma FollowFor(w: Scene, s: SessionId, info: PlayerInfo, who: set<PlayerId>, msg: Message)
    requires s in w.sessions && w.sessions[s] in w.positions && info.id in w.positions && w.sessions[s] != info.id
    requires msg == Move(info.id, info.pos) || (msg.Revive? && msg.id == info.id && msg.pos == info.pos)
    requires var all := Around(w.positions[info.id := info.pos], CellAt(info.pos)); who == all || who == all - {info.id}
    ensures var at := CellAt(w.positions[w.sessions[s]]);
            var mid := FollowCells(PictureOf(w, s), IsNear(CellAt(w.positions[info.id]), at),
              IsNear(CellAt(info.pos), at), info);
            (if w.sessions[s] in who then Receive(mid, msg) else mid)
            == Picture(w.positions[info.id := info.pos], w.alive, w.sessions[s], at)
  {
    WatcherFollows(w.positions, w.alive, w.sessions[s], CellAt(w.positions[w.sessions[s]]), info);
  }

  // Nothing crossed: the move starts where the pictures are.
  lemma SameCellCrosses(sent: seq<Send>, w: Scene, info: PlayerInfo, lost: set<SessionId>)
    requires Faithful(sent, w, lost) && info.id in w.positions && CellAt(info.pos) == CellAt(w.positions[info.id])
    ensures Crossing(sent, w, info, lost)
  {
  }

  // The stages of a crossing. `mine` is what the mover's client has become; the players in `shown` have been told to
  // show the mover and those in `hidden` to hide it.
  ghost predicate Stage(
    sent: seq<Send>, w: Scene, info: PlayerInfo, session: SessionId, mine: Client, shown: set<PlayerId>,
    hidden: set<PlayerId>, lost: set<SessionId>)
  {
    && (session !in lost ==> ClientOf(sent, session) == mine)
    && (forall s | s in w.sessions && w.sessions[s] in w.positions && s != session && s !in lost ::
          ClientOf(sent, s) == if w.sessions[s] in shown then Receive(PictureOf(w, s), Spawn([info]))
                               else if w.sessions[s] in hidden then Receive(PictureOf(w, s), Despawn(info.id))
                               else PictureOf(w, s))
    && (forall s | s !in w.sessions && s !in lost :: ClientOf(sent, s) != Broken)
  }

  lemma StageSelf(
    sent0: seq<Send>, sent1: seq<Send>, w: Scene, info: PlayerInfo, session: SessionId, mine: Client,
    shown: set<PlayerId>, hidden: set<PlayerId>, lost: set<SessionId>)
    requires Stage(sent0, w, info, session, mine, shown, hidden, lost) && session in w.sessions
    requires forall s | s != session :: Trace(sent1, s) == Trace(sent0, s)
    ensures Stage(sent1, w, info, session, ClientOf(sent1, session), shown, hidden, lost)
  {
    forall s | s != session ensures ClientOf(sent1, s) == ClientOf(sent0, s) {
    }
  }

  lemma StageShown(
    sent0: seq<Send>, sent1: seq<Send>, w: Scene, info: PlayerInfo, session: SessionId, mine: Client,
    who: set<PlayerId>, lost: set<SessionId>)
    requires Stage(sent0, w, info, session, mine, {}, {}, lost) && session in w.sessions && w.sessions[session] !in who
    requires Told(sent0, sent1, w.sessions, who, Spawn([info]))
    ensures Stage(sent1, w, info, session, mine, who, {}, lost)
  {
    forall s
      ensures ClientOf(sent1, s)
           == if s in w.sessions && w.sessions[s] in who then Receive(ClientOf(sent0, s), Spawn([info]))
             else ClientOf(sent0, s)
    {
      ToldClient(sent0, sent1, w.sessions, who, Spawn([info]), s);
    }
  }

  lemma StageHidden(
    sent0: seq<Send>, sent1: seq<Send>, w: Scene, info: PlayerInfo, session: SessionId, mine: Client,
    shown: set<PlayerId>, who: set<PlayerId>, lost: set<SessionId>)
    requires Stage(sent0, w, info, session, mine, shown, {}, lost) && session in w.sessions
          && w.sessions[session] !in who
    requires shown !! who
    requires Told(sent0, sent1, w.sessions, who, Despawn(info.id))
    ensures Stage(sent1, w, info, session, mine, shown, who, lost)
  {
    forall s
      ensures ClientOf(sent1, s)
           == if s in w.sessions && w.sessions[s] in who then Receive(ClientOf(sent0, s), Despawn(info.id))
             else ClientOf(sent0, s)
    {
      ToldClient(sent0, sent1, w.sessions, who, Despawn(info.id), s);
    }
  }

  lemma StageStarts(sent: seq<Send>, w: Scene, info: PlayerInfo, session: SessionId, lost: set<SessionId>)
    requires Faithful(sent, w, lost) && session in w.sessions
    ensures Stage(sent, w, info, session, PictureOf(w, session), {}, {}, lost)
  {
  }

  // Shown to those in the cells that came into view, hidden from those in the cells that went out of view. The mover
  // may have been lost on the way.
  lemma StageEnds(
    sent: seq<Send>, w: Scene, info: PlayerInfo, session: SessionId, mine: Client, shown: set<PlayerId>,
    hidden: set<PlayerId>, lost0: set<SessionId>, lost: set<SessionId>)
    requires OnlySession(w, session) && w.sessions[session] == info.id && lost0 <= lost
    requires Stage(sent, w, info, session, mine, shown, hidden, lost0)
    requires session !in lost ==> mine == Picture(w.positions, w.alive, info.id, CellAt(info.pos))
    requires shown == Entering(w.positions, info.id, CellAt(w.positions[info.id]), CellAt(info.pos)).Keys
    requires hidden == Entering(w.positions, info.id, CellAt(info.pos), CellAt(w.positions[info.id])).Keys
    ensures Crossing(sent, w, info, lost)
  {
  }

  // ------------------------------------------------------------------------------------------------ monsters

  // A monster's move under way, as for players.
  ghost predicate MonsterCrossing(sent: seq<Send>, w: Scene, info: MonsterInfo, lost: set<SessionId>) {
    && info.uid in w.alive
    && (forall s | s in w.sessions && w.sessions[s] in w.positions && s !in lost ::
          ClientOf(sent, s) == FollowMonster(PictureOf(w, s),
            IsNear(CellAt(w.alive[info.uid]), CellAt(w.positions[w.sessions[s]])),
            IsNear(CellAt(info.pos), CellAt(w.positions[w.sessions[s]])), info))
    && (forall s | s !in w.sessions && s !in lost :: ClientOf(sent, s) != Broken)
  }

  lemma SameCellMonsterCrosses(sent: seq<Send>, w: Scene, info: MonsterInfo, lost: set<SessionId>)
    requires Faithful(sent, w, lost) && info.uid in w.alive && CellAt(info.pos) == CellAt(w.alive[info.uid])
    ensures MonsterCrossing(sent, w, info, lost)
  {
  }

  lemma MonsterCrosses(
    sent0: seq<Send>, sent1: seq<Send>, sent2: seq<Send>, w: Scene, info: MonsterInfo, shown: set<PlayerId>,
    hidden: set<PlayerId>, lost: set<SessionId>)
    requires Faithful(sent0, w, lost) && info.uid in w.alive
    requires Told(sent0, sent1, w.sessions, shown, MonsterSpawn([info]))
    requires Told(sent1, sent2, w.sessions, hidden, MonsterDespawn(info.uid))
    requires var from, to := CellAt(w.alive[info.uid]), CellAt(info.pos);
             && shown == Around(w.positions, to) - Around(w.positions, from)
             && hidden == Around(w.positions, from) - Around(w.positions, to)
    ensures MonsterCrossing(sent2, w, info, lost)
  {
    forall s
      ensures ClientOf(sent2, s)
           == if s in w.sessions && w.sessions[s] in shown then Receive(ClientOf(sent0, s), MonsterSpawn([info]))
              else if s in w.sessions && w.sessions[s] in hidden
                then Receive(ClientOf(sent0, s), MonsterDespawn(info.uid))
              else ClientOf(sent0, s)
    {
      ToldClient(sent0, sent1, w.sessions, shown, MonsterSpawn([info]), s);
      ToldClient(sent1, sent2, w.sessions, hidden, MonsterDespawn(info.uid), s);
    }
  }

  lemma MonsterMoveIsFaithful(sent0: seq<Send>, sent1: seq<Send>, w: Scene, info: MonsterInfo, lost: set<SessionId>)
    requires MonsterCrossing(sent0, w, info, lost) && forall s | s in w.sessions :: w.sessions[s] in w.positions
    requires Told(sent0, sent1, w.sessions, Around(w.positions, CellAt(info.pos)), MonsterMove(info.uid, info.pos))
    ensures Faithful(sent1, w.(alive := w.alive[info.uid := info.pos]), lost)
  {
    var w' := w.(alive := w.alive[info.uid := info.pos]);
    forall s
      ensures s in w'.sessions && s !in lost ==> ClientOf(sent1, s) == PictureOf(w', s)
      ensures s !in lost ==> ClientOf(sent1, s) != Broken
    {
      ToldClient(sent0, sent1, w.sessions, Around(w.positions, CellAt(info.pos)), MonsterMove(info.uid, info.pos), s);
      if s in w.sessions {
        WatcherFollowsMonster(w.positions, w.alive, w.sessions[s], CellAt(w.positions[w.sessions[s]]), info);
      }
    }
  }

  lemma DeathIsFaithful(sent0: seq<Send>, sent1: seq<Send>, w: Scene, uid: MonsterId, lost: set<SessionId>)
    requires Faithful(sent0, w, lost) && uid in w.alive
    requires Told(sent0, sent1, w.sessions, Around(w.positions, CellAt(w.alive[uid])), MonsterDespawn(uid))
    ensures Faithful(sent1, w.(alive := w.alive - {uid}), lost)
  {
    var w' := w.(alive := w.alive - {uid});
    forall s
      ensures s in w'.sessions && s !in lost ==> ClientOf(sent1, s) == PictureOf(w', s)
      ensures s !in lost ==> ClientOf(sent1, s) != Broken
    {
      ToldClient(sent0, sent1, w.sessions, Around(w.positions, CellAt(w.alive[uid])), MonsterDespawn(uid), s);
      if s in w.sessions {
        WatcherSeesDeath(w.positions, w.alive, w.sessions[s], CellAt(w.positions[w.sessions[s]]), uid);
      }
    }
  }

  lemma RespawnIsFaithful(sent0: seq<Send>, sent1: seq<Send>, w: Scene, info: MonsterInfo, lost: set<SessionId>)
    requires Faithful(sent0, w, lost) && info.uid !in w.alive
    requires Told(sent0, sent1, w.sessions, Around(w.positions, CellAt(info.pos)), MonsterSpawn([info]))
    ensures Faithful(sent1, w.(alive := w.alive[info.uid := info.pos]), lost)
  {
    var w' := w.(alive := w.alive[info.uid := info.pos]);
    forall s
      ensures s in w'.sessions && s !in lost ==> ClientOf(sent1, s) == PictureOf(w', s)
      ensures s !in lost ==> ClientOf(sent1, s) != Broken
    {
      ToldClient(sent0, sent1, w.sessions, Around(w.positions, CellAt(info.pos)), MonsterSpawn([info]), s);
      if s in w.sessions {
        WatcherSeesRespawn(w.positions, w.alive, w.sessions[s], CellAt(w.positions[w.sessions[s]]), info);
      }
    }
  }

  lemma QuietKeepsMonsterCrossing(
    sent0: seq<Send>, sent1: seq<Send>, w: Scene, info: MonsterInfo, who: set<PlayerId>, msg: Message,
    lost: set<SessionId>)
    requires MonsterCrossing(sent0, w, info, lost) && Told(sent0, sent1, w.sessions, who, msg) && IsQuiet(msg)
    ensures MonsterCrossing(sent1, w, info, lost)
  {
    forall s ensures ClientOf(sent1, s) == ClientOf(sent0, s) {
      ToldClient(sent0, sent1, w.sessions, who, msg, s);
    }
  }

  // A monster that did not move after all.
  lemma UnmovedIsFaithful(sent: seq<Send>, w: Scene, info: MonsterInfo, lost: set<SessionId>)
    requires MonsterCrossing(sent, w, info, lost) && forall s | s in w.sessions :: w.sessions[s] in w.positions
    requires info.uid in w.alive && info.pos == w.alive[info.uid]
    ensures Faithful(sent, w, lost)
  {
  }
}
