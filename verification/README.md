# Game server model

A Dafny model of an MMO back end: the zone process that owns players and monsters, the job system it runs on, its database
pool, and the byte streams between clients, gateway and zone server.

`dafny verify dfyconfig.toml` checks everything.

## What is modelled

- **The zone** (`ZoneData`, `ZoneTables`, `ZoneHistory`, `Zone`, with `AoiGrid`, `Monsters`, `Players`, `Membership`) is a
  class whose methods are the handlers of the zone's jobs: entering and leaving, moving, fighting, skills, ticks, autosave,
  portals, shutdown. Its invariant says that the session and player tables are inverse, that every present player and every
  living monster is in its own grid cell and in no other, that every monster is within its leash and hit point bounds, and
  that the picture of every client that lost no list is right. `ZoneOutcome` says what each packet and each turn of a monster
  comes to, `ZoneTurns` what the turns of a tick come to together; `ZoneHistory` and `ZoneRuns` draw from a run what holds
  from its first job to its last, for monsters and for players; `ZoneWitness` holds two runs that show what the zone does
  not promise.
- **The replicas** (`ClientView`, `Replicas`). A client is a fold over the messages its session was sent. The picture it must
  show is every other player and every living monster in the 3x3 cells around it, each where the server has it. A spawn of
  something already shown, or a despawn or move of something not shown, breaks a client for good; the invariant says none ever
  is. `RunJobs` proves this for every run of jobs.
- **The portal, spawn and disconnect protocol** (`SpawnPortal`) puts the same membership functions together with the keyed
  queues of the database, which answer later and may fail, in any interleaving. `SavedRows` traces every row back to the step
  that sent it. `ZoneRefinement` proves that every history of the zone beside its database is such a run.
- **The job system.** `WorkStealingPool` and `JobSerializer` are modelled instruction by instruction, one program counter per
  thread and per call, over sequentially consistent atomics and mutexes. In `DbThreadPool` a critical section under a worker's
  mutex is one step and the notify after it another; a worker checks, sleeps, is woken, holds a task or has left. Every theorem
  is about every interleaving of any number of threads. `WorkStealingProgress` says what the workers of the pool get done.
- **The wire** (`Bytes`, `Streams`, `Multicast`, `SendBuffers`, `SendQueue`): reassembly of packets from arbitrary reads on the
  three kinds of connection, multicast framing and what the gateway delivers from it, the chunked send buffers threads share,
  and a client's bounded send queue.
- **Tables and odds** (`Rewards`, `Csv`): weighted picks, reward groups, and reading quoted rows.

Coordinates are reals inside a world whose cells fit 32 bits with a margin; integers are unbounded where the code cannot reach
a limit, and written out where it can (cell keys, packet sizes, list lengths). Square roots, the clock, dice and database rows
are parameters; a square root is any function that is one on the reals. The dice are a function from the number of the death
to the experience it yields, so every theorem is about every outcome.

## Where code and intention differ

- **Pictures need lists that fit.** A newcomer, or a player crossing a border, is sent one list. `SendSpawns` drops a list of
  more than 736 players and `SendMonsterSpawns` one of more than 2047 monsters. The model keeps the set `lost` of the sessions
  this has happened to; every other client's picture is right after every run. Right after an entry or a crossing the picture of
  the one who entered or crossed is right if and only if both lists fit (`Enter`, `OnPlayerCellChanged`); `CrowdedZone` is a
  zone where one does not.
- **A player in a portal is not quite frozen.** A comment says that the position is fixed while the portal save is under way. A
  chasing monster may still kill the player, and `HandleRevive` does not look at the pending set, so its own revive request
  moves it (`MovedWhileLeaving`). `RunJob` states exactly when: in an open zone, by that request, when the player is dead and
  the spawn point is elsewhere.
- **A spawn may load an old state.** A second session of a player may read the row before the first session leaves and saves.
  `EntersFreshExactlyWhenNothingSavedSince` gives the condition on the schedule, `EnteringStaleIsPossible` a run.
- **A multicast acknowledgement is passed on.** The gateway keeps a zone-leave acknowledgement that is sent to one session and
  passes on one that is multicast; the zone never multicasts one. `MulticastEqualsUnicasts` gives the condition.
- **Multicast and unicast limits differ**: 65513 and 65515 bytes. Both are proved.
- **Player number 0** is the value that means "except nobody" in broadcasts, so a player of that number would be left out of
  them. The database numbers players from 1; `RunJobs` asks for that.

## Model

| member | source | states |
|---|---|---|
| Zones.Zone.RunJobs | server/ZoneServer/Game/Zone.cpp:81-136 | after every run of jobs, in any order clients, database and clock may cause: the indexes agree; for every session that has not lost a list, the fold of what it was sent is exactly the other players and living monsters of its 3x3 cells at their server positions, and it never got a message that made no sense to it; and the zone between the jobs is a history in which each job advances the one before |
| Zones.Zone.RunJob | server/ZoneServer/Game/Zone.cpp:167-254 | one job keeps all of that and comes, for players, monsters and clients, to exactly what its kind says (packets, disconnects, loads, portal answers, ticks, clearing); each monster that falls dies once in it and is logged once, loses exactly the job's damage or what it had left, heals only fully, and on its way home only goes on; membership and database requests follow the job as the protocol says; only a session the job sends lists to can lose its picture; and a player whose portal save is under way, and who stays, changes place exactly when the zone is open, the job is its own revive, it is dead and the spawn point is elsewhere |
| Zones.Zone.EveryoneSees | server/ZoneServer/Game/Zone.cpp:1278-1301 | the invariant read player by player: each client that lost no list shows exactly what the server says is around it |
| Zones.Zone.constructor | server/ZoneServer/Game/Zone.cpp:63-67 | a new zone is empty and satisfies the invariant |
| Zones.Zone.InitMonster | server/ZoneServer/Game/Zone.cpp:69-79 | monsters get the ids 1 to n in table order, each fresh at its spawn point and in its own grid cell |
| Zones.Zone.Enter | server/ZoneServer/Game/Zone.cpp:81-115 | registering a newcomer keeps indexes and replicas; it is first told what it is itself; its picture is right if and only if at most 736 players and 2047 monsters surround it, and otherwise its session is lost |
| Zones.Zone.Greet | server/ZoneServer/Game/Zone.cpp:84-109 | the messages sent before registration make every picture right for the moment after it |
| Zones.Zone.ShowSurroundings | server/ZoneServer/Game/Zone.cpp:84-103 | the entry and the two lists leave the newcomer with exactly the players and exactly the monsters around it, or with none where the list is too long; nobody else is sent anything |
| Zones.Zone.Leave | server/ZoneServer/Game/Zone.cpp:117-136 | exactly the player, its session and its grid entry go; everybody around is told once, nobody else; replicas stay right |
| Zones.Zone.HandleDisconnect | server/ZoneServer/Game/Zone.cpp:138-165 | membership and saves change as the disconnect rule says: a loading session is forgotten, a present one leaves, is gone for those around, and is saved unless a portal save is its last word |
| Zones.Zone.SaveAllAndClear | server/ZoneServer/Game/Zone.cpp:256-276 | everybody is saved exactly once except those whose portal save is under way, and the zone is empty |
| Zones.Zone.HandleReadyToSpawn | server/ZoneServer/Game/Zone.cpp:278-293 | a load is requested exactly when the session is neither present nor loading |
| Zones.Zone.SpawnLoaded | server/ZoneServer/Game/Zone.cpp:329-346 | a returned load enters the player, fresh, exactly if the session still waits, the row exists and the player is not there already |
| Zones.Zone.Close | server/ZoneServer/Game/Zone.cpp:365-370 | closing changes nothing but the flag |
| Zones.Zone.HandlePortal | server/ZoneServer/Game/Zone.cpp:1189-1209 | a second portal while one is pending does nothing; otherwise one save is requested, with the zone and the place of the destination and the experience, hit points and mana the player has |
| Zones.Zone.HandlePortalRequest | server/ZoneServer/Game/Zone.cpp:1238-1256 | a portal is taken exactly when the player is alive and within its radius in this zone |
| Zones.Zone.PortalAnswered | server/ZoneServer/Game/Zone.cpp:1210-1234 | pending ends; the player leaves, is gone for those around, and is acknowledged last of all, exactly when the save succeeded and it is still there under the asking session |
| Zones.Zone.HandleMove | server/ZoneServer/Game/Zone.cpp:1146-1187 | an accepted move moves the record as the token bucket allows, is the last thing everybody around hears, and leaves the mover with the right picture if and only if what came into view fits the lists; a refused one sends back the held position and nothing else |
| Zones.Zone.HandleRevive | server/ZoneServer/Game/Zone.cpp:658-681 | exactly a dead player in a zone with a spawn point is moved there with full health, pending portal or not; everybody around, itself included, hears of it last; its own picture is right if and only if what came into view fits the lists |
| Zones.Zone.OnPlayerCellChanged | server/ZoneServer/Game/Zone.cpp:1006-1051 | after the grid move, spawns and despawns, each client has followed every border crossed; the mover's picture is that of its new cell if and only if at most 736 players and 2047 monsters came into view |
| Zones.Zone.CrossPlayers | server/ZoneServer/Game/Zone.cpp:1019-1042 | those coming into view and the mover are shown to each other, those going out of view are hidden from each other |
| Zones.Zone.OnMonsterCellChanged | server/ZoneServer/Game/Zone.cpp:1102-1134 | new viewers are shown the monster, lost viewers are told it is gone, and the grid holds it in its new cell |
| Zones.Zone.MoveMonsterToward | server/ZoneServer/Game/Zone.cpp:1136-1144 | record, grid and viewers change together, so the index rule for living monsters survives every step |
| Zones.Zone.BroadcastNear | server/ZoneServer/Game/Zone.cpp:1278-1288 | every player in the 3x3 cells but the excepted one gets the message exactly once, and nobody else anything |
| Zones.Zone.MulticastTo | server/ZoneServer/Game/Zone.cpp:1290-1301 | each target session gets the message exactly once |
| Zones.Zone.CollectPlayers | server/ZoneServer/Game/Zone.cpp:952-964 | exactly the players standing in the given cells, each once, without the excepted one |
| Zones.Zone.CollectMonsters | server/ZoneServer/Game/Zone.cpp:1058-1068 | exactly the living monsters in the given cells, each once |
| Zones.Zone.SendSpawns | server/ZoneServer/Game/Zone.cpp:966-981 | one list message with every player, or none and the session lost when it exceeds a packet |
| Zones.Zone.SendMonsterSpawns | server/ZoneServer/Game/Zone.cpp:1070-1088 | the same for monsters |
| Zones.Zone.DespawnMonstersTo | server/ZoneServer/Game/Zone.cpp:1090-1100 | one session stops showing exactly the listed monsters |
| Zones.Zone.FindNearestPlayer | server/ZoneServer/Game/Zone.cpp:497-526 | the grid search finds a closest eligible player of all players within 3D range, and none exactly when a full scan finds none |
| Zones.Zone.CollectMonstersInRadius | server/ZoneServer/Game/Zone.cpp:838-866 | the distinct targets in reach that a full scan and sort would put first: at most the maximum, nearest first, nobody nearer left out |
| Zones.Zone.PartialSort | server/ZoneServer/Game/Zone.cpp:858-865 | the first n places hold n nearest, in order |
| Zones.Zone.UpdateIdle | server/ZoneServer/Game/Zone.cpp:432-437 | an idle monster starts to chase a nearest eligible player, or nothing changes |
| Zones.Zone.UpdateChase | server/ZoneServer/Game/Zone.cpp:438-478 | the chase goes for its target while there and alive, otherwise for a nearest; past the leash or without a target it turns back; it strikes exactly in reach and off cooldown, and then those around the target are told once, otherwise nobody is told of a strike |
| Zones.Zone.UpdateReturn | server/ZoneServer/Game/Zone.cpp:479-491 | a returning monster takes one return tick and every picture follows; those around are told its hit points once exactly if coming home changed them |
| Zones.Zone.UpdateMonster | server/ZoneServer/Game/Zone.cpp:421-495 | one turn by state: an idle monster goes for a nearest eligible player, and stays idle exactly when there is none; a chasing one goes on to whom it goes for, turns back, and hurts that player exactly when it strikes; one on its way home goes on; no other monster and no other player is touched, and those around hear of strikes and arrivals once |
| Zones.Zone.MonsterAttack | server/ZoneServer/Game/Zone.cpp:642-656 | the target loses the damage applied and everybody around it is told once |
| Zones.Zone.HandleAttack | server/ZoneServer/Game/Zone.cpp:540-595 | nothing changes unless every check passes; then damage, reaction, death and reward are exactly those of one hit, and those around are told of the hit once, lethal or not |
| Zones.Zone.LandAttack | server/ZoneServer/Game/Zone.cpp:571-594 | the monster loses the damage of one hit or what it had left, those around are told so once, and it dies and is rolled for exactly if nothing is left |
| Zones.Zone.OnMonsterDead | server/ZoneServer/Game/Zone.cpp:597-613 | one death: dead in the record, out of the grid, gone from every picture, logged once and rolled for once |
| Zones.Zone.RespawnMonster | server/ZoneServer/Game/Zone.cpp:615-630 | a dead monster is back at its spawn point with full health, in the grid and in every picture around |
| Zones.Zone.GiveRewards | server/ZoneServer/Game/Zone.cpp:683-708 | the killer gains exactly the rolled experience and is told when there is any |
| ZoneOutcomes.CastFailsExactly | server/ZoneServer/Game/Zone.cpp:710-783 | a cast fails for exactly the first check it does not pass, in the order death, skill, cooldown, cost, kind and state of the target, range, and otherwise goes through |
| Zones.Zone.HandleSkillCast | server/ZoneServer/Game/Zone.cpp:710-826 | a cast fails with the first reason in the order of the checks and changes nothing, or strikes the chosen targets once each and pays once, and those around the target, or the caster, are told once what it cost and whom it hit |
| Zones.Zone.SettleDeaths | server/ZoneServer/Game/Zone.cpp:821-825 | every target without hit points dies exactly once, in order, each with one roll for the caster |
| Zones.Zone.DamageAll | server/ZoneServer/Game/Zone.cpp:788-806 | every target takes the damage once, nobody else any, and the hit list says so |
| Zones.Zone.Update | server/ZoneServer/Game/Zone.cpp:372-416 | each monster has exactly one turn, on what the turns before it have left; regeneration and autosave happen exactly when their timers are due, to exactly those they are for; what is saved is a present player's current state; the timers keep what is over, and the slice moves on with each autosave; nobody changes place; after close nothing happens |
| Zones.Zone.TickMonsters | server/ZoneServer/Game/Zone.cpp:391-401 | every monster, dead ones included, takes its turn exactly once, each on what the turns before it have left |
| Zones.Zone.RegenTimer | server/ZoneServer/Game/Zone.cpp:403-409 | regeneration happens exactly when its timer has come to a second, and the timer keeps what is over |
| Zones.Zone.SaveTimer | server/ZoneServer/Game/Zone.cpp:411-416 | an autosave happens exactly when its timer has come to ten seconds; the timer keeps what is over and the slice moves on |
| Zones.Zone.RegenPlayers | server/ZoneServer/Game/Zone.cpp:868-877 | everybody not leaving regenerates once, and each change is told once to everybody around and to nobody else |
| Zones.Zone.AutoSaveTick | server/ZoneServer/Game/Zone.cpp:891-911 | exactly the living, changed players of the slice that are not leaving are saved, once each, in their current state |
| Zones.Zone.HandleClientPacket | server/ZoneServer/Game/Zone.cpp:167-254 | a packet of a player in an open zone comes to what its kind says: a move is accepted by the bucket, told around and followed by the mover's picture, or corrected; an attack lands exactly when its guards hold, and then takes its damage once, starts the cooldown, settles death and reward and is told around once; a cast fails with a note or is paid, strikes and is told; a revive raises exactly the dead; a portal is a matter of the membership; everything else, packets of strangers and all packets to a closed zone come to nothing |
| ZoneTables.EverySliceComesRound | server/ZoneServer/Game/Zone.cpp:891-899 | six autosave ticks in a row come by every player |
| ZoneTables.SettledNext | server/ZoneServer/Game/Zone.cpp:821-825 | settling one more target keeps deaths, removals and rolls one to one |
| ZoneTables.CastKeepsSound | server/ZoneServer/Game/Zone.cpp:783-825 | a cast leaves every monster within its hit point and place bounds |
| ZoneTables.CastKills | server/ZoneServer/Game/Zone.cpp:788-825 | the same for a cast and all its targets: those reported dead are exactly those that were alive and are dead, each once |
| ZoneTables.CastCostsItsCaster | server/ZoneServer/Game/Zone.cpp:788-791 | a cast takes its cost from the store it is paid with, starts the cooldown of that skill and no other, and changes nothing else of the caster |
| ZoneTables.AttackKills | server/ZoneServer/Game/Zone.cpp:571-594 | an attack takes exactly its damage, or what is left, off one monster, which is reported dead once exactly if that was all it had |
| ZoneTables.TickKillsNobody | server/ZoneServer/Game/Zone.cpp:391-401 | no tick damages or kills a monster; only rising and coming home heal, and fully |
| ZoneHistory.NothingForgotten | server/ZoneServer/Game/Zone.cpp:365-370 | over every run logs only grow, the monsters are the same ones, and a closed and empty zone stays so |
| ZoneHistory.DeathsMatchFalls | server/ZoneServer/Game/Zone.cpp:597-613 | over every run a monster is reported dead, and rolled for, exactly as often as it fell from alive to dead |
| ZoneHistory.DamageAccountsForHp | server/ZoneServer/Game/Monster.cpp:39-69 | over every run a monster's hit points are its maximum less what the jobs that struck it since it last rose or came home took off it |
| ZoneHistory.HomewardJob | server/ZoneServer/Game/Zone.cpp:479-491 | no job but a tick touches a monster on its way home, and a tick brings it nearer by its whole stride or home; it takes no damage |
| ZoneHistory.HomeInTheEnd | server/ZoneServer/Game/Zone.cpp:421-495 | over every run a monster on its way home is undamaged and never farther away until it is idle at full health; and it gets there once its speed times the time the ticks let pass is the way home |
| ZoneHistory.FollowingIsOrderly | server/ZoneServer/Game/Zone.cpp:151-160 | no job saves a player whose portal save is under way; a closed zone stays closed, and an empty closed one empty |
| ZoneTurns.StrikesAccountForHp | server/ZoneServer/Game/Zone.cpp:438-478 | through all turns of a tick a player loses exactly what the monsters that went for it, were in reach and off cooldown have dealt; nothing else of it changes |
| ZoneTurns.IdleMonsterNotices | server/ZoneServer/Game/Zone.cpp:432-437 | an idle monster with somebody eligible in sight who outlives the tick goes for somebody who was in sight, no farther than that |
| ZoneRuns.MonstersNotice | server/ZoneServer/Game/Zone.cpp:391-437 | over a tick of the zone: an idle monster that has a living player in sight is chasing a player that was in its sight, and no farther than any that is alive afterwards |
| ZoneRuns.MonstersWait | server/ZoneServer/Game/Zone.cpp:391-437 | with nobody in sight an idle monster stays exactly as it is |
| ZoneRuns.TickAccountsForPlayer | server/ZoneServer/Game/Zone.cpp:391-416 | over a tick of the zone a player is what it was, less the strikes, plus regeneration if that is due and it is not leaving |
| ZoneRuns.DeadMonsterJob | server/ZoneServer/Game/Zone.cpp:391-401 | no job but a tick at its time or later touches a dead monster, and that raises it |
| ZoneRuns.FallSetsTheTime | server/ZoneServer/Game/Monster.cpp:47-54 | a monster falls in an attack or a cast only, and its time is then that of the job plus its delay |
| ZoneRuns.DeadUntilItsTime | server/ZoneServer/Game/Monster.h:118-123 | over every run a dead monster stays as it is until the zone ticks at its time or later, and rises at the first such tick, whole, at its spawn point |
| ZoneRuns.PlayerJob | server/ZoneServer/Game/Zone.cpp:1146-1187 | a living player's place, bucket and move clock change by its own moves and in no other way, whatever the job |
| ZoneRuns.SpeedBoundOverRuns | server/ZoneServer/Game/Player.cpp:18-39 | over every run of the zone, in any stretch of time T, a player that stays and stays alive comes no farther than its top speed takes it in T and one second more |
| ZoneRuns.SavingSaves | server/ZoneServer/Game/Zone.cpp:891-911 | after an autosave a living player of the slice that is not leaving has its state saved: sent just now if and only if it was not the last saved already |
| ZoneRuns.EveryoneIsSavedInTurn | server/ZoneServer/Game/Zone.cpp:891-911 | over every run, among any six autosaves there is one that does this for any given player |
| ZoneRefinement.JobIsSteps | server/ZoneServer/Game/Zone.cpp:167-370 | every job of the zone is a run of steps of the portal protocol, with the same membership and the same requests |
| ZoneRefinement.TogetherIsProtocol | server/ZoneServer/Game/Zone.cpp:278-351 | every history of the zone, interleaved with its database in any way, is a run of the protocol, and its portal jobs are portal packets of the history |
| ZoneRefinement.ZonePortalSaveIsFinal | server/ZoneServer/Game/Zone.cpp:1206-1234 | so in the zone itself, when a portal save's success is reported, there was a portal packet of that player's, and the row has the zone and place of that portal's destination and the experience, hit points and mana the player had when the packet came; nothing else of the player's is queued for saving |
| ZoneWitnesses.CrowdedZone | server/ZoneServer/Game/Zone.cpp:966-981 | the 738th player in one place is not sent its list and has a wrong picture, while everybody before it has the right one |
| ZoneWitnesses.MovedWhileLeaving | server/ZoneServer/Game/Zone.cpp:658-681 | a run in which a player whose portal save is under way is killed and then moved by its own revive |
| ZoneTables.WelcomedRightly | server/ZoneServer/Game/Zone.cpp:966-981 | a newcomer's picture is right if and only if both its lists fit a packet |
| ZoneTables.CrossedRightly | server/ZoneServer/Game/Zone.cpp:1019-1100 | a mover's picture is right if and only if both lists of what came into view fit a packet |
| ClientView.DifferenceIsExact | server/ZoneServer/Game/AoiGrid.h:114-129 | old view plus the cells that came into view minus those that went out is the new view |
| ZoneTables.ListsAreCurrent | server/ZoneServer/Game/Zone.cpp:22-62 | a spawn list tells of each player and monster, in its order, exactly the id, place, hit points, mana and maxima the zone has for it, and a stat message tells the same of a player |
| ClientView.NothingMendsAPicture | server/ZoneServer/Game/Zone.cpp:1012-1078 | a client that got one message that made no sense to it is wrong for good: a right picture at the end means that every message before it made sense |
| ClientView.SpawnShows | server/ZoneServer/Game/Zone.cpp:966-981 | a spawn list of exactly the newly visible adds exactly them to a picture |
| ClientView.WatcherFollows | server/ZoneServer/Game/Zone.cpp:1006-1051 | spawn, despawn and move keep a watcher's picture of a moving player exact |
| ClientView.WatcherFollowsMonster | server/ZoneServer/Game/Zone.cpp:1102-1134 | the same for a moving monster |
| ClientView.WatcherSeesDeath | server/ZoneServer/Game/Zone.cpp:597-607 | a despawn to those around is what a death changes in any picture |
| Replicas.EnterIsFaithful | server/ZoneServer/Game/Zone.cpp:81-115 | the messages of an entry keep all replicas |
| Replicas.LeaveIsFaithful | server/ZoneServer/Game/Zone.cpp:117-136 | the messages of a departure keep all replicas |
| Replicas.MoveIsFaithful | server/ZoneServer/Game/Zone.cpp:1146-1187 | border messages and the move broadcast together keep all replicas |
| Replicas.MonsterMoveIsFaithful | server/ZoneServer/Game/Zone.cpp:528-538 | the same for a monster's move |
| Replicas.DeathIsFaithful | server/ZoneServer/Game/Zone.cpp:597-607 | the despawn of a dead monster keeps all replicas |
| Replicas.RespawnIsFaithful | server/ZoneServer/Game/Zone.cpp:615-630 | the spawn of a respawned monster keeps all replicas |
| AoiGrids.KeyIsInjective | server/ZoneServer/Game/AoiGrid.h:132-136 | cells with 32-bit coordinates, negative ones included, never share a key |
| AoiGrids.RangeCoversCell | server/ZoneServer/Game/AoiGrid.h:85-95 | the cells of the range rectangle cover every point within range |
| AoiGrids.NearCells | server/ZoneServer/Game/AoiGrid.h:98-103 | the nine cells around, each once |
| AoiGrids.DiffNear | server/ZoneServer/Game/AoiGrid.h:112-129 | exactly the cells newly near and the cells no longer near |
| AoiGrids.AoiGrid.constructor | server/ZoneServer/Game/AoiGrid.h:27-31 | a new grid holds nothing |
| AoiGrids.AoiGrid.Add | server/ZoneServer/Game/AoiGrid.h:38-41 | the id is in the cell as well as where it was; nothing else changes |
| AoiGrids.AoiGrid.Remove | server/ZoneServer/Game/AoiGrid.h:43-55 | the id is not in the cell, whether it was or not; empty cells are erased; nothing else changes |
| AoiGrids.AoiGrid.Move | server/ZoneServer/Game/AoiGrid.h:57-65 | the id is in the new cell and, if that is another one, not in the old; nothing else changes |
| AoiGrids.AoiGrid.Clear | server/ZoneServer/Game/AoiGrid.h:67-70 | nothing is left |
| AoiGrids.AoiGrid.IdsInCell | server/ZoneServer/Game/AoiGrid.h:72-81 | the ids of a cell, each once |
| AoiGrids.AoiGrid.IdsInRange | server/ZoneServer/Game/AoiGrid.h:85-95 | exactly the ids in the cells the square around a point touches, each once if none is in two cells |
| Membership.DisconnectKeepsConsistent | server/ZoneServer/Game/Zone.cpp:138-165 | the two session indexes stay inverse, loading and present stay disjoint, and the session is neither |
| Membership.LoadDoneKeepsConsistent | server/ZoneServer/Game/Zone.cpp:329-346 | an entry after a load keeps the session indexes inverse |
| Membership.PortalKeepsConsistent | server/ZoneServer/Game/Zone.cpp:1189-1234 | asking for a portal and its answer keep the session indexes inverse |
| SpawnPortal.PortalPendingIsExact | server/ZoneServer/Game/Zone.cpp:1199-1214 | in every run a player is pending exactly while one portal save or its answer is outstanding, never two |
| SpawnPortal.PortalSaveIsFinal | server/ZoneServer/Game/Zone.cpp:1206-1234 | when a portal save reports success the row is what the portal sent and no other save of the player is queued |
| SavedRows.PortalSaveIsTheDestination | server/ZoneServer/Game/Zone.cpp:1189-1234 | in every run, a portal save that is answered was sent by a portal job of the schedule for the asking session, with the destination's zone and place and otherwise what the player was when the job ran; once it has succeeded that is the row |
| SavedRows.RowsAreWhatWasSent | server/ZoneServer/Game/Zone.cpp:151-160 | every row is the one the database began with, or exactly what a disconnect, clear, autosave or portal of the run said of that player as it was then |
| SavedRows.OnlySuccessWrites | server/ServerCore/DB/GameDB.cpp:4-20 | a row changes exactly when a save of its player runs and succeeds, and becomes what the save carries |
| SpawnPortal.PendingBlocksSaves | server/ZoneServer/Game/Zone.cpp:151-160 | while pending, no disconnect, clear, autosave or second portal enqueues a save of the player |
| SpawnPortal.PortalAnswerRemovesOnlyItsSession | server/ZoneServer/Game/Zone.cpp:1217-1222 | the answer removes the player if and only if the save succeeded and it is still there under the asking session |
| SpawnPortal.NoResurrection | server/ZoneServer/Game/Zone.cpp:142-144 | a present or loading session had a READY after its latest disconnect or clear, however loads in flight were ordered |
| SpawnPortal.ClearAfterCloseShutsDown | server/ZoneServer/Game/Zone.cpp:365-370 | a clear after close leaves nobody |
| SpawnPortal.ShutDownForever | server/ZoneServer/Game/Zone.cpp:365-370 | whatever is still on its way, a shut down zone stays empty |
| SpawnPortal.ClearSavesEverybody | server/ZoneServer/Game/Zone.cpp:256-276 | a clear enqueues the final state of everybody present once, but for those whose portal save is queued |
| SpawnPortal.LoadReadsLastSaveBeforeIt | server/ZoneServer/Game/Zone.cpp:293-303 | unless the database refused a save, a load returns the state last enqueued for saving before the READY that asked for it, or the first state of the row |
| SpawnPortal.EntersFreshExactlyWhenNothingSavedSince | server/ZoneServer/Game/Zone.cpp:329-346 | a player enters with the state last enqueued before its READY; that is the last state enqueued at all if and only if no step since that READY enqueued a save of the player, or the last one that did carried the same state again |
| SpawnPortal.LogSince | server/ZoneServer/Game/Zone.cpp:151-160 | a player's log of states to save only grows, and stays the same exactly while no step enqueues a save of the player |
| SpawnPortal.EnteringStaleIsPossible | server/ZoneServer/Game/Zone.cpp:329-346 | a run in which a second session enters with the state from before the first session's last save |
| Monsters.MoveCovers | server/ZoneServer/Game/Monster.cpp:19-37 | a step covers exactly the smaller of step and remaining way, and leaves the rest |
| Monsters.ChaseKeepsLeash | server/ZoneServer/Game/Zone.cpp:438-478 | a chase that starts a tick inside the leash ends it within leash plus reach |
| Monsters.ChaseTickKeepsSound | server/ZoneServer/Game/Zone.cpp:438-478 | no chase tick takes a monster farther than the leash plus one tick's way |
| Monsters.ChaseTickIsExact | server/ZoneServer/Game/Zone.cpp:438-478 | out of its leash or without a target a chasing monster turns back where it stands; otherwise it comes nearer by a whole step or to where it stops, and strikes exactly if it is then in reach and off cooldown |
| Monsters.ReturnTickShrinks | server/ZoneServer/Game/Zone.cpp:479-491 | the way home shrinks by a whole step or is done; within epsilon the monster is idle at full health, otherwise its health is untouched |
| Monsters.ReturnTickKeepsSound | server/ZoneServer/Game/Zone.cpp:479-491 | a return tick never leads away from home |
| Monsters.AttackedReacts | server/ZoneServer/Game/Zone.cpp:571-580 | a hit takes the damage off, never below zero, and wakes an idle monster against the attacker only |
| Monsters.SurvivedIsSound | server/ZoneServer/Game/Zone.cpp:591-594 | between jobs a hit monster is dead exactly when the damage covered its hit points, and within bounds otherwise |
| Monsters.DamageIsConserved | server/ZoneServer/Game/Monster.cpp:39-45 | hit points lost equal damage applied |
| Monsters.AttacksAreSpaced | server/ZoneServer/Game/Monster.h:95-101 | an attack succeeds exactly when the last one is a cooldown ago, so two that succeed are at least that far apart |
| Monsters.RespawnIsSound | server/ZoneServer/Game/Monster.cpp:57-62 | a respawned monster is at its spawn point within all bounds |
| Monsters.RespawnsAfterItsTime | server/ZoneServer/Game/Monster.cpp:47-62 | a monster may rise exactly from its death plus its delay on, and rises idle, whole, at its spawn point |
| MonsterObjects.Monster.constructor | server/ZoneServer/Game/Monster.cpp:4-9 | a new monster is idle, at its spawn point, at full health |
| MonsterObjects.Monster.MoveToward | server/ZoneServer/Game/Monster.cpp:19-37 | the object moves as the record does, and says whether it moved |
| MonsterObjects.Monster.TakeDamage | server/ZoneServer/Game/Monster.cpp:39-45 | the object loses what the record loses |
| MonsterObjects.Monster.Die | server/ZoneServer/Game/Monster.cpp:47-54 | dead, without target, to respawn after its delay |
| MonsterObjects.Monster.Respawn | server/ZoneServer/Game/Monster.cpp:57-62 | back at the spawn point, idle, at full health |
| MonsterObjects.Monster.ResetHp | server/ZoneServer/Game/Monster.cpp:64-69 | full health, and whether that changed anything |
| MonsterObjects.Monster.TryUseAttack | server/ZoneServer/Game/Monster.h:95-101 | the cooldown is taken exactly when it is over |
| Players.SpeedBoundInWindow | server/ZoneServer/Game/Player.cpp:18-39 | in any window of length T the accepted path is at most maxSpeed * (T + 1) |
| Players.SpeedBoundFromConstruction | server/ZoneServer/Game/Player.cpp:18-39 | from construction the accepted path is at most maxSpeed * T |
| Players.PathWithinBudget | server/ZoneServer/Game/Player.cpp:26-37 | path taken never exceeds the bucket plus what time has added |
| Players.DisplacementWithinPath | server/ZoneServer/Game/Player.cpp:18-39 | without a revive the straight-line displacement obeys the same bounds |
| Players.MoveAcceptedExactly | server/ZoneServer/Game/Player.cpp:18-39 | a finite move is accepted exactly when the way fits the bucket filled by the time passed and capped at a second's worth; accepted, it takes the player there and the way out of the bucket |
| Players.NewIsFresh | server/ZoneServer/Game/Player.cpp:5-9 | a new player has an empty bucket, nothing to save and every skill ready |
| Players.ReviveIsFull | server/ZoneServer/Game/Player.h:143-148 | a revived player is alive with full hit points at the place given, and otherwise as it was |
| Players.SpendingIsExact | server/ZoneServer/Game/Player.cpp:83-93 | a cost is paid in full from its own store exactly when it can be, leaving at least one hit point, and otherwise nothing is |
| Players.RegenIsBounded | server/ZoneServer/Game/Player.cpp:56-67 | a living player gains the amount or reaches its maximum, in both stores; the dead gain nothing |
| Players.RewardAdds | server/ZoneServer/Game/Player.h:71-74 | experience adds up and is all a reward changes |
| Players.DamageIsConserved | server/ZoneServer/Game/Player.h:134-141 | hit points lost equal the damage applied, which is the damage or what was left, and the player dies exactly when the damage covers them |
| Players.SpendingKeepsAlive | server/ZoneServer/Game/Player.cpp:41-54 | paying for a skill with hit points never kills |
| Players.AttacksAreSpaced | server/ZoneServer/Game/Player.h:150-156 | an attack succeeds exactly when the last one is a cooldown ago, so two that succeed are at least that far apart |
| Players.SkillsAreSpaced | server/ZoneServer/Game/Player.h:159-171 | a skill is ready exactly when its own cooldown is over, whatever other skills do |
| PlayerObjects.Player.constructor | server/ZoneServer/Game/Player.cpp:5-9 | a new player counts its state as saved and has an empty bucket |
| PlayerObjects.Player.TryMove | server/ZoneServer/Game/Player.cpp:18-39 | the object moves as the bucket rule says |
| PlayerObjects.Player.TakeDamage | server/ZoneServer/Game/Player.h:134-141 | the object loses what the record loses |
| PlayerObjects.Player.Regen | server/ZoneServer/Game/Player.cpp:56-67 | a living player regenerates up to its maxima, and says whether that changed anything |
| PlayerObjects.Player.TrySpendSkill | server/ZoneServer/Game/Player.cpp:83-93 | the cost is paid exactly when it can be |
| PlayerObjects.Player.ConsumeChanged | server/ZoneServer/Game/Player.h:173-180 | true at most once per change |
| WorkStealingQueues.TakeConserves | server/ServerCore/JobSystem/WorkStealingQueue.h:15-32 | a take at either end fails only on an empty deque and otherwise removes exactly the job handed out |
| WorkStealingQueues.OwnerLifoThiefFifo | server/ServerCore/JobSystem/WorkStealingQueue.h:9-32 | the owner gets its newest job, a thief the oldest |
| WorkStealingQueues.WorkStealingQueue.constructor | server/ServerCore/JobSystem/WorkStealingQueue.h:39-41 | a new deque is empty |
| WorkStealingQueues.WorkStealingQueue.Push | server/ServerCore/JobSystem/WorkStealingQueue.h:9-12 | the job is at the top |
| WorkStealingQueues.WorkStealingQueue.Pop | server/ServerCore/JobSystem/WorkStealingQueue.h:15-22 | takes the newest job |
| WorkStealingQueues.WorkStealingQueue.Steal | server/ServerCore/JobSystem/WorkStealingQueue.h:25-32 | takes the oldest job |
| WorkStealingPool.PendingIsExact | server/ServerCore/JobSystem/WorkStealingThreadPool.h:39-40 | in every interleaving the counter equals the queued jobs, less posts between push and increment, plus workers between take and decrement |
| WorkStealingPool.NoLostWakeup | server/ServerCore/JobSystem/WorkStealingThreadPool.h:114-119 | while running, a queued job with no post in flight means some worker is neither asleep nor about to sleep |
| WorkStealingPool.StuckMeansIdle | server/ServerCore/JobSystem/WorkStealingThreadPool.h:82-121 | when nothing can move, no job is queued and every post has returned |
| WorkStealingPool.StopWakesEverybody | server/ServerCore/JobSystem/WorkStealingThreadPool.h:50-63 | once stop has notified, no worker is asleep or about to be |
| WorkStealingPool.NoJobLostOrRunTwice | server/ServerCore/JobSystem/WorkStealingThreadPool.h:68-94 | every pushed job is in exactly one place: queued, in one worker's hands, or run once |
| WorkStealingProgress.EveryPostArrives | server/ServerCore/JobSystem/WorkStealingThreadPool.h:26-48 | in every interleaving each call of Post pushes its job once: when none is still about to, each posted job is queued, in hand, or has run, as often as it was posted |
| WorkStealingProgress.SearchFindsAJob | server/ServerCore/JobSystem/WorkStealingThreadPool.h:68-80 | in every reachable state with a job queued anywhere, a worker that begins to search and is left to itself has a job in hand after at most as many looks as there are queues: the newest of its own, or the oldest of the first queue in its order that has one |
| WorkStealingProgress.FailedSearchLookedEverywhere | server/ServerCore/JobSystem/WorkStealingThreadPool.h:68-80 | in every interleaving, a worker whose search has failed has looked into every queue since the top of its loop, and found each empty at the moment it looked |
| WorkStealingProgress.IdleWorkerSleeps | server/ServerCore/JobSystem/WorkStealingThreadPool.h:107-117 | a worker that finds no job is asleep after 64 searches in a row |
| WorkStealingProgress.SleepsExactlyWhenTired | server/ServerCore/JobSystem/WorkStealingThreadPool.h:84-119 | in every reachable state a worker sleeps, or is on its way to, exactly if 64 searches in a row have failed since its last job or sleep |
| WorkStealingProgress.StoppedWorkerFinishes | server/ServerCore/JobSystem/WorkStealingThreadPool.h:50-63 | after stop a worker takes only a bounded number of steps of its own, whatever the others do |
| WorkStealingProgress.StopEndsEveryWorker | server/ServerCore/JobSystem/WorkStealingThreadPool.h:50-63 | where no thread can go on after stop has notified, every worker has left, so that joining them does not block |
| JobSerializer.OneExecutor | server/ServerCore/JobSystem/JobQueue.h:24-28 | at most one thread runs jobs of a queue |
| JobSerializer.RunsInPushOrder | server/ServerCore/JobSystem/JobQueue.h:30-59 | what has run is a prefix of what was pushed, and what is missing is the batch in hand and the queue |
| JobSerializer.NoJobStranded | server/ServerCore/JobSystem/JobSerializer.h:18-25 | a queued job has an executor that will look again, a scheduled drain, or a poster about to schedule one |
| JobSerializer.QuiescentMeansAllRun | server/ServerCore/JobSystem/JobSerializer.h:18-25 | when all posts and drains are done, every pushed job has run |
| JobSerializer.NeverStuckWithWork | server/ServerCore/JobSystem/JobQueue.h:9-12 | while anything is left to do somebody can take a step |
| JobSerializer.EveryPostIsPushed | server/ServerCore/JobSystem/JobSerializer.h:18-25 | each call of Post pushes its job once |
| JobSerializer.WorkEnds | server/ServerCore/JobSystem/JobQueue.h:24-59 | without new calls no run of posters and drains is longer than the work there is |
| JobSerializer.EveryEndIsDone | server/ServerCore/JobSystem/JobQueue.h:24-59 | and where it ends every posted job has run, as often as it was posted, and the queue is free |
| DbThreadPool.KeyedTasksRunInPushOrder | server/ServerCore/DB/DBThreadPool.cpp:44-54 | tasks of one key run on one worker in push order, whatever else is pushed in between |
| DbThreadPool.OneTaskPerKeyAtATime | server/ServerCore/DB/DBThreadPool.cpp:56-68 | two tasks of one key are never in hand together |
| DbThreadPool.EveryTaskIsRouted | server/ServerCore/DB/DBThreadPool.cpp:44-54 | in every run each worker is given exactly the tasks whose key or whose turn in the round robin names it, in the order of the calls |
| DbThreadPool.ShutdownRunsEverything | server/ServerCore/DB/DBThreadPool.cpp:25-37 | with the database reachable and every worker told to stop, the workers do exit, each having run exactly the tasks it was given, and nothing pushed is left |
| DbThreadPool.EveryShutdownRunsEverything | server/ServerCore/DB/DBThreadPool.cpp:25-37 | whoever takes which turn: where no worker can go on any more, all is run |
| DbThreadPool.StuckMeansDone | server/ServerCore/DB/DBThreadPool.cpp:56-68 | no wakeup is lost: where no worker can go on, every queue is empty, and exactly the workers told to stop have left |
| DbThreadPool.ProgressEnds | server/ServerCore/DB/DBThreadPool.cpp:61-101 | left to themselves the workers come to an end: no run of their steps is longer than the work there is |
| Streams.CutsDoNotMatter | server/GatewayServer/Network/ClientProxySession.cpp:45-111 | however a stream is cut into reads, the same packets are dispatched, it closes or not, and the same bytes are left, for all stream kinds |
| Streams.ParseInPieces | server/GatewayServer/Network/ZoneServerSession.cpp:86-169 | parsing a stream in two pieces is parsing it in one, across the handshake too |
| Streams.DecisionsAreFinal | server/ZoneServer/Network/GatewaySession.cpp:190-209 | more bytes change no decision but the one to wait |
| Streams.TakesExactlyPackets | server/ZoneServer/Network/GatewaySession.cpp:190-209 | on every kind of connection a session takes exactly what is a packet there, said of the bytes a sender encodes: its own length in the size field, and what its kind must hold |
| Streams.ClosesExactlyWhenHopeless | server/GatewayServer/Network/ZoneServerSession.cpp:86-161 | a session closes exactly where no continuation can begin with a packet, as soon as header and announced bytes are there; a client's size is refused with the header |
| Streams.ParseIsTheCut | server/GatewayServer/Network/ZoneServerSession.cpp:86-161 | a parse is the one way to cut a stream into packets until none starts where the rest does |
| Streams.PacketsAreDispatched | server/GatewayServer/Network/ClientProxySession.cpp:80-111 | whatever packets are sent are dispatched as they were sent, with nothing left and nothing closed, the handshake first where one is due |
| Streams.ClientClosesAtABadSize | server/GatewayServer/Network/ClientProxySession.cpp:88-92 | a client's stream closes exactly at the first header whose size is below 4 or above 4096, after the packets before it |
| Streams.DispatchIsMonotone | server/GatewayServer/Network/ClientProxySession.cpp:80-111 | what was dispatched stays dispatched, and nothing follows a close |
| Streams.ParseKeepsBytes | server/GatewayServer/Network/ClientProxySession.cpp:80-111 | packets and unread bytes are the stream: no byte is lost or invented |
| Streams.WaitingLeavesRoom | server/GatewayServer/Network/ZoneServerSession.cpp:53-66 | a stream that waits holds fewer bytes than its buffer |
| ReceiveSessions.ReceiveSession.constructor | server/ZoneServer/Network/GatewaySession.cpp:190-217 | a new session has read and dispatched nothing |
| ReceiveSessions.ReceiveSession.PrepareRead | server/GatewayServer/Network/ClientProxySession.cpp:45-60 | compaction keeps the window, and an open session always has free space for the next read |
| ReceiveSessions.ReceiveSession.OnRead | server/GatewayServer/Network/ClientProxySession.cpp:62-72 | the window is the unconsumed suffix, and the stream so far is cut into the packets that senders put on it: those dispatched, then bytes no packet starts at; closed exactly when none can follow and that can be told |
| ReceiveSessions.ReceiveSession.ProcessPackets | server/ZoneServer/Network/GatewaySession.cpp:190-217 | the packet loop ends in the state of a one-shot parse |
| ReceiveSessions.ReceiveSession.Receive | server/GatewayServer/Network/ZoneServerSession.cpp:53-169 | any amount of data, however the reads cut it, leaves the session where a one-shot parse would, and the stream cut into the packets that senders put on it |
| SendQueues.SendQueue.constructor | server/GatewayServer/Network/ClientProxySession.cpp:180-202 | a new queue is connected, empty and writes nothing |
| SendQueues.SendQueue.Send | server/GatewayServer/Network/ClientProxySession.cpp:180-202 | a buffer is accepted in order or the connection is closed because the queue would exceed its limit |
| SendQueues.SendQueue.OnWritten | server/GatewayServer/Network/ClientProxySession.cpp:204-227 | what was written is always a prefix of what was accepted, and the byte count is that of the queue |
| Multicast.MulticastToClients | server/ZoneServer/Network/GatewaySession.cpp:106-151 | the loop emits the frames of the specification, none over 65535 bytes |
| Multicast.MulticastDeliversExactly | server/ZoneServer/Network/GatewaySession.cpp:106-151 | packets of 4 to 65513 bytes are accepted frame by frame and reach every list entry once, in order; longer ones reach nobody, shorter ones close the receiver |
| Multicast.FrameIsAccepted | server/GatewayServer/Network/ZoneServerSession.cpp:204-233 | a frame is taken whole whatever follows it, exactly when its packet holds a client header, and delivers the packet once per id |
| Multicast.UnicastDelivers | server/ZoneServer/Network/GatewaySession.cpp:282-296 | a packet to one session arrives unchanged, unless it is the zone-leave acknowledgement the gateway keeps |
| Multicast.LeaveCompletedIsRead | server/GatewayServer/Network/ZoneServerSession.cpp:185-193 | the acknowledgement the gateway keeps is a packet with the number 2001 behind its size |
| Multicast.MulticastEqualsUnicasts | server/GatewayServer/Network/ZoneServerSession.cpp:171-233 | one multicast delivers what sending to each session alone delivers, if and only if there is nobody to send to or the packet is not a zone-leave acknowledgement |
| SendBuffers.BuffersAreIsolated | server/ServerCore/Manager/SendBufferManager.cpp:15-60 | in every state threads can reach from the start, live slices never overlap, closed slices hold their bytes, pooled chunks are empty and have no live slice, and a buffer of up to 0xFFFF bytes is never null |
| SendBuffers.ClosedBytesNeverChange | server/ServerCore/Manager/SendBufferManager.cpp:15-60 | a slice still held has the same place and bytes as when it was closed |
| SendBuffers.OpenNeverFails | server/ServerCore/Manager/SendBufferManager.cpp:15-26 | a buffer of up to 0xFFFF bytes is never null |
| SendBuffers.PopGivesFree | server/ServerCore/Manager/SendBufferManager.cpp:34-43 | a popped chunk is empty and nobody's |
| SendBuffers.ReleaseKeepsInv | server/ServerCore/Manager/SendBufferManager.cpp:45-53 | returning a chunk nobody holds disturbs no slice |
| SendBuffers.EveryChunkIsSomewhere | server/ServerCore/Manager/SendBufferManager.cpp:34-53 | in every reachable state each chunk is in the pool exactly if nobody holds it: none leaks |
| SendBuffers.WhatIsWrittenIsSent | server/ServerCore/Manager/SendBufferManager.cpp:15-60 | what a thread writes over its whole slice is what the slice holds when it is closed, whatever other threads do in between |
| SendChunkObjects.SendBufferChunk.constructor | server/ServerCore/Network/SendBuffer.cpp:11-13 | a new chunk is empty and closed |
| SendChunkObjects.SendBufferChunk.Reset | server/ServerCore/Network/SendBuffer.cpp:15-18 | the chunk is empty and closed |
| SendChunkObjects.SendBufferChunk.Open | server/ServerCore/Network/SendBuffer.cpp:20-24 | a slice at the used size, or none when it does not fit |
| SendChunkObjects.SendBufferChunk.Write | server/ServerCore/Network/SendBuffer.h:15-17 | the slice's bytes and no others change |
| SendChunkObjects.SendBufferChunk.Close | server/ServerCore/Network/SendBuffer.cpp:26-28 | the written size is used up |
| WeightedPicks.WeightedIndex | server/ServerCore/Utils/util.h:92-105 | -1 exactly when nothing has weight, otherwise the index whose stretch of rolls holds the roll |
| WeightedPicks.ExactOdds | server/ServerCore/Utils/util.h:92-105 | index i wins exactly weights[i] of the rolls |
| WeightedPicks.SomeoneWins | server/ServerCore/Utils/util.h:99-104 | every roll is won |
| WeightedPicks.OnlyOneWins | server/ServerCore/Utils/util.h:99-104 | no roll is won twice |
| RewardGroups.GroupOdds | server/ZoneServer/Template/RewardTemplate.cpp:63-69 | in a group of at most the full rate item i wins exactly rate_i of a million rolls and nothing is won by exactly the rest |
| RewardGroups.OverfullGroupAlwaysGives | server/ZoneServer/Template/RewardTemplate.cpp:74-96 | a group at or over the full rate has no miss |
| RewardGroups.RewardItemGroup.constructor | server/ZoneServer/Template/RewardTemplate.cpp:54-54 | a new group has no item |
| RewardGroups.RewardItemGroup.AddItem | server/ZoneServer/Template/RewardTemplate.cpp:54-60 | rates are appended and summed |
| RewardGroups.RewardItemGroup.Finish | server/ZoneServer/Template/RewardTemplate.cpp:63-70 | the weights are the rates and behind them the miss slot |
| RewardGroups.RewardItemGroup.RollRandom | server/ZoneServer/Template/RewardTemplate.cpp:122-127 | the item whose stretch holds the roll, or none for the miss slot |
| RewardGroups.LoadGroup | server/ZoneServer/Template/RewardTemplate.cpp:51-70 | reading the rows of a group leaves exactly their rates, with the miss slot |
| Csv.SplitLine | server/ServerCore/Utils/CsvReader.h:28-48 | the loop computes the cells of the specification |
| Csv.RowIsRead | server/ServerCore/Utils/CsvReader.h:28-48 | any row written with the quoting of section 2 of RFC 4180 is read back cell by cell, trimmed |
| Csv.RoundTrip | server/ServerCore/Utils/CsvReader.h:19-48 | a row is recovered exactly if and only if no cell has blanks at its ends |
| Csv.TrimIsExact | server/ServerCore/Utils/CsvReader.h:19-25 | trimming takes blanks off both ends and nothing else |
| Csv.ToVec3Parts | server/ServerCore/Utils/CsvReader.h:94-100 | three parts of a cell or a failure |
| Csv.VectorSurvivesBothSplits | server/ServerCore/Utils/CsvReader.h:94-100 | a quoted vector cell gives its three numbers back after both splits |

## Left out

- Zones.Zone: players and monsters are values in the zone's maps, updated in place there; the shared pointers by which the source's
  two player tables refer to one object are modelled by one record and its number. The objects' own methods are modelled as
  classes and proved against the same record functions.
- Zones.Zone.RunJobs: one clock reading serves a whole job, where the source may read the clock again a moment later for a death.
- Zones.Zone.GiveRewards: the result of a roll is the experience gained; items and currencies are not delivered by the source yet.
- Experience wraps at 64 bits in the source; here it is a natural number.
- Floating-point rounding, and coordinates beyond the world the grid's cell numbers can express.
- Names, classes and levels of players, which travel in the lists but take part in no rule.
- Hit points and mana shown by clients: a skill's news goes to the cells around one place only, so they are not kept equal.
- Bounds of players' hit points and mana: their maxima are placeholders until stats are wired in.
- Moving a player between two zones and the gateway's part in it, which depends on client timing.
- The tick request flag, tick statistics and log output.
- WorkStealingProgress.StopEndsEveryWorker: jobs still queued at stop are abandoned.
- DbThreadPool.ShutdownRunsEverything: a database that stays unreachable at shutdown; the source then drops the rest of the queue.
- Relaxed ordering of the round-robin counter, which no property depends on.
- ReceiveSessions.ReceiveSession: what sockets do after a close, reconnecting, and the registry of zones a handshake fills.
- Multicast.MulticastDeliversExactly: sessions the gateway no longer knows, whose deliveries it drops.
- SendBuffers.BuffersAreIsolated: slices closed with fewer bytes than they were opened with, which no caller does.
- RewardGroups: rewards given in full or item by item with independent odds, and the quantity rolled per item.
- Csv.ToVec3Parts: the conversion of the three texts to numbers.
- Csv: finding and opening files, byte order marks, headers, column counts and number conversion.
- The session manager, accounts and login, the bot client, configuration and the other table loaders.
