# realtime-engine, verified

A Dafny model of an authoritative multiplayer engine: rooms that run as single-writer actors, the
two games plugged into them, the matchmaker and room registry in front of them, and the lease,
rate-limit and session components beside them. Everything is stated for all inputs and all runs.
`dafny verify dfyconfig.toml` checks the project.

How it is laid out:

- `Prelude.dfy` - optional values, instants (nanoseconds since Go's zero time), searching and cutting slices.
- `Game.dfy` - the game contract. A game is a record of functions over `State`; `Lawful` says what it
  owes the engine (`Promise` holds its reachable states, its client-side patch and its diff budget).
  Room theorems are proved once for every lawful game.
- `TicTacToe.dfy`, `Buzzer.dfy` - the two games, shown lawful, with what is particular to each.
- `RoomModel.dfy` - the room as a value: `Room.Step` is one turn of the actor loop. The sink's
  broadcast log and the pending grace timers are part of the state. A run is any sequence of timed
  inputs; a timer may be delivered at any moment from its deadline on.
- `RoomInvariant.dfy`, `RoomRuns.dfy`, `RoomReplay.dfy` - the invariant, theorems over whole runs,
  and the client's view of the broadcast stream. `RoomGames.dfy` puts the two games into rooms, and
  `RoomDuels.dfy` says what the timing rules of the duel mean for whole runs of a room.
- `RoomReplies.dfy` - what each command does and what its sender is told, field by field.
- `RoomActor.dfy` - the actor as a class; every handler is proved to do what the value model does.
- `RoomManager.dfy`, `Matchmaker.dfy` - creating rooms, collecting them, and filling them from queues.
- `Lease.dfy`, `TokenBucket.dfy`, `SessionStore.dfy` - room ownership over an expiring key, the
  limiter, and the session records.

Where the code and its documentation differ, the code is modelled:

- The repository's README (line 232) says sequence numbers must strictly increase. The code exempts
  the number 0 while the last applied number is 0; `AppliedSeqsIncrease` gives the exact condition
  and `ZeroAppliesTwice` a run that applies it twice.
- Tic-tac-toe diffs leave out an empty `turn`, so a player with an empty ID makes clients show the
  wrong turn; `DiffsFaithfulIffNamed` is the exact condition. The HTTP endpoint never issues empty IDs.
- A player who joins after the start (possible only when MinPlayers < MaxPlayers) is not in the game,
  and their grace timer finishes nothing; `FireFinishesIff` is the exact condition.
- The repository's README (lines 238-243) says a disconnect starts a grace timer. The code starts one
  only if the game is already running (room.go line 353), and starting the game does not make up for
  it: a player who is offline when the table fills is waited for without end. `TimerIffDroppedLive` is
  the exact condition, `OfflineAtTheStart` a run, and `OverlookedAreNeverForfeited` the consequence.
- A sweep described as closing abandoned rooms can close a game that has just started, because it
  reads the status and closes in two steps; `StillStaleIff` is the exact condition and
  `SweepClosesAFreshGame` a run.

## Model

| member | source | states |
|---|---|---|
| RoomRuns.ForfeitIsEarned | internal/service/room/room.go:340-404 | In every run of a new room with any grace period, if delivering a grace timer ends the game then its player was disconnected while the game ran, at least that grace period earlier, and has been offline at every point since; no stale timer forfeits anybody |
| RoomRuns.NobodyIsForgotten | internal/service/room/room.go:353-404 | At every reachable running state, a player of the game who dropped out during it and is not back has exactly one pending timer of their current generation, only older ones besides, and delivering it at any time from its deadline on publishes their defeat by another player |
| RoomRuns.TimerIffDroppedLive | internal/service/room/room.go:345-363 | At every point of every run where a player of the running game is offline, they have a pending timer of their current generation if and only if they dropped out after the game had started |
| RoomRuns.OverlookedAreNeverForfeited | internal/service/room/room.go:353-387 | If a player is offline in a game since before its start, then whatever happens until they reconnect, no timer finishes the game against them |
| RoomGames.OfflineAtTheStart | internal/service/room/room.go:250-363 | In every tic-tac-toe room, joining, disconnecting and a second player's join lead to a running game whose first seat is offline and that has no timer at all |
| RoomRuns.FireFinishesIff | internal/service/room/room.go:383-404 | A due timer ends a running game if and only if its player is offline in that generation and sits in one of the seats the game was started with |
| RoomRuns.TimerOrigin | internal/service/room/room.go:353-363 | In every run of a new room every pending timer stems from one disconnect of a connected player of a running game, and its deadline is the configured grace period after it |
| RoomRuns.ConfiguredForLife | internal/service/room/room.go:128-149 | At every point of every run a room has the game and the grace period it was created with |
| RoomRuns.RunKeeps | internal/service/room/room.go:157-226 | The room invariant (seating, lifecycle and state, log, timers) holds at every point of every run of every lawful game |
| RoomInvariant.StepKeeps | internal/service/room/room.go:207-447 | Every turn of the actor loop keeps the invariant |
| RoomInvariant.CompactBijection | internal/service/room/room.go:276-287 | Cutting a player out of the seat list and decrementing the seats behind gives back a bijection between list positions and slots |
| RoomInvariant.LastSeatStarts | internal/service/room/room.go:250-259 | The join that fills MinPlayers always starts the game, and the started room satisfies the invariant |
| RoomRuns.SeatsAreABijection | internal/service/room/room.go:229-293 | At every point of every run nobody is seated twice, seat list and slots name the same players, each slot's seat is its list position, and MaxPlayers is respected |
| RoomRuns.LifecycleMatchesGame | internal/service/room/room.go:229-262 | At every point of every run: Waiting means no game and too few players, Active a live game, Finished a game that is over; a start event exists exactly when there is a game and a terminal diff exactly when it is over |
| RoomRuns.RunOnward | internal/service/room/lifecycle.go:9-22 | Over any stretch of any run the lifecycle never moves back; from the start of the game seats, connection epochs and applied numbers only grow; a finished game's state, number and finish time are frozen |
| RoomRuns.FinishesWithTerminalDiff | internal/service/room/room.go:323-336 | A step publishes a terminal diff if and only if it is the step that finishes the room, and its time is the recorded finish |
| RoomRuns.LogTellsCounters | internal/service/room/room.go:325-331 | In the log of any run the i-th diff carries number i and every other event the count so far, no diff follows the terminal one, the game is started at most once, and serverSeq, connection flags and generations can be read off it |
| RoomRuns.ConnectionEventsAlternate | internal/service/room/room.go:340-381 | In the log of any run, between two disconnect events of a player there is a reconnect or join, between two reconnects a disconnect |
| RoomRuns.AppliedSeqsIncrease | internal/service/room/room.go:309-324 | Of two actions of a player applied in one run, the later has the larger sequence number, except exactly when both numbers are 0 |
| RoomRuns.ActionAppliesIff | internal/service/room/room.go:295-338 | An action is applied if and only if the room is Active, the player seated and connected, the number new and the move legal; otherwise only the activity time changes |
| RoomReplies.JoinRefusedIff | internal/service/room/room.go:229-248 | A join is refused as closed exactly when the game is over, as full exactly when a newcomer finds no seat, and for no other reason; a refusal changes nothing |
| RoomReplies.JoinIsAnswered | internal/service/room/room.go:235-262 | An accepted join is answered with the joiner's seat and the resulting room's lifecycle, number and game snapshot; a newcomer sits last, connected, and is announced; a repeated join changes nothing and does not reconnect |
| RoomReplies.ReconnectIsAnswered | internal/service/room/room.go:366-381 | Strangers are refused; anybody seated is connected afterwards and is sent their seat and the room's lifecycle, number and game snapshot; the others are told exactly if they had been offline |
| RoomReplies.SnapshotIsAnswered | internal/service/room/room.go:414-447 | A snapshot request is answered with the lifecycle, number and game snapshot, nothing before the start, and changes nothing |
| RoomReplies.ActionIsAnswered | internal/service/room/room.go:295-338 | An error is the first of: not active, not seated, offline, number not new, the game's own objection; it is sent if and only if the action is not applied, and then nothing changed. An applied action's result is published under the next number and the sender is told that number and the lifecycle |
| RoomReplies.LeaveWhileWaiting | internal/service/room/room.go:276-292 | Leaving a waiting room takes the player out of seats and slots, moves those behind up by one, announces nothing, and closes the room exactly if nobody is left |
| RoomReplies.DisconnectIsAnswered | internal/service/room/room.go:270-364 | A disconnect, or leaving after the start, is never refused: a connected player is offline one generation later, announced, and on a timer exactly if the game runs; anybody else changes nothing |
| RoomReplies.TickPublishes | internal/service/room/room.go:418-436 | A tick publishes exactly what the game returns for a running game and is not activity |
| RoomReplies.TimerPublishes | internal/service/room/room.go:383-404 | A delivered timer is used up, and publishes the game's verdict exactly if it is current in a running game whose player it can judge |
| RoomReplies.CloseIsAnswered | internal/service/room/room.go:406-412 | Force-closing closes an open room, announces it and changes nothing else |
| RoomReplies.ActivityClock | internal/service/room/room.go:199-208 | Commands and delivered timers set the activity time to their own; ticks and status reads do not |
| RoomReplies.StartIsShown | internal/service/room/room.go:250-259 | In the log of every run of a new room the start event carries the snapshot of the state Init returned for the players in the seats the game started with |
| RoomReplies.AnswerLeadsToThePresent | internal/transport/ws/server.go:113-126 | The snapshot and number sent in answer to a reconnect, join or snapshot request, patched with the diffs numbered above it, give the room's snapshot at every later point of the run |
| RoomReplay.DiffsLeadToSnapshots | internal/service/room/room.go:323-331 | For any two points of any run with non-empty IDs, applying the diffs numbered m+1..n from the log to snapshot m gives exactly snapshot n |
| RoomReplay.CommandTold | internal/service/room/room.go:395-436 | A step of a room with a game publishes at most one event; the state never changes without a diff, and a diff takes the next number, names the new snapshot's winner and patches the old snapshot into the new one |
| RoomReplay.DiffsAreBounded | internal/service/room/room.go:325-331 | No room ever publishes more diffs than its game's budget |
| RoomGames.TicTacToeRooms | internal/domain/tictactoe/tictactoe.go:186-287 | A tic-tac-toe room at any point of any run shows a reachable board, live exactly while Active, and never passes number 9 |
| RoomGames.BuzzerRooms | internal/domain/pingpong/pingpong.go:156-264 | A duel room at any point of any run is in a reachable duel state and never passes number 3 |
| RoomGames.RoomsOfLawfulGames | internal/service/room/room.go:157-262 | The same for every lawful game: at any point of any run of a new room, players and diffs within the game's limits, and a running or finished game in a state its cast can reach, live exactly while Active |
| RoomGames.ZeroAppliesTwice | internal/service/room/room.go:310-313 | For any two players there is a run in which a room applies two actions of one player with the same number 0 |
| RoomActor.Actor.constructor | internal/service/room/room.go:128-149 | A new actor has the given game and grace period, is Waiting since now, and has no players, game, events or timers |
| RoomActor.Actor.HandleJoin | internal/service/room/room.go:229-262 | The field updates and the reply are those of the value model |
| RoomActor.Actor.CloseGap | internal/service/room/room.go:283-287 | Walking the slot map in any order lowers exactly the seats behind the vacated one |
| RoomActor.Actor.Vacate | internal/service/room/room.go:276-287 | Deleting the slot, cutting the name out of the seat list and closing the gap give the seats and slots of the value model and change nothing else |
| RoomActor.Actor.HandleLeave | internal/service/room/room.go:264-293 | Search, in-place shift, seat decrements and closing of an emptied room are those of the value model; after the start it is a disconnect |
| RoomActor.Actor.HandleAction | internal/service/room/room.go:295-338 | The field updates and the reply, error paths included, are those of the value model |
| RoomActor.Actor.HandleDisconnect | internal/service/room/room.go:340-364 | The field updates, the reply and the armed timer are those of the value model |
| RoomActor.Actor.HandleReconnect | internal/service/room/room.go:366-381 | The field updates and the reply are those of the value model |
| RoomActor.Actor.HandleGraceExpired | internal/service/room/room.go:383-404 | The field updates, and the stale cases that change nothing, are those of the value model |
| RoomActor.Actor.HandleForceClose | internal/service/room/room.go:406-412 | The field updates and the reply are those of the value model |
| RoomActor.Actor.HandleTick | internal/service/room/room.go:418-436 | The field updates are those of the value model |
| RoomActor.Actor.Handle | internal/service/room/room.go:207-227 | Touching and dispatching a command does what the value model's command does |
| RoomActor.Actor.Turn | internal/service/room/room.go:163-173 | One turn of the loop of an open room, be it a command, a tick, a status read or a timer, is one step of the value model |
| RoomActor.Actor.Run | internal/service/room/room.go:157-175 | The actor loop over any inputs ends in the state the run of the value model ends in; lifecycle, seats, epochs and applied numbers only move forward, and an actor of a lawful game that satisfies the room invariant still does |
| RoomActor.Actor.StatusLocked | internal/service/room/room.go:177-197 | The status holds the current fields and the number of connected slots, and reading it changes nothing |
| TicTacToe.TicTacToeIsLawful | internal/domain/game/game.go:64-101 | Tic-tac-toe meets the game contract: Validate and ApplyAction agree, terminal flags and winners are true, abandoning a live game loses it, every step stays reachable and spends budget, diffs patch snapshots |
| TicTacToe.MoveKeepsReach | internal/domain/tictactoe/tictactoe.go:186-227 | A legal move on a reachable board leads to a reachable one: marks counted by MoveCount, X ahead of O by the odd move, and live, won by the mover, drawn full without line, or forfeited |
| TicTacToe.OnlyTheMoverCompletesALine | internal/domain/tictactoe/tictactoe.go:199-211 | A mark placed on a board without lines completes no line of the other mark |
| TicTacToe.WinningMarkExact | internal/domain/tictactoe/rules.go:5-21 | The table lookup finds a mark if and only if it has three in a row, column or diagonal by board geometry, and it is that mark |
| TicTacToe.MoveIsLegalIff | internal/domain/tictactoe/tictactoe.go:146-184 | On a reachable state a move is accepted if and only if the board is live, it is the player's turn by move parity, and the payload names an empty cell |
| TicTacToe.MoveIsRefused | internal/domain/tictactoe/tictactoe.go:146-184 | Which error a refused move gets, each exactly when: game over, not a player, not their turn, not a move, off the board, cell taken; ApplyAction gives the same one |
| TicTacToe.MoveOutcome | internal/domain/tictactoe/tictactoe.go:186-240 | An accepted move marks exactly the named cell, X on even moves and O on odd ones; three in a row of that mark wins, a full board without is drawn, else it is the other player's turn; events and diff say exactly that |
| TicTacToe.SnapshotShows | internal/domain/tictactoe/tictactoe.go:25-74 | The snapshot shows each cell as "X", "O" or "", the players in seat order, whose turn it is, the move count and the result |
| TicTacToe.InitDeals | internal/domain/tictactoe/tictactoe.go:128-136 | Init succeeds exactly for two players, with an empty board and seat 0 to move |
| TicTacToe.MoveDiffFaithfulIff | internal/domain/tictactoe/tictactoe.go:202-228 | A move's diff patches the old snapshot into the new one if and only if the game ended or the next player's ID is non-empty |
| TicTacToe.DiffsFaithfulIffNamed | internal/domain/tictactoe/tictactoe.go:109-116 | All moves of all games between two distinct players are published faithfully if and only if both IDs are non-empty |
| TicTacToe.AbandonAdvances | internal/domain/tictactoe/tictactoe.go:257-287 | Abandoning a live board ends it with the other player as winner, leaves the cells alone, says so in events and reason, and its diff patches the snapshot without playing a cell |
| TicTacToe.ApplyInSteps | internal/domain/tictactoe/tictactoe.go:186-240 | Copying the board and assigning field by field gives the outcome the rules define, for every state and action |
| TicTacToe.FillMarks | internal/domain/tictactoe/tictactoe.go:66-68 | The loop over the wire board fills every cell with its mark |
| Buzzer.BuzzerIsLawful | internal/domain/game/game.go:64-101 | The duel meets the same game contract |
| Buzzer.InitWith | internal/domain/pingpong/pingpong.go:110-126 | Init succeeds exactly for two players and yields an untouched duel between them whose arm delay is the configured milliseconds if positive and two seconds otherwise |
| Buzzer.BuzzIsLegalIff | internal/domain/pingpong/pingpong.go:136-151 | A buzz is accepted if and only if the duel is on, the action is a buzz and its sender is in the duel; each refusal has its own error |
| Buzzer.BuzzIsDecisive | internal/domain/pingpong/pingpong.go:156-189 | An accepted buzz ends the duel, for the buzzer with reason first_buzz once it is armed, for the other player with reason false_start before |
| Buzzer.TickOutcome | internal/domain/pingpong/pingpong.go:194-223 | A tick changes a live duel if and only if the clock is not set yet or has run out; it sets it the arm delay ahead, arms the duel when due, and announces that |
| Buzzer.SnapshotShows | internal/domain/pingpong/pingpong.go:42-72 | The snapshot shows the players, the phase as "countdown", "armed" or "done", and the result |
| Buzzer.ArmedIffGoSignal | internal/domain/pingpong/pingpong.go:194-223 | Over any sequence of ticks, buzzes and abandonments a live duel is armed if and only if some tick came at least the arm delay after the first one |
| Buzzer.BuzzOutcome | internal/domain/pingpong/pingpong.go:156-189 | A buzz in a live duel wins it after the go signal and loses it to the opponent before |
| Buzzer.FirstBuzzIsLegal | internal/domain/pingpong/pingpong.go:167-176 | Over whole duels a first_buzz win is the winner's own buzz, made after the go signal |
| Buzzer.AtMostTwoTicksChange | internal/domain/pingpong/pingpong.go:194-223 | However many ticks a duel sees, at most two change its state |
| RoomDuels.RoomPlays | internal/service/room/room.go:295-436 | At every point of every run of a duel room the state is the duel dealt to its two seats, moved by exactly the ticks while Active, the applied buzzes and the finishing grace timer |
| RoomDuels.RoomBuzzIsLegal | internal/domain/pingpong/pingpong.go:167-176 | In every run of a duel room that shows a first_buzz win, an action of the winner was applied at a point where some tick had come at least the arm delay after the duel's first |
| RoomDuels.AtMostTwoTicksArePublished | internal/domain/pingpong/pingpong.go:194-223 | However often and whenever a duel room ticks, at most two of its ticks publish a diff |
| Buzzer.AbandonAdvances | internal/domain/pingpong/pingpong.go:234-264 | Abandoning a live duel ends it with the other player as winner and says so in events and reason |
| Buzzer.TickInSteps | internal/domain/pingpong/pingpong.go:194-223 | Changing a copy and tracking whether anything changed gives the tick outcome, for every state and time |
| RoomManager.JoinAllSeats | internal/service/room/manager.go:94-132 | Seating any list of players, repetitions included, puts them in list order; nobody is refused if they fit, otherwise exactly the first one too many is; the room is Active exactly from MinPlayers on |
| RoomManager.GroupIsSeated | internal/service/room/manager.go:99-132 | A group of distinct players that fits a new room takes seats 0, 1, 2, ... without error and plays at once if it reaches MinPlayers |
| RoomManager.IdlingChangesNothing | internal/service/room/room.go:166-169 | Ticks, status reads and timers that are not pending leave a waiting room unchanged, so they cannot prolong its life |
| RoomManager.FinishTimeIsFixed | internal/service/room/room.go:397-398 | Nothing sent to a finished room moves the moment from which it may be collected |
| RoomManager.Manager.CreateRoom | internal/service/room/manager.go:99-132 | An unknown game type changes nothing; otherwise a room of that game with the manager's grace period is registered, has joined the players in order up to the first refusal, was last active now and has no timers |
| RoomManager.Manager.SweepRoom | internal/service/room/manager.go:236-249 | A room is closed and unregistered exactly if it is overdue, else untouched; rooms stay registered under one ID each |
| RoomManager.Manager.GCSweepOnce | internal/service/room/manager.go:233-251 | After an undisturbed sweep no registered room is Waiting past WaitingTTL or Finished past FinishedLinger; each that was is closed and unregistered, every other room is untouched and registered; one ID per room |
| RoomManager.StaleIff | internal/service/room/manager.go:240-247 | A room is overdue if and only if it is Waiting for longer than WaitingTTL since its last command or Finished for longer than FinishedLinger |
| RoomManager.SweptRoomsAreNotStale | internal/service/room/manager.go:240-249 | After a sweep no room is overdue, and what the sweep did to a room is one force-close turn of its actor |
| RoomManager.StillStaleIff | internal/service/room/manager.go:235-247 | With any sequence of inputs between reading and closing, a waiting room found overdue is still overdue if and only if every one of them is a tick, a status read or a timer |
| RoomManager.SweepCanCloseALiveGame | internal/service/room/manager.go:236-244 | A join that completes the table between the two steps makes the sweep close an Active room that is not overdue |
| RoomGames.SweepClosesAFreshGame | internal/service/room/manager.go:235-247 | A tic-tac-toe room with one player, left alone past WaitingTTL: the sweep finds it overdue, the second join starts a game that is not, and the close that follows ends it |
| Matchmaker.MatchmakingConserves | internal/service/matchmaking/matchmaker.go:43-91 | Over any interleaving of Enqueue and Dequeue on any games, the lobby is a plain list of who came and stayed, in order of arrival: its full tables are the groups formed, one after the other, and the remainder is the queue; groups have exactly capacity distinct players, queues no duplicates |
| Matchmaker.EnqueueIsExact | internal/service/matchmaking/matchmaker.go:51-68 | Somebody queued already is ignored; anybody else becomes last in the queue or, if that fills a table, leaves with the whole queue as a group; other games' queues stay |
| Matchmaker.DequeueIsExact | internal/service/matchmaking/matchmaker.go:80-91 | The answer is true if and only if the player was queued; then they no longer are and everybody else keeps their order; other games' queues stay |
| Matchmaker.MatchIsPlayed | internal/service/matchmaking/matchmaker.go:58-75 | After any run of enqueues and dequeues, a call that completes a table takes the whole queue in order plus the caller, and the room created for that group lets everybody in and is Active with them in seats 0, 1, 2, ... |
| Matchmaker.Matchmaker.Enqueue | internal/service/matchmaking/matchmaker.go:43-75 | Unknown types, repeated players, queueing and matching change queue and registry as the critical section and CreateRoom say; a match returns the new room, and if CreateRoom refuses somebody the group is gone from the queue, the room stays registered and its error is returned |
| Matchmaker.Matchmaker.Dequeue | internal/service/matchmaking/matchmaker.go:80-91 | Reports true if and only if the player was queued, and then cuts out their one entry and nothing else |
| Lease.OwnerIsTheHolder | internal/storage/redis/lock.go:68-74 | Over every interleaving of any nodes RoomOwner names a node if and only if that node holds an unexpired, unreleased grant |
| Lease.GrantsNeverOverlap | internal/storage/redis/lock.go:31-66 | A later grant to another node comes after the earlier one has run out, unless its owner released it in between |
| Lease.OneHolder | internal/storage/storage.go:41-45 | At no instant do two nodes hold the same room |
| Lease.NobodySteals | internal/storage/redis/lock.go:39-61 | No operation of a node changes another node's live lease |
| Lease.LeaseNeverLapses | internal/service/room/manager.go:137-157 | A lease whose renewals are never more than two intervals apart (one wake-up may fail and end in a futile re-acquire) is held without a gap and every renewal succeeds, whatever other nodes do |
| Lease.RenewInterval | internal/service/room/manager.go:138-141 | The wake-up interval is a third of the lease duration, rounded down, or a second where that would be nothing |
| Lease.RoomLocator.AcquireRoomLease | internal/storage/redis/lock.go:31-37 | Succeeds exactly on a missing or expired key and then sets owner and expiry |
| Lease.RoomLocator.RenewRoomLease | internal/storage/redis/lock.go:39-53 | Succeeds exactly on the caller's own live key and then moves its expiry |
| Lease.RoomLocator.ReleaseRoomLease | internal/storage/redis/lock.go:55-66 | Deletes exactly the caller's own live key |
| Lease.RoomLocator.Get | internal/storage/redis/lock.go:68-74 | Returns the owner of a live key and nothing otherwise |
| Lease.RoomLocator.MaintainOnce | internal/service/room/manager.go:151-174 | With other nodes acting in between, an undisturbed wake-up ends with this node on a full-length lease or another node on a live one; with lost requests or replies, success still means holding the lease |
| TokenBucket.BucketIsSlidingWindow | internal/ratelimit/tokenbucket.go:25-63 | From its creation on, for any requests and any clock, AllowN succeeds if and only if for every earlier or current call the grants since then plus this request are at most capacity plus rate times elapsed time |
| TokenBucket.FirstRequest | internal/ratelimit/tokenbucket.go:25-63 | The first request to a new limiter is granted exactly up to its capacity |
| TokenBucket.LevelIsTightestWindow | internal/ratelimit/tokenbucket.go:41-44 | A level cut off at a cap in every step is the minimum over all uncut windows |
| TokenBucket.Limiter.constructor | internal/ratelimit/tokenbucket.go:25-33 | A new limiter holds its full capacity and has the given rate and clock |
| TokenBucket.Limiter.RefillLocked | internal/ratelimit/tokenbucket.go:35-46 | Refills by elapsed time up to capacity, and not at all when the clock stands still or steps back |
| TokenBucket.Limiter.AllowN | internal/ratelimit/tokenbucket.go:54-63 | Grants wholesale or not at all, and updates the level accordingly |
| SessionStore.SweepIsUnobservable | internal/storage/memory/session_store.go:42-70 | On a clock that does not step back, two runs that differ only in where they sweep answer every lookup alike |
| SessionStore.RecordLives | internal/storage/memory/session_store.go:35-50 | Whatever happens to other sessions and however often the store is swept, a saved record is loadable exactly up to save time plus ttl |
| SessionStore.DeletedIsGone | internal/storage/memory/session_store.go:52-57 | A deleted session is not found at any later call until it is saved anew |
| SessionStore.RecordOutlivesGrace | internal/transport/ws/server.go:222-225 | If in any run of a room with some grace period a disconnect sets a timer, the record saved for it is loadable at every instant up to that timer's deadline, whatever happens to other sessions, even if the room handles the disconnect up to five seconds after the save |
| SessionStore.Store.LoadSession | internal/storage/memory/session_store.go:42-50 | Returns the record unless it is absent or past its expiry |
| SessionStore.Store.Sweep | internal/storage/memory/session_store.go:61-70 | Deleting while walking the map in any order leaves exactly the unexpired entries |

## Left out

- WebSocket pumps, HTTP handlers, JWT, ULIDs, configuration, `cmd/`, Docker and load tests: I/O and library wrappers.
- JSON: payloads, diffs and snapshots are modelled decoded; "" and false stand for omitted fields.
- Redis networking, timeouts and pub/sub: Redis is an atomic expiring register; lost requests and replies appear only in the renewal round.
- Lease.RoomLocator.AcquireRoomLease: takes durations of positive whole milliseconds only; the client library rounds others or treats 0 as "no expiry", and it is not part of this model.
- Lease.RoomLocator.RenewRoomLease: the same durations; the script is given whole milliseconds, so a shorter one would expire the key at once.
- Lease.RoomLocator.MaintainOnce: the same durations.
- The Go runtime: channels, mutexes and goroutines are atomic steps in any order; one clock reading per step; the sink and the timers are fields of the room.
- Fixed-width and floating-point arithmetic: counters are unbounded and the limiter uses reals.
- RoomModel.Room: leaves out the room ID, game type and creation time, which no handler reads.
- RoomManager.Manager.CreateRoom: takes a fresh ID as a parameter and does not acquire a lease; the code goes on without one if that fails, so lease theorems are about the key only.
- RoomManager.Manager.GCSweepOnce: models a sweep with nothing in between; the interleaved case is `StillStaleIff`.
- TokenBucket.BucketIsSlidingWindow: assumes a rate that is not negative and requests that are not negative; negative requests would refill the bucket.
- The Hub and the transport's pending maps: a stale connection's close disconnects the newer one, so the whole-stack claim is not a theorem.
- `game.Registry`, error-code mapping, lifecycle names: one branch each.
