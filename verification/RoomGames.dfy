/** The room theorems for the two games there are. */
module RoomGames {
  import opened Prelude
  import opened Game
  import opened RoomModel
  import opened RoomInvariant
  import opened RoomRuns
  import opened RoomManager
  import TicTacToe
  import Buzzer

  /** A room of a lawful game at any point of any run: never more players or diffs than the game
      allows, and a running or finished game in a state its cast can reach, live while Active. */
  lemma RoomsOfLawfulGames(game: Game, grace: nat, start: Time, es: seq<Timed>, k: nat, c: Promise)
    requires Lawful(game, c) && k <= |es|
    ensures var r := After(NewRoom(game, grace, start), es, k);
            && |r.seatOrder| <= game.maxPlayers && r.serverSeq <= c.limit && r.game == game
            && (r.lifecycle == Active || r.lifecycle == Finished ==>
                  && game.minPlayers <= |r.seatOrder| && r.state.Some? && c.reach(Cast(r), r.state.value)
                  && (r.lifecycle == Active <==> !game.isTerminal(r.state.value)))
  {
    FreshRoom(game, grace, start, c);
    RunKeeps(NewRoom(game, grace, start), es, k, c);
    LawfulRoom(After(NewRoom(game, grace, start), es, k), c);
  }

  lemma LawfulRoom(r: Room, c: Promise)
    requires Inv(r, c)
    ensures |r.seatOrder| <= r.game.maxPlayers && r.serverSeq <= c.limit
    ensures r.lifecycle == Active || r.lifecycle == Finished ==>
              && r.game.minPlayers <= |r.seatOrder| && r.state.Some? && c.reach(Cast(r), r.state.value)
              && (r.lifecycle == Active <==> !r.game.isTerminal(r.state.value))
  {
  }

  /** A tic-tac-toe room at any point of any run: fewer than two players wait, otherwise the state is
      a reachable board between the first two seats, live exactly while the room is Active; and it
      never publishes more than nine diffs. */
  lemma TicTacToeRooms(grace: nat, start: Time, es: seq<Timed>, k: nat)
    requires k <= |es|
    ensures var r := After(NewRoom(TicTacToe.GAME, grace, start), es, k);
            && |r.seatOrder| <= 2 && r.serverSeq <= 9
            && (r.lifecycle == Active || r.lifecycle == Finished ==>
                  && |r.seatOrder| == 2 && r.state.Some? && TicTacToe.Reach(r.seatOrder, r.state.value)
                  && (r.lifecycle == Active <==> TicTacToe.Live(r.state.value.board)))
  {
    TicTacToe.TicTacToeIsLawful();
    RoomsOfLawfulGames(TicTacToe.GAME, grace, start, es, k, TicTacToe.PROMISE);
    BoardOf(After(NewRoom(TicTacToe.GAME, grace, start), es, k));
  }

  lemma BoardOf(r: Room)
    requires r.game == TicTacToe.GAME && |r.seatOrder| <= 2
    ensures 2 <= |r.seatOrder| && r.state.Some? && TicTacToe.PROMISE.reach(Cast(r), r.state.value) ==>
              && TicTacToe.Reach(r.seatOrder, r.state.value)
              && (TicTacToe.GAME.isTerminal(r.state.value) <==> !TicTacToe.Live(r.state.value.board))
  {
    if 2 <= |r.seatOrder| {
      assert Cast(r) == r.seatOrder;
    }
  }

  /** A duel room at any point of any run publishes at most three diffs. */
  lemma BuzzerRooms(grace: nat, start: Time, es: seq<Timed>, k: nat)
    requires k <= |es|
    ensures var r := After(NewRoom(Buzzer.GAME, grace, start), es, k);
            && |r.seatOrder| <= 2 && r.serverSeq <= 3
            && (r.lifecycle == Active || r.lifecycle == Finished ==>
                  |r.seatOrder| == 2 && r.state.Some? && Buzzer.Reach(r.seatOrder, r.state.value))
  {
    Buzzer.BuzzerIsLawful();
    RoomsOfLawfulGames(Buzzer.GAME, grace, start, es, k, Buzzer.PROMISE);
    var r := After(NewRoom(Buzzer.GAME, grace, start), es, k);
    if r.lifecycle == Active || r.lifecycle == Finished {
      assert Cast(r) == r.seatOrder;
    }
  }

  // ----- the number 0 -------------------------------------------------------------------

  ghost predicate ToMove(r: Room, p: PlayerId, b: BoardState) {
    && r.game == TicTacToe.GAME && r.lifecycle == Active && r.state == Some(Board(b))
    && p in r.players && r.players[p].connected && r.players[p].lastAppliedSeq == 0
    && !b.done && b.first != b.second && p == Name(b.first, b.second, b.turn)
  }

  function ZeroMove(p: PlayerId, x: int, y: int): Action {
    Action(TicTacToe.ACTION_MOVE, p, 0, Move(x, y))
  }

  lemma ZeroMoveApplies(r: Room, p: PlayerId, b: BoardState, x: nat, y: nat, now: Time)
    requires ToMove(r, p, b) && x < 3 && y < 3 && b.cells[3 * y + x] == Empty
    ensures var e := At(now, Submit(ZeroMove(p, x, y)));
            var next := TicTacToe.Settle(TicTacToe.Place(b, 3 * y + x));
            && Applies(r, e)
            && r.Step(e).state == Some(Board(next)) && r.Step(e).game == r.game && r.Step(e).players == r.players
            && (!next.done ==> r.Step(e).lifecycle == Active)
  {
    var a := ZeroMove(p, x, y);
    assert TicTacToe.Legal(b, a) == Ok(3 * y + x);
    assert r.players[p := r.players[p].(lastAppliedSeq := 0)] == r.players;
  }

  lemma TwoJoinsStart(p: PlayerId, q: PlayerId) returns (r: Room, b: BoardState)
    requires p != q
    ensures r == NewRoom(TicTacToe.GAME, 0, 0).Step(At(0, Join(p))).Step(At(0, Join(q)))
    ensures TicTacToe.Init([p, q]) == Ok(Board(b)) && ToMove(r, p, b)
    ensures q in r.players && r.players[q].connected && r.players[q].lastAppliedSeq == 0
  {
    var one := NewRoom(TicTacToe.GAME, 0, 0).Step(At(0, Join(p)));
    assert one.seatOrder == [p] && one.lifecycle == Waiting;
    r := one.Step(At(0, Join(q)));
    assert one.Seat(q).seatOrder == [p, q];
    b := TicTacToe.Init([p, q]).value.board;
  }

  /** Sequence numbers do not have to increase strictly: a player who keeps sending the number 0 is
      never recognised as repeating it, and a room applies two of their actions with the same number. */
  lemma ZeroAppliesTwice(p: PlayerId, q: PlayerId) returns (es: seq<Timed>)
    requires p != q
    ensures var r := NewRoom(TicTacToe.GAME, 0, 0);
            && |es| == 5 && Applies(After(r, es, 2), es[2]) && Applies(After(r, es, 4), es[4])
            && es[2].input.a.player == es[4].input.a.player == p && es[2].input.a.seqNo == es[4].input.a.seqNo == 0
  {
    var r0 := NewRoom(TicTacToe.GAME, 0, 0);
    es := [At(0, Join(p)), At(0, Join(q)), At(0, Submit(ZeroMove(p, 0, 0))),
           At(0, Submit(ZeroMove(q, 1, 0))), At(0, Submit(ZeroMove(p, 0, 1)))];
    var r2, b := TwoJoinsStart(p, q);
    ZeroMoveApplies(r2, p, b, 0, 0, 0);
    var b3 := TicTacToe.Settle(TicTacToe.Place(b, 0));
    TicTacToe.TwoMarksAreNoLine(TicTacToe.Place(b, 0).cells);
    var r3 := r2.Step(es[2]);
    ZeroMoveApplies(r3, q, b3, 1, 0, 0);
    var b4 := TicTacToe.Settle(TicTacToe.Place(b3, 1));
    TicTacToe.TwoMarksAreNoLine(TicTacToe.Place(b3, 1).cells);
    ZeroMoveApplies(r3.Step(es[3]), p, b4, 0, 1, 0);
    FourSteps(r0, es, r0.Step(es[0]), r2, r3, r3.Step(es[3]));
  }

  lemma NextIs(r: Room, es: seq<Timed>, k: nat, m: Room, n: Room)
    requires k < |es| && After(r, es, k) == m && m.Step(es[k]) == n
    ensures After(r, es, k + 1) == n
  {
    AfterStep(r, es, k);
  }

  lemma FourSteps(r: Room, es: seq<Timed>, r1: Room, r2: Room, r3: Room, r4: Room)
    requires |es| == 5 && r.Step(es[0]) == r1 && r1.Step(es[1]) == r2 && r2.Step(es[2]) == r3 && r3.Step(es[3]) == r4
    ensures After(r, es, 2) == r2 && After(r, es, 4) == r4
  {
    NextIs(r, es, 0, r, r1);
    NextIs(r, es, 1, r1, r2);
    NextIs(r, es, 2, r2, r3);
    NextIs(r, es, 3, r3, r4);
  }

  // ----- offline when the game starts ---------------------------------------------------

  lemma FirstJoin(grace: nat, start: Time, p: PlayerId, t: Time) returns (r: Room)
    ensures r == NewRoom(TicTacToe.GAME, grace, start).Step(At(t, Join(p)))
    ensures r == NewRoom(TicTacToe.GAME, grace, start).(seatOrder := [p], players := map[p := Slot(0, true, 0, 0)],
                                                        lastActivity := t, log := [PlayerJoined(0, p)])
  {
    r := NewRoom(TicTacToe.GAME, grace, start).Step(At(t, Join(p)));
  }

  lemma LastJoin(r: Room, q: PlayerId, t: Time)
    requires r.game == TicTacToe.GAME && r.lifecycle == Waiting && |r.seatOrder| == 1 && q !in r.players
    ensures var n := r.Step(At(t, Join(q)));
            && n.lifecycle == Active && n.timers == r.timers && n.lastActivity == t
            && n.players == r.players[q := Slot(1, true, 0, 0)]
            && |n.log| == |r.log| + 2 && n.log[..|r.log|] == r.log
            && n.log[|r.log|] == PlayerJoined(r.serverSeq, q) && n.log[|r.log| + 1].RoomStarted?
  {
    var m := r.(lastActivity := t);
    assert |m.Seat(q).seatOrder| == 2;
  }

  /** A player who goes offline while the room is Waiting and is still offline when the table fills is
      in a running game without any timer that could ever forfeit them. */
  lemma OfflineAtTheStart(grace: nat, start: Time, p: PlayerId, q: PlayerId, t1: Time, t2: Time, t3: Time)
    requires p != q
    ensures var es := [At(t1, Join(p)), At(t2, Disconnect(p)), At(t3, Join(q))];
            var n := After(NewRoom(TicTacToe.GAME, grace, start), es, 3);
            && n.lifecycle == Active && Offline(n, p) && n.players[p].seat == 0
            && n.timers == multiset{} && Overlooked(n, p)
  {
    var es := [At(t1, Join(p)), At(t2, Disconnect(p)), At(t3, Join(q))];
    var r := NewRoom(TicTacToe.GAME, grace, start);
    var r1 := FirstJoin(grace, start, p, t1);
    var r2 := r1.Step(es[1]);
    var r3 := r2.Step(es[2]);
    LastJoin(r2, q, t3);
    assert r2.log == [PlayerJoined(0, p), PlayerDisconnected(0, p)];
    NeverDroppedLive(r3.log, p, q);
    NextIs(r, es, 0, r, r1);
    NextIs(r, es, 1, r1, r2);
    NextIs(r, es, 2, r2, r3);
  }

  lemma NeverDroppedLive(log: seq<RoomEvent>, p: PlayerId, q: PlayerId)
    requires p != q && |log| == 4 && log[1].PlayerDisconnected? && log[0].PlayerJoined?
    requires log[2].PlayerJoined? && log[2].who == q && log[3].RoomStarted?
    ensures About(log[1], p) ==> !DroppedLive(log, p)
  {
    assert log[..3][..2] == log[..2] && log[..2][..1] == log[..1] && log[..1][..0] == [];
    assert !LogStarted(log[..1]);
    if About(log[1], p) {
      assert !DroppedLive(log[..2], p);
      assert !DroppedLive(log[..3], p);
    }
  }

  // ----- a sweep between two joins ------------------------------------------------------

  /** A tic-tac-toe room with one player, left alone past WaitingTTL: the sweep finds it overdue, the
      second player joins and the game starts, and the close the sweep then sends ends it. */
  lemma SweepClosesAFreshGame(m: Manager, grace: nat, p: PlayerId, q: PlayerId)
    requires p != q
    ensures var late: Time := m.waitingTTL + 1;
            var waiting := NewRoom(TicTacToe.GAME, grace, 0).Step(At(0, Join(p)));
            var playing := waiting.Step(At(late, Join(q)));
            && m.Stale(waiting, late)
            && playing.lifecycle == Active && !m.Stale(playing, late)
            && playing.Step(At(late, ForceClose)).lifecycle == Closed
  {
    TicTacToe.TicTacToeIsLawful();
    FreshRoom(TicTacToe.GAME, grace, 0, TicTacToe.PROMISE);
    StepKeeps(NewRoom(TicTacToe.GAME, grace, 0), At(0, Join(p)), TicTacToe.PROMISE);
    var waiting := FirstJoin(grace, 0, p, 0);
    SweepCanCloseALiveGame(m, waiting, q, m.waitingTTL + 1, TicTacToe.PROMISE);
  }
}
