/** The room actor as the object it is: handlers that update fields step by step, each proved
    to do to the fields what the value model does. */
module RoomActor {
  import opened Prelude
  import opened Game
  import opened RoomModel
  import opened RoomInvariant
  import opened RoomRuns

  datatype Status = Status(lifecycle: Lifecycle, players: seq<PlayerId>, connectedCount: nat,
                           lastActivityAt: Time, finishedAt: Time)

  class Actor {
    const game: Game
    const grace: nat
    var lifecycle: Lifecycle
    var state: Option<State>
    var seatOrder: seq<PlayerId>
    var players: map<PlayerId, Slot>
    var serverSeq: nat
    var lastActivity: Time
    var finishedAt: Time
    /** What the sink has been given, and what the runtime has been asked to deliver. */
    var log: seq<RoomEvent>
    var timers: multiset<Timer>

    function View(): Room
      reads this
    {
      Room(game, grace, lifecycle, state, seatOrder, players, serverSeq, lastActivity, finishedAt, log, timers)
    }

    constructor (game: Game, grace: nat, now: Time)
      ensures View() == NewRoom(game, grace, now)
      ensures this.game == game && this.grace == grace && lifecycle == Waiting && lastActivity == now
      ensures state.None? && seatOrder == [] && players == map[] && serverSeq == 0 && log == [] && timers == multiset{}
    {
      this.game, this.grace := game, grace;
      lifecycle, state, seatOrder, players := Waiting, None, [], map[];
      serverSeq, lastActivity, finishedAt := 0, now, 0;
      log, timers := [], multiset{};
    }

    method Broadcast(e: RoomEvent)
      modifies this`log
      ensures log == old(log) + [e]
    {
      log := log + [e];
    }

    function SnapshotBytes(): Option<Snapshot>
      reads this
    {
      View().Snapshot()
    }

    method HandleJoin(p: PlayerId) returns (res: Reply)
      modifies this
      ensures (View(), res) == old(View()).HandleJoin(p)
    {
      if lifecycle == Closed || lifecycle == Finished {
        return Failed(RoomIsClosed);
      }
      if p in players {
        return Reply(None, players[p].seat, lifecycle, SnapshotBytes(), serverSeq);
      }
      if |seatOrder| >= game.maxPlayers {
        return Failed(RoomFull);
      }
      var seat := |seatOrder|;
      seatOrder := seatOrder + [p];
      players := players[p := Slot(seat, true, 0, 0)];
      Broadcast(PlayerJoined(serverSeq, p));
      if lifecycle == Waiting && |seatOrder| >= game.minPlayers {
        var started := game.init(seatOrder);
        if started.Err? {
          return Failed(Rejected(started.error));
        }
        state := Some(started.value);
        lifecycle := Active;
        Broadcast(RoomStarted(serverSeq, SnapshotBytes()));
      }
      res := Reply(None, seat, lifecycle, SnapshotBytes(), serverSeq);
    }

    /** Move everybody seated behind `gone` up by one, in whatever order the map is walked. */
    method CloseGap(gone: nat)
      modifies this`players
      ensures players == Lower(old(players), gone)
    {
      var todo := players.Keys;
      while todo != {}
        invariant todo <= players.Keys == old(players).Keys
        invariant forall q :: q in todo ==> players[q] == old(players)[q]
        invariant forall q :: q in players && q !in todo ==> players[q] == Lower(old(players), gone)[q]
        decreases |todo|
      {
        var q :| q in todo;
        if players[q].seat > gone {
          players := players[q := players[q].(seat := players[q].seat - 1)];
        }
        todo := todo - {q};
      }
    }

    /** Give up the seat of `p`: the slot goes, its name is cut out of the seat list, the gap closes. */
    method Vacate(p: PlayerId)
      requires p in players
      modifies this`players, this`seatOrder
      ensures View() == old(View()).Unseat(p)
    {
      var slot := players[p];
      players := players - {p};
      var i := Find(seatOrder, p);
      if i < |seatOrder| {
        seatOrder := seatOrder[..i] + seatOrder[i + 1..];
      }
      CloseGap(slot.seat);
    }

    method HandleLeave(p: PlayerId, now: Time) returns (res: Reply)
      modifies this
      ensures (View(), res) == old(View()).HandleLeave(p, now)
    {
      if p !in players {
        return Done(lifecycle);
      }
      if lifecycle != Waiting {
        res := HandleDisconnect(p, now);
        return;
      }
      Vacate(p);
      res := Done(lifecycle);
      if |seatOrder| == 0 {
        lifecycle := Closed;
      }
    }

    method HandleAction(a: Action, now: Time) returns (res: Reply)
      modifies this
      ensures (View(), res) == old(View()).HandleAction(a, now)
    {
      if lifecycle != Active || state.None? {
        return Failed(RoomNotActive);
      }
      if a.player !in players {
        return Failed(UnknownPlayer);
      }
      var slot := players[a.player];
      if !slot.connected {
        return Failed(PlayerOffline);
      }
      if a.seqNo <= slot.lastAppliedSeq && slot.lastAppliedSeq != 0 {
        return Failed(StaleAction);
      }
      var refusal := game.validate(state.value, a);
      if refusal.Some? {
        return Failed(Rejected(refusal.value));
      }
      var applied := game.applyAction(state.value, a);
      if applied.Err? {
        return Failed(Rejected(applied.error));
      }
      var r := applied.value;
      state := Some(r.newState);
      players := players[a.player := slot.(lastAppliedSeq := a.seqNo)];
      serverSeq := serverSeq + 1;
      Broadcast(StateDiff(serverSeq, r.diff, r.events, r.terminal, r.winner, a.player));
      if r.terminal {
        lifecycle := Finished;
        finishedAt := now;
      }
      res := Done(lifecycle, serverSeq);
    }

    method HandleDisconnect(p: PlayerId, now: Time) returns (res: Reply)
      modifies this
      ensures (View(), res) == old(View()).HandleDisconnect(p, now)
    {
      if p !in players || !players[p].connected {
        return Done(lifecycle);
      }
      var slot := players[p].(connected := false);
      slot := slot.(generation := slot.generation + 1);
      players := players[p := slot];
      Broadcast(PlayerDisconnected(serverSeq, p));
      res := Done(lifecycle);
      if lifecycle == Active {
        timers := timers + multiset{Timer(p, slot.generation, now + grace)};
      }
    }

    method HandleReconnect(p: PlayerId) returns (res: Reply)
      modifies this
      ensures (View(), res) == old(View()).HandleReconnect(p)
    {
      if p !in players {
        return Failed(UnknownPlayer);
      }
      var wasConnected := players[p].connected;
      players := players[p := players[p].(connected := true)];
      assert wasConnected ==> players == old(players);
      if !wasConnected {
        Broadcast(PlayerReconnected(serverSeq, p));
      }
      res := Reply(None, players[p].seat, lifecycle, SnapshotBytes(), serverSeq);
    }

    method HandleGraceExpired(p: PlayerId, generation: nat, now: Time)
      modifies this
      ensures View() == old(View()).HandleGraceExpired(p, generation, now)
    {
      if p !in players || players[p].connected || players[p].generation != generation {
        return;
      }
      if lifecycle != Active || state.None? {
        return;
      }
      var verdict := game.onPlayerAbandoned(state.value, p);
      if verdict.Err? {
        return;
      }
      state := Some(verdict.value.newState);
      serverSeq := serverSeq + 1;
      lifecycle := Finished;
      finishedAt := now;
      Broadcast(StateDiff(serverSeq, verdict.value.diff, verdict.value.events, true, verdict.value.winner, p));
    }

    method HandleForceClose() returns (res: Reply)
      modifies this
      ensures (View(), res) == old(View()).HandleForceClose()
    {
      if lifecycle != Closed {
        Broadcast(RoomClosed(serverSeq));
      }
      lifecycle := Closed;
      res := Done(Closed);
    }

    method HandleTick(now: Time)
      modifies this
      ensures View() == old(View()).HandleTick(now)
    {
      if lifecycle != Active || state.None? {
        return;
      }
      var ticked := game.tick(state.value, now);
      if ticked.None? {
        return;
      }
      var r := ticked.value;
      state := Some(r.newState);
      serverSeq := serverSeq + 1;
      Broadcast(StateDiff(serverSeq, r.diff, r.events, r.terminal, r.winner, ""));
      if r.terminal {
        lifecycle := Finished;
        finishedAt := now;
      }
    }

    /** A delivered timer is no longer pending. */
    method Deliver(t: Timer, now: Time)
      modifies this
      ensures View() == old(View()).(timers := old(timers) - multiset{t})
                                   .HandleGraceExpired(t.player, t.generation, now)
    {
      timers := timers - multiset{t};
      HandleGraceExpired(t.player, t.generation, now);
    }

    method Dispatch(e: Timed) returns (res: Reply)
      modifies this
      ensures (View(), res) == old(View()).Handle(e)
    {
      match e.input
      case Join(p) => res := HandleJoin(p);
      case Leave(p) => res := HandleLeave(p, e.now);
      case Submit(a) => res := HandleAction(a, e.now);
      case Disconnect(p) => res := HandleDisconnect(p, e.now);
      case Reconnect(p) => res := HandleReconnect(p);
      case Fire(t) =>
        res := Done(lifecycle);
        Deliver(t, e.now);
      case ForceClose => res := HandleForceClose();
      case TakeSnapshot => res := Reply(None, 0, lifecycle, SnapshotBytes(), serverSeq);
      case Tick => res := Done(lifecycle);
      case Poll => res := Done(lifecycle);
    }

    /** `touch`, then the dispatch. */
    method Handle(e: Timed) returns (res: Reply)
      modifies this
      ensures (View(), res) == old(View()).(lastActivity := e.now).Handle(e)
    {
      lastActivity := e.now;
      res := Dispatch(e);
    }

    /** One turn of the actor loop: the ticker and status reads are not commands, and the runtime
        delivers only timers that are pending and due. */
    method Turn(e: Timed)
      requires lifecycle != Closed
      modifies this
      ensures View() == old(View()).Step(e)
    {
      if e.input.Tick? {
        HandleTick(e.now);
      } else if !e.input.Poll? && (!e.input.Fire? || View().Due(e.input.t, e.now)) {
        var _ := Handle(e);
      }
    }

    /** The actor loop over whatever the scheduler lets it receive; it stops once closed. Whatever
        that is, a room of a lawful game keeps the room's invariant. */
    method Run(es: seq<Timed>, ghost c: Promise)
      modifies this
      ensures View() == Exec(old(View()), es)
      ensures Onward(old(View()), View())
      ensures Lawful(game, c) && Inv(old(View()), c) ==> Inv(View(), c)
    {
      ghost var start := View();
      var k := 0;
      while k < |es| && lifecycle != Closed
        invariant k <= |es| && View() == After(start, es, k)
      {
        AfterStep(start, es, k);
        Turn(es[k]);
        k := k + 1;
      }
      ClosedStays(start, es, k);
      RunOutcome(start, es, c);
    }

    /** A status read: counts the connected slots by walking the map, and changes nothing. */
    method StatusLocked() returns (st: Status)
      ensures st.lifecycle == lifecycle && st.players == seatOrder
      ensures st.lastActivityAt == lastActivity && st.finishedAt == finishedAt
      ensures st.connectedCount == |set p | p in players && players[p].connected|
    {
      var connected := 0;
      var todo := players.Keys;
      ghost var seen: set<PlayerId> := {};
      while todo != {}
        invariant todo <= players.Keys
        invariant seen == set p | p in players && p !in todo && players[p].connected
        invariant connected == |seen|
        decreases |todo|
      {
        var q :| q in todo;
        if players[q].connected {
          connected := connected + 1;
          seen := seen + {q};
        }
        todo := todo - {q};
      }
      assert seen == set p | p in players && players[p].connected;
      st := Status(lifecycle, seatOrder, connected, lastActivity, finishedAt);
    }
  }

  lemma RunOutcome(r: Room, es: seq<Timed>, c: Promise)
    ensures After(r, es, |es|) == Exec(r, es) && Onward(r, Exec(r, es))
    ensures Lawful(r.game, c) && Inv(r, c) ==> Inv(Exec(r, es), c)
  {
    assert es[..|es|] == es;
    assert After(r, es, 0) == r;
    RunOnward(r, es, 0, |es|);
    if Lawful(r.game, c) && Inv(r, c) {
      RunKeeps(r, es, |es|, c);
    }
  }

  lemma {:induction false} ClosedStays(r: Room, es: seq<Timed>, k: nat)
    requires k <= |es| && (k == |es| || After(r, es, k).lifecycle == Closed)
    ensures After(r, es, |es|) == After(r, es, k)
    decreases |es| - k
  {
    if k < |es| {
      AfterStep(r, es, k);
      ClosedStays(r, es, k + 1);
    }
  }
}
