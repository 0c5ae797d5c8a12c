/** What each command does and what its sender is told, field by field. */
module RoomReplies {
  import opened Prelude
  import opened Game
  import opened RoomModel
  import opened RoomInvariant
  import opened RoomRuns
  import opened RoomReplay

  /** What the sender of a command hears back from an open room. */
  function Answer(r: Room, e: Timed): Reply {
    r.(lastActivity := e.now).Handle(e).1
  }

  /** The snapshot field of a reply about room `n`: the game as it now stands, nothing before the start. */
  ghost predicate Shows(s: Option<Snapshot>, n: Room) {
    if n.state.Some? then s == Some(n.game.snapshot(n.state.value)) else s.None?
  }

  /** A reply that brings its receiver up to date with room `n`. */
  ghost predicate UpToDate(reply: Reply, n: Room) {
    && reply.err.None? && reply.lifecycle == n.lifecycle && reply.serverSeq == n.serverSeq
    && Shows(reply.snapshot, n)
  }

  /** Nothing happened but the passing of time. */
  ghost predicate OnlyTouched(r: Room, n: Room, now: Time) {
    n == r.(lastActivity := now)
  }

  // ----- joining ------------------------------------------------------------------------

  lemma JoinRefusedIff(r: Room, p: PlayerId, now: Time, c: Promise)
    requires Lawful(r.game, c) && Inv(r, c) && r.lifecycle != Closed
    ensures var e := At(now, Join(p));
            var err := Answer(r, e).err;
            && (err == Some(RoomIsClosed) <==> r.lifecycle == Finished)
            && (err == Some(RoomFull) <==>
                  r.lifecycle != Finished && p !in r.players && |r.seatOrder| == r.game.maxPlayers)
            && (err.Some? ==> (err == Some(RoomIsClosed) || err == Some(RoomFull)) && OnlyTouched(r, r.Step(e), now))
  {
    var n := r.(lastActivity := now);
    TouchKeeps(r, now, c);
    if r.lifecycle == Waiting && p !in r.players && |r.seatOrder| + 1 == r.game.minPlayers {
      LastSeatStarts(n, p, c);
    }
  }

  /** `p` sits down at the end of the list, connected, and everybody is told. */
  ghost predicate SatDown(r: Room, n: Room, p: PlayerId) {
    && n.seatOrder == r.seatOrder + [p] && n.players == r.players[p := Slot(|r.seatOrder|, true, 0, 0)]
    && |r.log| < |n.log| && n.log[..|r.log|] == r.log && n.log[|r.log|] == PlayerJoined(r.serverSeq, p)
  }

  lemma RejoinIsAnswered(r: Room, p: PlayerId, now: Time)
    requires (r.lifecycle == Waiting || r.lifecycle == Active) && p in r.players
    ensures var e := At(now, Join(p));
            UpToDate(Answer(r, e), r.Step(e)) && Answer(r, e).seat == r.players[p].seat && OnlyTouched(r, r.Step(e), now)
  {
  }

  lemma NewcomerIsAnswered(r: Room, p: PlayerId, now: Time)
    requires (r.lifecycle == Waiting || r.lifecycle == Active) && p !in r.players && |r.seatOrder| < r.game.maxPlayers
    requires r.lifecycle == Waiting ==> |r.seatOrder| + 1 < r.game.minPlayers
    ensures var e := At(now, Join(p));
            UpToDate(Answer(r, e), r.Step(e)) && Answer(r, e).seat == |r.seatOrder| && SatDown(r, r.Step(e), p)
  {
  }

  lemma LastNewcomerIsAnswered(r: Room, p: PlayerId, now: Time)
    requires r.lifecycle == Waiting && p !in r.players && |r.seatOrder| < r.game.maxPlayers
    requires |r.seatOrder| + 1 == r.game.minPlayers && r.(lastActivity := now).Seat(p).Start().1.None?
    ensures var e := At(now, Join(p));
            UpToDate(Answer(r, e), r.Step(e)) && Answer(r, e).seat == |r.seatOrder| && SatDown(r, r.Step(e), p)
  {
    var seated := r.(lastActivity := now).Seat(p);
    assert r.Step(At(now, Join(p))) == seated.Start().0;
  }

  /** Answering a join: the seat is the joiner's, and the rest describes the room they are now in. A
      newcomer sits down at the end of the list, connected, and everybody is told; somebody who is
      seated already changes nothing, not even their connection. */
  lemma JoinIsAnswered(r: Room, p: PlayerId, now: Time, c: Promise)
    requires Lawful(r.game, c) && Inv(r, c) && r.lifecycle != Closed
    requires Answer(r, At(now, Join(p))).err.None?
    ensures var e := At(now, Join(p));
            var n := r.Step(e);
            && UpToDate(Answer(r, e), n) && p in n.players && Answer(r, e).seat == n.players[p].seat
            && if p in r.players then OnlyTouched(r, n, now) else SatDown(r, n, p)
  {
    JoinRefusedIff(r, p, now, c);
    if p in r.players {
      RejoinIsAnswered(r, p, now);
    } else if r.lifecycle == Waiting && |r.seatOrder| + 1 == r.game.minPlayers {
      TouchKeeps(r, now, c);
      LastSeatStarts(r.(lastActivity := now), p, c);
      LastNewcomerIsAnswered(r, p, now);
    } else {
      NewcomerIsAnswered(r, p, now);
    }
  }

  // ----- reconnecting and asking --------------------------------------------------------

  /** A reconnect is refused exactly to strangers. Anybody seated is connected afterwards, gets their
      seat and the room as it is, and the others are told exactly if they had been offline. */
  lemma ReconnectIsAnswered(r: Room, p: PlayerId, now: Time)
    requires r.lifecycle != Closed
    ensures var e := At(now, Reconnect(p));
            var n := r.Step(e);
            && (p !in r.players ==> Answer(r, e).err == Some(UnknownPlayer) && OnlyTouched(r, n, now))
            && (p in r.players ==>
                  && UpToDate(Answer(r, e), n) && Answer(r, e).seat == r.players[p].seat
                  && n.players == r.players[p := r.players[p].(connected := true)]
                  && n.log == r.log + if r.players[p].connected then [] else [PlayerReconnected(r.serverSeq, p)])
  {
    if p in r.players && r.players[p].connected {
      assert r.players[p := r.players[p].(connected := true)] == r.players;
    }
  }

  lemma SnapshotIsAnswered(r: Room, now: Time)
    requires r.lifecycle != Closed
    ensures var e := At(now, TakeSnapshot);
            UpToDate(Answer(r, e), r.Step(e)) && OnlyTouched(r, r.Step(e), now)
  {
  }

  // ----- leaving ------------------------------------------------------------------------

  /** Leaving a waiting room gives up the seat: everybody else keeps their slot and the order among
      them, nobody is told, and exactly the last one to go closes the room. */
  lemma LeaveWhileWaiting(r: Room, p: PlayerId, now: Time)
    requires Seating(r) && r.lifecycle == Waiting && p in r.players
    ensures var n := r.Step(At(now, Leave(p)));
            var k := r.players[p].seat;
            && k < |r.seatOrder| && n.seatOrder == r.seatOrder[..k] + r.seatOrder[k + 1..]
            && n.players.Keys == r.players.Keys - {p}
            && (forall q | q in n.players ::
                  n.players[q] == r.players[q].(seat := r.players[q].seat - if r.players[q].seat > k then 1 else 0))
            && n.log == r.log && n.lifecycle == (if r.seatOrder == [p] then Closed else Waiting)
    ensures Answer(r, At(now, Leave(p))).err.None? && Answer(r, At(now, Leave(p))).lifecycle == Waiting
  {
    CutSeat(r.seatOrder, r.players, p);
    CompactSlots(r.players, p);
  }

  lemma CutSeat(order: seq<PlayerId>, slots: map<PlayerId, Slot>, p: PlayerId)
    requires Bijection(order, slots) && p in slots
    ensures var k := slots[p].seat;
            k < |order| && RemoveFirst(order, p) == order[..k] + order[k + 1..]
    ensures RemoveFirst(order, p) == [] <==> order == [p]
  {
    var k := slots[p].seat;
    assert order[k] == p;
    FirstIs(order, p, k);
  }

  lemma CompactSlots(slots: map<PlayerId, Slot>, p: PlayerId)
    requires p in slots
    ensures Compact(slots, p).Keys == slots.Keys - {p}
    ensures forall q | q in Compact(slots, p) ::
              Compact(slots, p)[q] == slots[q].(seat := slots[q].seat - if slots[q].seat > slots[p].seat then 1 else 0)
  {
  }

  /** Everything that can be said about `p` going offline at `now`: the flag, one generation more, the
      event, and a timer for the configured grace period exactly if the game is on. */
  ghost predicate WentOffline(r: Room, n: Room, p: PlayerId, now: Time) {
    && p in r.players && p in n.players && n.players.Keys == r.players.Keys
    && !n.players[p].connected && n.players[p].generation == r.players[p].generation + 1
    && n.players[p].seat == r.players[p].seat && n.players[p].lastAppliedSeq == r.players[p].lastAppliedSeq
    && (forall q | q in r.players && q != p :: n.players[q] == r.players[q])
    && n.log == r.log + [PlayerDisconnected(r.serverSeq, p)]
    && n.timers == r.timers + (if r.lifecycle == Active
                               then multiset{Timer(p, r.players[p].generation + 1, now + r.grace)} else multiset{})
    && n.lifecycle == r.lifecycle && n.state == r.state && n.seatOrder == r.seatOrder && n.serverSeq == r.serverSeq
    && n.lastActivity == now && n.finishedAt == r.finishedAt
  }

  /** A disconnect, or leaving once the game has started, is never refused; it takes a connected player
      offline and is otherwise ignored. */
  lemma DisconnectIsAnswered(r: Room, e: Timed, p: PlayerId)
    requires r.lifecycle != Closed
    requires e.input == Disconnect(p) || (e.input == Leave(p) && (r.lifecycle != Waiting || p !in r.players))
    ensures Answer(r, e).err.None? && Answer(r, e).lifecycle == r.lifecycle
    ensures if p in r.players && r.players[p].connected then WentOffline(r, r.Step(e), p, e.now)
            else OnlyTouched(r, r.Step(e), e.now)
  {
  }

  // ----- publishing ---------------------------------------------------------------------

  /** The game result `res` is published under the next number, about `who`; the room is finished at
      `now` exactly if that ends the game. Nobody's seat or connection changes. */
  ghost predicate Published(r: Room, n: Room, res: Result, terminal: bool, who: PlayerId, now: Time) {
    && n.state == Some(res.newState) && n.serverSeq == r.serverSeq + 1
    && n.log == r.log + [StateDiff(r.serverSeq + 1, res.diff, res.events, terminal, res.winner, who)]
    && n.lifecycle == (if terminal then Finished else Active)
    && n.finishedAt == (if terminal then now else r.finishedAt)
    && n.seatOrder == r.seatOrder && n.players.Keys == r.players.Keys
    && (forall q | q in r.players :: n.players[q].(lastAppliedSeq := 0) == r.players[q].(lastAppliedSeq := 0))
  }

  /** The first reason to refuse an action, in the order of the checks; the game has the last word. */
  ghost function Refusal(r: Room, a: Action): Option<RoomError> {
    if r.lifecycle != Active || r.state.None? then Some(RoomNotActive)
    else if a.player !in r.players then Some(UnknownPlayer)
    else if !r.players[a.player].connected then Some(PlayerOffline)
    else if 0 < r.players[a.player].lastAppliedSeq && a.seqNo <= r.players[a.player].lastAppliedSeq then Some(StaleAction)
    else match r.game.validate(r.state.value, a)
      case Some(e) => Some(Rejected(e))
      case None => None
  }

  lemma RefusedAction(r: Room, a: Action, now: Time)
    requires r.lifecycle != Closed && Refusal(r, a).Some?
    ensures var e := At(now, Submit(a));
            Answer(r, e).err == Refusal(r, a) && OnlyTouched(r, r.Step(e), now) && !Applies(r, e)
  {
  }

  /** The action is applied: its result is published and its number noted, and the sender is told the
      lifecycle and the number that came of it. */
  ghost predicate Accepted(r: Room, n: Room, reply: Reply, a: Action, now: Time)
    requires r.state.Some? && r.game.applyAction(r.state.value, a).Ok? && a.player in r.players
  {
    && reply.err.None? && reply.lifecycle == n.lifecycle && reply.serverSeq == n.serverSeq
    && var res := r.game.applyAction(r.state.value, a).value;
    && Published(r, n, res, res.terminal, a.player, now)
    && n.players == r.players[a.player := r.players[a.player].(lastAppliedSeq := a.seqNo)]
    && n.timers == r.timers && n.lastActivity == now
  }

  lemma AcceptedAction(r: Room, a: Action, now: Time)
    requires Refusal(r, a).None? && r.game.applyAction(r.state.value, a).Ok?
    ensures var e := At(now, Submit(a)); Accepted(r, r.Step(e), Answer(r, e), a, now) && Applies(r, e)
  {
  }

  /** Answering an action: an error is the first reason there is to refuse it, and then nothing
      happened; without any reason the action is applied. */
  lemma ActionIsAnswered(r: Room, a: Action, now: Time, c: Promise)
    requires Lawful(r.game, c) && Inv(r, c) && r.lifecycle != Closed
    ensures var e := At(now, Submit(a));
            && Answer(r, e).err == Refusal(r, a) && (Answer(r, e).err.None? <==> Applies(r, e))
            && (Refusal(r, a).Some? ==> OnlyTouched(r, r.Step(e), now))
            && (Refusal(r, a).None? ==>
                  r.game.applyAction(r.state.value, a).Ok? && Accepted(r, r.Step(e), Answer(r, e), a, now))
  {
    if Refusal(r, a).Some? {
      RefusedAction(r, a, now);
    } else {
      ValidIsApplied(r, a, c);
      AcceptedAction(r, a, now);
    }
  }

  lemma ValidIsApplied(r: Room, a: Action, c: Promise)
    requires ActionLaw(r.game, c) && Playing(r, c)
    ensures r.game.validate(r.state.value, a).None? <==> r.game.applyAction(r.state.value, a).Ok?
  {
  }

  /** A tick publishes exactly what the game returns for a running game at that time, and does not
      count as activity. */
  lemma TickPublishes(r: Room, now: Time)
    ensures var n := r.Step(At(now, Tick));
            if r.lifecycle == Active && r.state.Some? && r.game.tick(r.state.value, now).Some?
            then
              var res := r.game.tick(r.state.value, now).value;
              && Published(r, n, res, res.terminal, "", now)
              && n.players == r.players && n.timers == r.timers && n.lastActivity == r.lastActivity
            else n == r
  {
  }

  /** Delivering a due timer publishes the game's verdict on its player if it is current and the game
      has one, and otherwise only uses up the timer. */
  lemma TimerPublishes(r: Room, t: Timer, now: Time)
    requires r.lifecycle != Closed && r.Due(t, now)
    ensures var n := r.Step(At(now, Fire(t)));
            && n.timers == r.timers - multiset{t} && n.lastActivity == now && n.players == r.players
            && if r.lifecycle == Active && r.state.Some? && Current(r, t)
                  && r.game.onPlayerAbandoned(r.state.value, t.player).Ok?
               then Published(r, n, r.game.onPlayerAbandoned(r.state.value, t.player).value, true, t.player, now)
               else n == r.(timers := r.timers - multiset{t}, lastActivity := now)
  {
  }

  /** Closing an open room: it is Closed, everybody is told, and nothing else is lost. */
  lemma CloseIsAnswered(r: Room, now: Time)
    requires r.lifecycle != Closed
    ensures var n := r.Step(At(now, ForceClose));
            && n.lifecycle == Closed && n.log == r.log + [RoomClosed(r.serverSeq)]
            && n.(lifecycle := r.lifecycle, log := r.log) == r.(lastActivity := now)
    ensures Answer(r, At(now, ForceClose)).err.None? && Answer(r, At(now, ForceClose)).lifecycle == Closed
  {
  }

  /** Who keeps a room alive: every command an open room receives, and nothing else, moves its
      activity clock, to the time of the command. */
  lemma ActivityClock(r: Room, e: Timed)
    ensures r.Step(e).lastActivity ==
            if r.lifecycle == Closed || e.input.Tick? || e.input.Poll? || (e.input.Fire? && !r.Due(e.input.t, e.now))
            then r.lastActivity else e.now
  {
  }

  // ----- the start of the game ----------------------------------------------------------

  /** Every start event in the log carries the snapshot of the state the game was initialised to for
      the players in its seats. */
  ghost predicate StartShown(r: Room) {
    forall k :: 0 <= k < |r.log| && r.log[k].RoomStarted? ==>
      && r.game.minPlayers <= |r.seatOrder| && r.game.init(Cast(r)).Ok?
      && r.log[k].snapshot == Some(r.game.snapshot(r.game.init(Cast(r)).value))
  }

  lemma StartShownWaiting(r: Room, e: Timed, c: Promise)
    requires Lawful(r.game, c) && Inv(r, c) && r.lifecycle == Waiting
    ensures StartShown(r.Step(e))
  {
    NotStartedYet(r.log);
    var n := r.Step(e);
    if e.input.Join? && e.input.p !in r.players && |r.seatOrder| + 1 == r.game.minPlayers {
      TouchKeeps(r, e.now, c);
      LastSeatStarts(r.(lastActivity := e.now), e.input.p, c);
      StartingShows(r, e.input.p, e.now);
    } else {
      WaitingSaysNoStart(r, e);
    }
  }

  lemma {:induction false} NotStartedYet(log: seq<RoomEvent>)
    ensures !LogStarted(log) ==> forall k :: 0 <= k < |log| ==> !log[k].RoomStarted?
  {
    forall k | 0 <= k < |log| && log[k].RoomStarted? ensures LogStarted(log) {
      StartedStays(log, k);
    }
  }

  lemma StartingShows(r: Room, p: PlayerId, now: Time)
    requires r.lifecycle == Waiting && p !in r.players && |r.seatOrder| + 1 == r.game.minPlayers <= r.game.maxPlayers
    requires forall k :: 0 <= k < |r.log| ==> !r.log[k].RoomStarted?
    requires r.(lastActivity := now).Seat(p).Start().1.None?
    ensures StartShown(r.Step(At(now, Join(p))))
  {
    var seated := r.(lastActivity := now).Seat(p);
    assert seated.seatOrder[..r.game.minPlayers] == seated.seatOrder;
  }

  lemma WaitingSaysNoStart(r: Room, e: Timed)
    requires r.lifecycle == Waiting && 1 <= r.game.minPlayers && |r.seatOrder| < r.game.minPlayers
    requires forall k :: 0 <= k < |r.log| ==> !r.log[k].RoomStarted?
    requires e.input.Join? ==> e.input.p in r.players || |r.seatOrder| + 1 < r.game.minPlayers
    ensures StartShown(r.Step(e))
  {
  }

  /** The log goes on, without a start event. */
  ghost predicate GoesOn(log: seq<RoomEvent>, longer: seq<RoomEvent>) {
    log <= longer && forall k :: |log| <= k < |longer| ==> !longer[k].RoomStarted?
  }

  lemma MembersGoOn(r: Room, e: Timed)
    requires r.lifecycle != Waiting
    requires e.input.Join? || e.input.Leave? || e.input.Disconnect? || e.input.Reconnect?
    ensures GoesOn(r.log, r.Step(e).log)
  {
  }

  lemma GameGoesOn(r: Room, e: Timed)
    requires r.lifecycle != Waiting && (e.input.Submit? || e.input.Tick? || e.input.Fire?)
    ensures GoesOn(r.log, r.Step(e).log)
  {
  }

  lemma RestGoesOn(r: Room, e: Timed)
    requires e.input.ForceClose? || e.input.TakeSnapshot? || e.input.Poll?
    ensures GoesOn(r.log, r.Step(e).log)
  {
  }

  lemma LogGoesOn(r: Room, e: Timed)
    requires r.lifecycle != Waiting
    ensures GoesOn(r.log, r.Step(e).log)
  {
    if e.input.Join? || e.input.Leave? || e.input.Disconnect? || e.input.Reconnect? {
      MembersGoOn(r, e);
    } else if e.input.Submit? || e.input.Tick? || e.input.Fire? {
      GameGoesOn(r, e);
    } else {
      RestGoesOn(r, e);
    }
  }

  lemma StillShown(r: Room, n: Room)
    requires StartShown(r) && GoesOn(r.log, n.log) && r.seatOrder <= n.seatOrder && n.game == r.game
    ensures StartShown(n)
  {
    if r.game.minPlayers <= |r.seatOrder| {
      SameCast(r, n);
    }
  }

  lemma StartShownLater(r: Room, e: Timed)
    requires r.lifecycle != Waiting && StartShown(r)
    ensures StartShown(r.Step(e))
  {
    StepSlots(r, e);
    StepKeepsGame(r, e);
    LogGoesOn(r, e);
    StillShown(r, r.Step(e));
  }

  /** In the log of any run of a new room, the start event shows the state Init returned for the players
      in the seats the game was started with. */
  lemma StartIsShown(game: Game, grace: nat, start: Time, es: seq<Timed>, k: nat, c: Promise)
    requires Lawful(game, c) && k <= |es|
    ensures StartShown(After(NewRoom(game, grace, start), es, k))
  {
    var r := NewRoom(game, grace, start);
    FreshRoom(game, grace, start, c);
    var holds := (x: Room) => Inv(x, c) && x.game == game && StartShown(x);
    forall i | 0 <= i < k ensures Carries(r, es, i, holds) {
      if holds(After(r, es, i)) {
        StartShownNext(After(r, es, i), es[i], c);
      }
    }
    NothingShown(r);
    RunInduction(r, es, 0, k, holds);
  }

  lemma NothingShown(r: Room)
    requires r.log == []
    ensures StartShown(r)
  {
  }

  lemma StartShownNext(r: Room, e: Timed, c: Promise)
    requires Lawful(r.game, c) && Inv(r, c) && StartShown(r)
    ensures Inv(r.Step(e), c) && r.Step(e).game == r.game && StartShown(r.Step(e))
  {
    StepKeeps(r, e, c);
    StepKeepsGame(r, e);
    if r.lifecycle == Waiting {
      StartShownWaiting(r, e, c);
    } else {
      StartShownLater(r, e);
    }
  }

  // ----- from a reply to the present ----------------------------------------------------

  /** Coming back works: the snapshot and number in the answer to a reconnect, a repeated join or a
      snapshot request, patched with the diffs numbered above it, give the room's snapshot at any
      later point of the run. */
  lemma AnswerLeadsToThePresent(r: Room, es: seq<Timed>, i: nat, j: nat, c: Promise)
    requires Lawful(r.game, c) && Inv(r, c) && i < j <= |es|
    requires After(r, es, i).lifecycle != Closed && NamedGame(After(r, es, i + 1))
    requires es[i].input.Reconnect? || es[i].input.Join? || es[i].input.TakeSnapshot?
    requires Answer(After(r, es, i), es[i]).err.None?
    ensures var reply := Answer(After(r, es, i), es[i]);
            reply.snapshot.Some? && InSync(After(r, es, j), c, reply.snapshot.value, reply.serverSeq)
  {
    RunKeeps(r, es, i, c);
    AfterStep(r, es, i);
    AnswerIsUpToDate(After(r, es, i), es[i], c);
    DiffsLeadToSnapshots(r, es, i + 1, j, c);
  }

  lemma AnswerIsUpToDate(r: Room, e: Timed, c: Promise)
    requires Lawful(r.game, c) && Inv(r, c) && r.lifecycle != Closed && Answer(r, e).err.None?
    requires e.input.Reconnect? || e.input.Join? || e.input.TakeSnapshot?
    ensures UpToDate(Answer(r, e), r.Step(e))
  {
    match e.input
    case Reconnect(p) => ReconnectIsAnswered(r, p, e.now);
    case Join(p) => JoinIsAnswered(r, p, e.now, c);
    case TakeSnapshot => SnapshotIsAnswered(r, e.now);
  }
}
