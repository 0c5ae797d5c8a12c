/** What clients can rebuild from the broadcast stream, and how long the stream can get. */
module RoomReplay {
  import opened Prelude
  import opened Game
  import opened RoomModel
  import opened RoomInvariant
  import opened RoomRuns

  /** A client that holds snapshot `v`, numbered `m`, applies the diffs of the log numbered above `m`. */
  ghost function Replay(c: Promise, v: Snapshot, m: nat, log: seq<RoomEvent>): Snapshot {
    if log == [] then v
    else
      var before := Replay(c, v, m, log[..|log| - 1]);
      var e := log[|log| - 1];
      if e.StateDiff? && m < e.serverSeq then c.patch(before, e.diff) else before
  }

  /** Nothing in a log is numbered above its count of diffs, so there is nothing to apply. */
  lemma {:induction false} ReplayNothing(c: Promise, v: Snapshot, m: nat, log: seq<RoomEvent>)
    requires WellFormed(log) && DiffCount(log) <= m
    ensures Replay(c, v, m, log) == v
  {
    if log != [] {
      ReplayNothing(c, v, m, log[..|log| - 1]);
    }
  }

  /** A step of a room with a game publishes at most one event. Without a diff the state is the same;
      a diff names the winner of the new snapshot and leads to it from the old one. */
  ghost predicate Told(r: Room, n: Room, c: Promise) {
    && r.state.Some? && n.state.Some? && r.seatOrder <= n.seatOrder && n.game == r.game
    && (n.log == r.log || (|n.log| == |r.log| + 1 && n.log == r.log + [n.log[|r.log|]]))
    && if |n.log| == |r.log| || !n.log[|r.log|].StateDiff?
       then n.state == r.state && n.serverSeq == r.serverSeq
       else
         && n.serverSeq == r.serverSeq + 1 && n.log[|r.log|].serverSeq == n.serverSeq
         && NameOrNone(n.log[|r.log|].winner) == r.game.snapshot(n.state.value).Winner()
         && c.patch(r.game.snapshot(r.state.value), n.log[|r.log|].diff) == r.game.snapshot(n.state.value)
  }

  lemma ActionTold(r: Room, a: Action, now: Time, c: Promise)
    requires ActionLaw(r.game, c) && Playing(r, c) && Named(Cast(r))
    ensures Told(r, r.HandleAction(a, now).0, c)
  {
  }

  lemma TickTold(r: Room, now: Time, c: Promise)
    requires TickLaw(r.game, c) && Playing(r, c) && Named(Cast(r))
    ensures Told(r, r.HandleTick(now), c)
  {
  }

  lemma GraceTold(r: Room, p: PlayerId, generation: nat, now: Time, c: Promise)
    requires AbandonLaw(r.game, c) && Playing(r, c) && Named(Cast(r))
    requires r.lifecycle == Active ==> !r.game.isTerminal(r.state.value)
    ensures Told(r, r.HandleGraceExpired(p, generation, now), c)
  {
  }

  /** Seating and connection changes publish no diff. */
  lemma MembershipTold(r: Room, e: Timed, c: Promise)
    requires r.state.Some? && r.lifecycle != Waiting
    requires e.input.Join? || e.input.Leave? || e.input.Disconnect? || e.input.Reconnect?
    ensures Told(r, r.Step(e), c)
  {
  }

  lemma QuietTold(r: Room, e: Timed, c: Promise)
    requires r.state.Some? && (e.input.ForceClose? || e.input.TakeSnapshot? || e.input.Poll?)
    ensures Told(r, r.Step(e), c)
  {
  }

  lemma TimerTold(r: Room, t: Timer, now: Time, c: Promise)
    requires AbandonLaw(r.game, c) && Playing(r, c) && Named(Cast(r))
    requires r.lifecycle == Active ==> !r.game.isTerminal(r.state.value)
    ensures Told(r, r.Step(At(now, Fire(t))), c)
  {
    GraceTold(r.(lastActivity := now, timers := r.timers - multiset{t}), t.player, t.generation, now, c);
  }

  lemma CommandTold(r: Room, e: Timed, c: Promise)
    requires ActionLaw(r.game, c) && TickLaw(r.game, c) && AbandonLaw(r.game, c)
    requires Playing(r, c) && Named(Cast(r)) && r.lifecycle != Waiting
    requires r.lifecycle == Active ==> !r.game.isTerminal(r.state.value)
    ensures Told(r, r.Step(e), c)
  {
    match e.input {
      case Submit(a) => SubmitTold(r, a, e.now, c);
      case Fire(t) => TimerTold(r, t, e.now, c);
      case Tick => TickStepTold(r, e.now, c);
      case Join(_) => MembershipTold(r, e, c);
      case Leave(_) => MembershipTold(r, e, c);
      case Disconnect(_) => MembershipTold(r, e, c);
      case Reconnect(_) => MembershipTold(r, e, c);
      case _ => QuietTold(r, e, c);
    }
  }

  lemma SubmitTold(r: Room, a: Action, now: Time, c: Promise)
    requires ActionLaw(r.game, c) && Playing(r, c) && Named(Cast(r))
    ensures Told(r, r.Step(At(now, Submit(a))), c)
  {
    ActionTold(r.(lastActivity := now), a, now, c);
  }

  lemma TickStepTold(r: Room, now: Time, c: Promise)
    requires TickLaw(r.game, c) && Playing(r, c) && Named(Cast(r))
    ensures Told(r, r.Step(At(now, Tick)), c)
  {
    TickTold(r, now, c);
  }

  /** The client's view, started at `v` numbered `m`, is the room's snapshot. */
  ghost predicate InSync(r: Room, c: Promise, v: Snapshot, m: nat) {
    r.state.Some? && m <= r.serverSeq && Replay(c, v, m, r.log) == r.game.snapshot(r.state.value)
  }

  lemma ToldKeepsInSync(r: Room, n: Room, c: Promise, v: Snapshot, m: nat)
    requires Told(r, n, c) && InSync(r, c, v, m)
    ensures InSync(n, c, v, m)
  {
  }

  lemma PlayingOnce(r: Room, c: Promise)
    requires Inv(r, c) && r.state.Some?
    ensures Playing(r, c) && r.lifecycle != Waiting
    ensures r.lifecycle == Active ==> !r.game.isTerminal(r.state.value)
    ensures WellFormed(r.log) && r.serverSeq == DiffCount(r.log)
  {
  }

  lemma SameCast(r: Room, n: Room)
    requires r.game == n.game && r.game.minPlayers <= |r.seatOrder| && r.seatOrder <= n.seatOrder
    ensures Cast(n) == Cast(r)
  {
  }

  /** The game of a room is under way with players who all have non-empty IDs. */
  ghost predicate NamedGame(r: Room) {
    r.state.Some? && r.game.minPlayers <= |r.seatOrder| && Named(Cast(r))
  }

  lemma InSyncStep(r: Room, e: Timed, c: Promise, v: Snapshot, m: nat)
    requires Lawful(r.game, c) && Inv(r, c) && NamedGame(r) && InSync(r, c, v, m)
    ensures NamedGame(r.Step(e)) && InSync(r.Step(e), c, v, m)
  {
    PlayingOnce(r, c);
    CommandTold(r, e, c);
    SameCast(r, r.Step(e));
    ToldKeepsInSync(r, r.Step(e), c, v, m);
  }

  lemma InSyncAtFirst(r: Room, c: Promise)
    requires Inv(r, c) && r.state.Some?
    ensures InSync(r, c, r.game.snapshot(r.state.value), r.serverSeq)
  {
    PlayingOnce(r, c);
    ReplayNothing(c, r.game.snapshot(r.state.value), r.serverSeq, r.log);
  }

  /** The diff stream refines the snapshots: for any two points of any run of a room whose players
      have non-empty IDs, applying the diffs numbered m + 1 .. n to the snapshot numbered m gives
      exactly the snapshot numbered n. */
  lemma DiffsLeadToSnapshots(r: Room, es: seq<Timed>, i: nat, j: nat, c: Promise)
    requires Lawful(r.game, c) && Inv(r, c) && i <= j <= |es| && NamedGame(After(r, es, i))
    ensures var m := After(r, es, i);
            InSync(After(r, es, j), c, m.game.snapshot(m.state.value), m.serverSeq)
    ensures NamedGame(After(r, es, j))
  {
    var m := After(r, es, i);
    var v := m.game.snapshot(m.state.value);
    RunKeeps(r, es, i, c);
    InSyncAtFirst(m, c);
    var holds := (x: Room) => Following(x, r.game, c, v, m.serverSeq);
    forall k | i <= k < j ensures Carries(r, es, k, holds) {
      if Following(After(r, es, k), r.game, c, v, m.serverSeq) {
        FollowingNext(After(r, es, k), es[k], r.game, c, v, m.serverSeq);
      }
    }
    RunInduction(r, es, i, j, holds);
  }

  ghost predicate Following(r: Room, g: Game, c: Promise, v: Snapshot, m: nat) {
    Inv(r, c) && r.game == g && NamedGame(r) && InSync(r, c, v, m)
  }

  lemma FollowingNext(r: Room, e: Timed, g: Game, c: Promise, v: Snapshot, m: nat)
    requires Lawful(g, c) && Following(r, g, c, v, m)
    ensures Following(r.Step(e), g, c, v, m)
  {
    StepKeeps(r, e, c);
    StepKeepsGame(r, e);
    InSyncStep(r, e, c, v, m);
  }

  /** No room ever publishes more diffs than its game promises. */
  lemma DiffsAreBounded(r: Room, es: seq<Timed>, k: nat, c: Promise)
    requires Lawful(r.game, c) && Inv(r, c) && k <= |es|
    ensures After(r, es, k).serverSeq <= c.limit
  {
    RunKeeps(r, es, k, c);
  }
}
