/** Whole runs of a room: any inputs, in any order, at any times, for every lawful game. */
module RoomRuns {
  import opened Prelude
  import opened Game
  import opened RoomModel
  import opened RoomInvariant

  /** The room after the first `k` inputs. */
  ghost function After(r: Room, es: seq<Timed>, k: nat): Room
    requires k <= |es|
  {
    Exec(r, es[..k])
  }

  lemma AfterStep(r: Room, es: seq<Timed>, k: nat)
    requires k < |es|
    ensures After(r, es, k + 1) == After(r, es, k).Step(es[k])
  {
    assert es[..k + 1][..k] == es[..k];
  }

  lemma StepKeepsGame(r: Room, e: Timed)
    ensures r.Step(e).game == r.game && r.Step(e).grace == r.grace
  {
  }

  ghost predicate Carries(r: Room, es: seq<Timed>, k: nat, holds: Room -> bool)
    requires k < |es|
  {
    holds(After(r, es, k)) ==> holds(After(r, es, k).Step(es[k]))
  }

  lemma CarriedOver(r: Room, es: seq<Timed>, k: nat, holds: Room -> bool)
    requires k < |es| && holds(After(r, es, k)) && Carries(r, es, k, holds)
    ensures holds(After(r, es, k + 1))
  {
    AfterStep(r, es, k);
  }

  /** What every input of a stretch of a run keeps holds at its end. */
  lemma {:induction false} RunInduction(r: Room, es: seq<Timed>, i: nat, j: nat, holds: Room -> bool)
    requires i <= j <= |es| && holds(After(r, es, i))
    requires forall k :: i <= k < j ==> Carries(r, es, k, holds)
    ensures holds(After(r, es, j))
    decreases j
  {
    if i < j {
      RunInduction(r, es, i, j - 1, holds);
      CarriedOver(r, es, j - 1, holds);
    }
  }

  /** The invariant holds at every point of every run. */
  lemma RunKeeps(r: Room, es: seq<Timed>, k: nat, c: Promise)
    requires Lawful(r.game, c) && Inv(r, c) && k <= |es|
    ensures Inv(After(r, es, k), c) && After(r, es, k).game == r.game && After(r, es, k).grace == r.grace
  {
    var holds := (x: Room) => Inv(x, c) && x.game == r.game && x.grace == r.grace;
    forall i | 0 <= i < k ensures Carries(r, es, i, holds) {
      if holds(After(r, es, i)) {
        StepKeeps(After(r, es, i), es[i], c);
        StepKeepsGame(After(r, es, i), es[i]);
      }
    }
    RunInduction(r, es, 0, k, holds);
  }

  /** A new room: the game and the grace period it was given, and nothing else yet. */
  lemma NewRoomIsEmpty(game: Game, grace: nat, now: Time)
    ensures var r := NewRoom(game, grace, now);
            && r.game == game && r.grace == grace && r.lifecycle == Waiting && r.state.None?
            && r.seatOrder == [] && r.players == map[] && r.serverSeq == 0
            && r.lastActivity == now && r.finishedAt == 0 && r.log == [] && r.timers == multiset{}
  {
  }

  /** Whatever a room is sent, its game and its grace period stay the ones it was created with. */
  lemma ConfiguredForLife(game: Game, grace: nat, start: Time, es: seq<Timed>, k: nat)
    requires k <= |es|
    ensures var n := After(NewRoom(game, grace, start), es, k); n.game == game && n.grace == grace
  {
    var r := NewRoom(game, grace, start);
    var holds := (x: Room) => x.game == game && x.grace == grace;
    NewRoomIsEmpty(game, grace, start);
    forall i | 0 <= i < k ensures Carries(r, es, i, holds) {
      StepKeepsGame(After(r, es, i), es[i]);
    }
    RunInduction(r, es, 0, k, holds);
  }

  lemma FreshRoom(game: Game, grace: nat, now: Time, c: Promise)
    requires Lawful(game, c)
    ensures Inv(NewRoom(game, grace, now), c)
  {
  }

  // ----- what a step may change ---------------------------------------------------------

  /** Once the game has started nobody loses their seat, and connection epochs and applied
      sequence numbers never go back. */
  ghost predicate SlotsOnward(r: Room, n: Room) {
    r.lifecycle != Waiting ==>
      && r.seatOrder <= n.seatOrder
      && (forall p | p in r.players ::
            && p in n.players
            && r.players[p].Epoch() <= n.players[p].Epoch()
            && r.players[p].lastAppliedSeq <= n.players[p].lastAppliedSeq)
  }

  ghost predicate OverIsFrozen(r: Room, n: Room) {
    r.lifecycle.Rank() >= Finished.Rank() ==>
      n.finishedAt == r.finishedAt && n.state == r.state && n.serverSeq == r.serverSeq
  }

  ghost predicate Onward(r: Room, n: Room) {
    r.lifecycle.Rank() <= n.lifecycle.Rank() && SlotsOnward(r, n) && OverIsFrozen(r, n)
  }

  lemma SameSlots(r: Room, n: Room)
    requires n.seatOrder == r.seatOrder && n.players == r.players
    ensures SlotsOnward(r, n)
  {
  }

  lemma JoinSlots(r: Room, p: PlayerId, now: Time)
    ensures SlotsOnward(r, r.(lastActivity := now).HandleJoin(p).0)
  {
  }

  lemma DisconnectSlots(r: Room, p: PlayerId, now: Time)
    ensures SlotsOnward(r, r.(lastActivity := now).HandleDisconnect(p, now).0)
    ensures SlotsOnward(r, r.(lastActivity := now).HandleLeave(p, now).0)
  {
  }

  lemma ReconnectSlots(r: Room, p: PlayerId, now: Time)
    ensures SlotsOnward(r, r.(lastActivity := now).HandleReconnect(p).0)
  {
  }

  lemma ActionSlots(r: Room, a: Action, now: Time)
    ensures SlotsOnward(r, r.(lastActivity := now).HandleAction(a, now).0)
  {
  }

  lemma StepSlots(r: Room, e: Timed)
    ensures SlotsOnward(r, r.Step(e))
  {
    var n := r.(lastActivity := e.now);
    SameSlots(r, r.HandleTick(e.now));
    SameSlots(r, r);
    match e.input {
      case Join(p) => JoinSlots(r, p, e.now);
      case Leave(p) => DisconnectSlots(r, p, e.now);
      case Submit(a) => ActionSlots(r, a, e.now);
      case Disconnect(p) => DisconnectSlots(r, p, e.now);
      case Reconnect(p) => ReconnectSlots(r, p, e.now);
      case Fire(t) =>
        SameSlots(r, n.(timers := n.timers - multiset{t}).HandleGraceExpired(t.player, t.generation, e.now));
      case ForceClose => SameSlots(r, n.HandleForceClose().0);
      case _ => SameSlots(r, n);
    }
    Dispatch(r, e, x => SlotsOnward(r, x));
  }

  lemma StepRank(r: Room, e: Timed)
    ensures r.lifecycle.Rank() <= r.Step(e).lifecycle.Rank() && OverIsFrozen(r, r.Step(e))
  {
  }

  lemma StepOnward(r: Room, e: Timed)
    ensures Onward(r, r.Step(e))
  {
    StepSlots(r, e);
    StepRank(r, e);
  }

  lemma OnwardTransitive(a: Room, b: Room, d: Room)
    requires Onward(a, b) && Onward(b, d)
    ensures Onward(a, d)
  {
  }

  lemma OnwardNext(a: Room, b: Room, e: Timed)
    requires Onward(a, b)
    ensures Onward(a, b.Step(e))
  {
    StepOnward(b, e);
    OnwardTransitive(a, b, b.Step(e));
  }

  /** Over any stretch of any run: the lifecycle never moves back, and from the start of the
      game on seats, epochs and applied numbers only grow; a finished game is frozen. */
  lemma RunOnward(r: Room, es: seq<Timed>, i: nat, j: nat)
    requires i <= j <= |es|
    ensures Onward(After(r, es, i), After(r, es, j))
  {
    var before := After(r, es, i);
    var holds := (x: Room) => Onward(before, x);
    forall k | i <= k < j ensures Carries(r, es, k, holds) {
      if Onward(before, After(r, es, k)) {
        OnwardNext(before, After(r, es, k), es[k]);
      }
    }
    RunInduction(r, es, i, j, holds);
  }

  // ----- forfeits -----------------------------------------------------------------------

  /** Input `e` disconnects a connected player of a running game, and timer `t` is set for it. */
  ghost predicate Drops(r: Room, e: Timed, t: Timer) {
    && r.lifecycle == Active
    && (e.input == Disconnect(t.player) || e.input == Leave(t.player))
    && t.player in r.players && r.players[t.player].connected
    && t.generation == r.players[t.player].generation + 1
    && t.deadline == e.now + r.grace
  }

  lemma OtherInputsSetNoTimer(r: Room, e: Timed)
    requires !e.input.Disconnect? && !e.input.Leave?
    ensures r.Step(e).timers <= r.timers
  {
  }

  lemma NewTimersComeFromDrops(r: Room, e: Timed, t: Timer)
    requires t in r.Step(e).timers
    ensures t in r.timers || Drops(r, e, t)
  {
    if !e.input.Disconnect? && !e.input.Leave? {
      OtherInputsSetNoTimer(r, e);
    }
  }

  ghost predicate Offline(r: Room, p: PlayerId) {
    p in r.players && !r.players[p].connected
  }

  lemma DropDisconnects(r: Room, e: Timed, t: Timer)
    requires Drops(r, e, t)
    ensures var n := r.Step(e);
            && n.lifecycle == Active && Offline(n, t.player) && n.players[t.player].generation == t.generation
            && t in n.timers
  {
  }

  lemma {:induction false} TimerSource(r: Room, es: seq<Timed>, k: nat, t: Timer) returns (i: nat)
    requires r.timers == multiset{} && k <= |es| && t in After(r, es, k).timers
    ensures i < k && Drops(After(r, es, i), es[i], t)
    decreases k
  {
    assert k > 0;
    AfterStep(r, es, k - 1);
    NewTimersComeFromDrops(After(r, es, k - 1), es[k - 1], t);
    if Drops(After(r, es, k - 1), es[k - 1], t) {
      i := k - 1;
    } else {
      i := TimerSource(r, es, k - 1, t);
    }
  }

  /** Every pending timer was set by a disconnect during the game, and its deadline is the
      configured grace period later. */
  lemma TimerOrigin(game: Game, grace: nat, start: Time, es: seq<Timed>, k: nat, t: Timer) returns (i: nat)
    requires k <= |es| && t in After(NewRoom(game, grace, start), es, k).timers
    ensures i < k && Drops(After(NewRoom(game, grace, start), es, i), es[i], t)
    ensures t.deadline == es[i].now + grace
  {
    NewRoomIsEmpty(game, grace, start);
    i := TimerSource(NewRoom(game, grace, start), es, k, t);
    ConfiguredForLife(game, grace, start, es, i);
  }

  /** Same epoch before and after, hence the same in between: even means disconnected. */
  lemma EpochBetween(before: Room, r: Room, after: Room, p: PlayerId)
    requires Onward(before, r) && Onward(r, after)
    requires before.lifecycle != Waiting && Offline(before, p) && Offline(after, p)
    requires before.players[p].generation == after.players[p].generation
    ensures Offline(r, p)
  {
  }

  lemma OfflineThroughout(r: Room, es: seq<Timed>, i: nat, k: nat, j: nat, t: Timer)
    requires i < k <= j <= |es| && Drops(After(r, es, i), es[i], t) && Current(After(r, es, j), t)
    ensures Offline(After(r, es, k), t.player)
  {
    AfterStep(r, es, i);
    DropDisconnects(After(r, es, i), es[i], t);
    RunOnward(r, es, i + 1, k);
    RunOnward(r, es, k, j);
    EpochBetween(After(r, es, i + 1), After(r, es, k), After(r, es, j), t.player);
  }

  lemma OnlyCurrentTimersFinish(r: Room, e: Timed)
    requires r.lifecycle == Active && e.input.Fire? && r.Step(e).lifecycle != Active
    ensures Current(r, e.input.t) && r.Due(e.input.t, e.now)
  {
  }

  lemma ForfeitSource(r: Room, es: seq<Timed>, j: nat) returns (i: nat)
    requires r.timers == multiset{} && j < |es|
    requires After(r, es, j).lifecycle == Active && es[j].input.Fire? && After(r, es, j + 1).lifecycle != Active
    ensures i < j && Drops(After(r, es, i), es[i], es[j].input.t) && es[j].input.t.deadline <= es[j].now
    ensures forall k :: i < k <= j ==> Offline(After(r, es, k), es[j].input.t.player)
  {
    var t := es[j].input.t;
    AfterStep(r, es, j);
    OnlyCurrentTimersFinish(After(r, es, j), es[j]);
    i := TimerSource(r, es, j, t);
    forall k | i < k <= j ensures Offline(After(r, es, k), t.player) {
      OfflineThroughout(r, es, i, k, j, t);
    }
  }

  /** Forfeit soundness: whatever the interleaving, a room is finished by abandonment of `p`
      only if `p` has been offline without interruption since a disconnect that happened while
      the game was running, at least the configured grace period ago. No stale timer forfeits anybody. */
  lemma ForfeitIsEarned(game: Game, grace: nat, start: Time, es: seq<Timed>, j: nat) returns (i: nat)
    requires j < |es| && es[j].input.Fire?
    requires var r := NewRoom(game, grace, start);
             After(r, es, j).lifecycle == Active && After(r, es, j + 1).lifecycle != Active
    ensures i < j && Drops(After(NewRoom(game, grace, start), es, i), es[i], es[j].input.t)
    ensures es[i].now + grace <= es[j].now
    ensures forall k :: i < k <= j ==> Offline(After(NewRoom(game, grace, start), es, k), es[j].input.t.player)
  {
    NewRoomIsEmpty(game, grace, start);
    i := ForfeitSource(NewRoom(game, grace, start), es, j);
    ConfiguredForLife(game, grace, start, es, i);
  }

  lemma FireEndsIff(r: Room, t: Timer, now: Time, c: Promise)
    requires AbandonLaw(r.game, c) && r.lifecycle == Active && Playing(r, c) && !r.game.isTerminal(r.state.value)
    requires r.Due(t, now)
    ensures r.Step(At(now, Fire(t))).lifecycle == Finished <==> Current(r, t) && t.player in Cast(r)
  {
    AbandonedLoses(r.game, c, Cast(r), r.state.value, t.player);
  }

  /** Delivering a due timer ends the game exactly when it is the current one of a player who is
      in the game; seats beyond MinPlayers were taken after the start and are not. */
  lemma FireFinishesIff(r: Room, t: Timer, now: Time, c: Promise)
    requires Lawful(r.game, c) && Inv(r, c) && r.lifecycle == Active && r.Due(t, now)
    ensures var n := r.Step(At(now, Fire(t)));
            n.lifecycle == Finished <==> Current(r, t) && r.players[t.player].seat < r.game.minPlayers
  {
    FireEndsIff(r, t, now, c);
    if Current(r, t) {
      SeatsInTheGame(r, t.player);
    }
  }

  /** The published verdict on the player of timer `t`: they lost to somebody else in the game. */
  ghost predicate Forfeits(r: Room, n: Room, p: PlayerId)
    requires r.game.minPlayers <= |r.seatOrder|
  {
    && n.lifecycle == Finished && |n.log| == |r.log| + 1
    && var e := n.log[|r.log|];
    && e.StateDiff? && e.terminal && e.subject == p
    && e.winner.Some? && e.winner.value in Cast(r) && e.winner.value != p
  }

  /** No disconnected player is forgotten: in every reachable running room a player who dropped
      out of the game and is not back has exactly one pending timer of their current generation,
      all their other timers are older, and delivering it at any time makes them lose. */
  lemma NobodyIsForgotten(r: Room, es: seq<Timed>, k: nat, p: PlayerId, c: Promise) returns (t: Timer)
    requires Lawful(r.game, c) && Inv(r, c) && k <= |es| && OnNotice(After(r, es, k), p)
    ensures var n := After(r, es, k);
            && t in n.timers && n.timers[t] == 1 && t.player == p && t.generation == n.players[p].generation
            && (forall u :: u in n.timers && u.player == p && u != t ==> u.generation < t.generation)
            && n.game.minPlayers <= |n.seatOrder|
            && (forall now :: t.deadline <= now ==> Forfeits(n, n.Step(At(now, Fire(t))), p))
  {
    RunKeeps(r, es, k, c);
    var n := After(r, es, k);
    t :| t in n.timers && t.player == p && t.generation == n.players[p].generation;
    forall now: Time | t.deadline <= now ensures Forfeits(n, n.Step(At(now, Fire(t))), p) {
      DeliveryForfeits(n, t, now, c);
    }
  }

  lemma DeliveryForfeits(r: Room, t: Timer, now: Time, c: Promise)
    requires Lawful(r.game, c) && Inv(r, c) && r.Due(t, now) && Current(r, t) && OnNotice(r, t.player)
    ensures r.game.minPlayers <= |r.seatOrder| && Forfeits(r, r.Step(At(now, Fire(t))), t.player)
  {
    SeatsInTheGame(r, t.player);
    AbandonedLoses(r.game, c, Cast(r), r.state.value, t.player);
    VerdictForfeits(r, t, now);
  }

  lemma VerdictForfeits(r: Room, t: Timer, now: Time)
    requires r.lifecycle == Active && r.state.Some? && r.game.minPlayers <= |r.seatOrder|
    requires r.Due(t, now) && Current(r, t) && r.game.onPlayerAbandoned(r.state.value, t.player).Ok?
    requires LostBy(t.player, Cast(r), r.game.onPlayerAbandoned(r.state.value, t.player).value)
    ensures Forfeits(r, r.Step(At(now, Fire(t))), t.player)
  {
  }

  // ----- offline since before the start -------------------------------------------------

  /** Not everybody who is offline has a timer: somebody in the game who is offline has one of their
      current generation exactly if they dropped out after the game had started. */
  lemma TimerIffDroppedLive(r: Room, es: seq<Timed>, k: nat, p: PlayerId, c: Promise)
    requires Lawful(r.game, c) && Inv(r, c) && k <= |es|
    requires After(r, es, k).lifecycle == Active && Offline(After(r, es, k), p)
    requires After(r, es, k).players[p].seat < r.game.minPlayers
    ensures var n := After(r, es, k);
            HasTimer(n, p, n.players[p].generation) <==> DroppedLive(n.log, p)
  {
    RunKeeps(r, es, k, c);
    TimerMeansDroppedLive(After(r, es, k), p);
  }

  lemma TimerMeansDroppedLive(r: Room, p: PlayerId)
    requires Watched(r) && r.lifecycle == Active && Offline(r, p) && r.players[p].seat < r.game.minPlayers
    ensures HasTimer(r, p, r.players[p].generation) <==> DroppedLive(r.log, p)
  {
  }

  /** Offline during the game, since before it. */
  ghost predicate Overlooked(r: Room, p: PlayerId) {
    r.lifecycle != Waiting && Offline(r, p) && !DroppedLive(r.log, p)
  }

  /** The game goes on, or is over, without a word about `p`, who stays offline. */
  ghost predicate SilentOn(r: Room, n: Room, p: PlayerId) {
    && n.lifecycle != Waiting && Offline(n, p)
    && (n.log == r.log || (exists e :: n.log == r.log + [e] && !About(e, p)))
  }

  lemma SaysNothing(r: Room, n: Room, p: PlayerId, e: RoomEvent)
    requires n.lifecycle != Waiting && Offline(n, p)
    requires n.log == r.log || (n.log == r.log + [e] && !About(e, p))
    ensures SilentOn(r, n, p)
  {
  }

  lemma MembersSaySilent(r: Room, e: Timed, p: PlayerId)
    requires r.lifecycle != Waiting && Offline(r, p) && e.input != Reconnect(p)
    requires e.input.Join? || e.input.Leave? || e.input.Disconnect? || e.input.Reconnect?
    ensures SilentOn(r, r.Step(e), p)
  {
    var n, q := r.Step(e), e.input.p;
    var said := match e.input
      case Join(_) => PlayerJoined(r.serverSeq, q)
      case Reconnect(_) => PlayerReconnected(r.serverSeq, q)
      case _ => PlayerDisconnected(r.serverSeq, q);
    SaysNothing(r, n, p, said);
  }

  lemma GameSaysSilent(r: Room, e: Timed, p: PlayerId)
    requires r.lifecycle != Waiting && Offline(r, p) && (e.input.Submit? || e.input.Tick? || e.input.Fire?)
    ensures SilentOn(r, r.Step(e), p)
  {
    var n := r.Step(e);
    if n.log != r.log {
      SaysNothing(r, n, p, n.log[|r.log|]);
    }
  }

  lemma RestSaysSilent(r: Room, e: Timed, p: PlayerId)
    requires r.lifecycle != Waiting && Offline(r, p) && (e.input.ForceClose? || e.input.TakeSnapshot? || e.input.Poll?)
    ensures SilentOn(r, r.Step(e), p)
  {
    SaysNothing(r, r.Step(e), p, RoomClosed(r.serverSeq));
  }

  lemma StaysOverlooked(r: Room, e: Timed, p: PlayerId)
    requires Overlooked(r, p) && e.input != Reconnect(p)
    ensures Overlooked(r.Step(e), p)
  {
    if e.input.Join? || e.input.Leave? || e.input.Disconnect? || e.input.Reconnect? {
      MembersSaySilent(r, e, p);
    } else if e.input.Submit? || e.input.Tick? || e.input.Fire? {
      GameSaysSilent(r, e, p);
    } else {
      RestSaysSilent(r, e, p);
    }
    SilenceDropsNobody(r, r.Step(e), p);
  }

  lemma SilenceDropsNobody(r: Room, n: Room, p: PlayerId)
    requires Overlooked(r, p) && SilentOn(r, n, p)
    ensures Overlooked(n, p)
  {
    if n.log != r.log {
      var e :| n.log == r.log + [e] && !About(e, p);
      LogGrowsFor(r.log, e);
    }
  }

  /** Somebody who is offline since before the start is waited for without end: until they are back,
      no timer ever finishes the game against them. */
  lemma OverlookedAreNeverForfeited(r: Room, es: seq<Timed>, i: nat, j: nat, p: PlayerId, c: Promise)
    requires Lawful(r.game, c) && Inv(r, c) && i <= j < |es| && Overlooked(After(r, es, i), p)
    requires forall k :: i <= k < j ==> es[k].input != Reconnect(p)
    requires After(r, es, j).lifecycle == Active && es[j].input.Fire? && After(r, es, j + 1).lifecycle != Active
    ensures es[j].input.t.player != p
  {
    var holds := (x: Room) => Overlooked(x, p);
    forall k | i <= k < j ensures Carries(r, es, k, holds) {
      if Overlooked(After(r, es, k), p) {
        StaysOverlooked(After(r, es, k), es[k], p);
      }
    }
    RunInduction(r, es, i, j, holds);
    RunKeeps(r, es, j, c);
    AfterStep(r, es, j);
    OnlyCurrentTimersFinish(After(r, es, j), es[j]);
    NotCurrentIfOverlooked(After(r, es, j), es[j].input.t);
  }

  lemma NotCurrentIfOverlooked(r: Room, t: Timer)
    requires Issued(r) && t in r.timers && Current(r, t)
    ensures !Overlooked(r, t.player)
  {
  }

  // ----- at-most-once actions -----------------------------------------------------------

  /** The room applies the action submitted by `e`. */
  ghost predicate Applies(r: Room, e: Timed) {
    e.input.Submit? && r.Step(e).serverSeq == r.serverSeq + 1
  }

  lemma AppliedIsNoted(r: Room, e: Timed)
    requires Applies(r, e)
    ensures var p := e.input.a.player;
            && r.lifecycle == Active && p in r.players
            && p in r.Step(e).players && r.Step(e).players[p].lastAppliedSeq == e.input.a.seqNo
            && (r.players[p].lastAppliedSeq == 0 || r.players[p].lastAppliedSeq < e.input.a.seqNo)
  {
  }

  /** At-most-once: of two actions a player gets applied in one run, the later has the larger
      number, and this fails exactly when both carry the number 0. So no positive number is
      applied twice, whatever is retried, reordered or mixed with disconnects. */
  lemma AppliedSeqsIncrease(r: Room, es: seq<Timed>, i: nat, j: nat)
    requires i < j < |es| && Applies(After(r, es, i), es[i]) && Applies(After(r, es, j), es[j])
    requires es[i].input.a.player == es[j].input.a.player
    ensures es[i].input.a.seqNo < es[j].input.a.seqNo <==> !(es[i].input.a.seqNo == 0 && es[j].input.a.seqNo == 0)
  {
    AfterStep(r, es, i);
    AppliedIsNoted(After(r, es, i), es[i]);
    RunOnward(r, es, i, i + 1);
    RunOnward(r, es, i + 1, j);
    AppliedIsNoted(After(r, es, j), es[j]);
  }

  // ----- the broadcast log --------------------------------------------------------------

  /** Numbering: a diff carries its ordinal among the diffs, anything else the number of diffs so far. */
  lemma {:induction false} EventNumbers(log: seq<RoomEvent>, i: nat)
    requires WellFormed(log) && i < |log|
    ensures log[i].serverSeq == DiffCount(log[..i + 1]) && WellFormed(log[..i])
  {
    if i < |log| - 1 {
      var pre := log[..|log| - 1];
      EventNumbers(pre, i);
      assert pre[..i + 1] == log[..i + 1] && pre[..i] == log[..i];
    } else {
      assert log[..i + 1] == log;
    }
  }

  lemma {:induction false} EndedStays(log: seq<RoomEvent>, i: nat)
    requires i < |log| && log[i].StateDiff? && log[i].terminal
    ensures LogEnded(log)
  {
    if i < |log| - 1 {
      assert log[..|log| - 1][i] == log[i];
      EndedStays(log[..|log| - 1], i);
    }
  }

  /** At most one diff is terminal, and no diff follows it. */
  lemma TerminalDiffIsLast(log: seq<RoomEvent>, i: nat, j: nat)
    requires WellFormed(log) && i < j < |log| && log[i].StateDiff? && log[i].terminal
    ensures !log[j].StateDiff?
  {
    EventFollows(log, j);
    EndedStays(log[..j], i);
  }

  lemma {:induction false} EventFollows(log: seq<RoomEvent>, j: nat)
    requires WellFormed(log) && j < |log|
    ensures Follows(log[..j], log[j])
  {
    if j < |log| - 1 {
      var pre := log[..|log| - 1];
      EventFollows(pre, j);
      assert pre[..j] == log[..j];
    }
  }

  lemma EventsAlternate(log: seq<RoomEvent>, i: nat, j: nat, p: PlayerId)
    requires WellFormed(log) && i < j < |log|
    requires (log[i].PlayerDisconnected? && log[j].PlayerDisconnected?)
             || (log[i].PlayerReconnected? && log[j].PlayerReconnected?)
    requires About(log[i], p) && About(log[j], p)
    ensures exists k :: i < k < j && About(log[k], p) && (log[k].PlayerDisconnected? <==> !log[i].PlayerDisconnected?)
  {
    EventFollows(log, j);
    LastWord(log[..j], i, p);
  }

  /** In the log of any run, between two disconnects of a player there is a reconnect or a fresh join,
      and between two reconnects there is a disconnect. */
  lemma ConnectionEventsAlternate(r: Room, es: seq<Timed>, n: nat, i: nat, j: nat, p: PlayerId, c: Promise)
    requires Lawful(r.game, c) && Inv(r, c) && n <= |es|
    requires var log := After(r, es, n).log;
             && i < j < |log| && About(log[i], p) && About(log[j], p)
             && ((log[i].PlayerDisconnected? && log[j].PlayerDisconnected?)
                 || (log[i].PlayerReconnected? && log[j].PlayerReconnected?))
    ensures var log := After(r, es, n).log;
            exists k :: i < k < j && About(log[k], p) && (log[k].PlayerDisconnected? <==> !log[i].PlayerDisconnected?)
  {
    RunKeeps(r, es, n, c);
    EventsAlternate(After(r, es, n).log, i, j, p);
  }

  /** If the log's last word on `p` differs from that of event `i`, something in between changed it. */
  lemma {:induction false} LastWord(log: seq<RoomEvent>, i: nat, p: PlayerId)
    requires i < |log| && About(log[i], p) && LogConnected(log, p) == log[i].PlayerDisconnected?
    ensures exists k :: i < k < |log| && About(log[k], p)
                        && (log[k].PlayerDisconnected? <==> !log[i].PlayerDisconnected?)
  {
    var last := |log| - 1;
    if About(log[last], p) {
      assert last != i;
    } else {
      var pre := log[..last];
      assert pre[i] == log[i];
      LastWord(pre, i, p);
      var k :| i < k < |pre| && About(pre[k], p) && (pre[k].PlayerDisconnected? <==> !pre[i].PlayerDisconnected?);
      assert log[k] == pre[k];
    }
  }

  /** The log of any run tells the room's counters: the number of diffs is serverSeq, the i-th diff
      carries number i and every other event the number so far, no diff follows the terminal one,
      the game is started at most once, and for everybody seated the last word is their connection and the
      disconnects since they joined are their generation. */
  lemma LogTellsCounters(r: Room, es: seq<Timed>, k: nat, c: Promise)
    requires Lawful(r.game, c) && Inv(r, c) && k <= |es|
    ensures var n := After(r, es, k);
            && n.serverSeq == DiffCount(n.log)
            && (forall i :: 0 <= i < |n.log| ==> n.log[i].serverSeq == DiffCount(n.log[..i + 1]))
            && (forall i, j :: 0 <= i < j < |n.log| && n.log[i].StateDiff? && n.log[i].terminal ==> !n.log[j].StateDiff?)
            && (forall i, j :: 0 <= i < j < |n.log| && n.log[i].RoomStarted? ==> !n.log[j].RoomStarted?)
            && (forall p :: p in n.players ==>
                  n.players[p].connected == LogConnected(n.log, p) && n.players[p].generation == LogGeneration(n.log, p))
  {
    RunKeeps(r, es, k, c);
    LogShape(After(r, es, k).log);
  }

  lemma LogShape(log: seq<RoomEvent>)
    requires WellFormed(log)
    ensures forall i :: 0 <= i < |log| ==> log[i].serverSeq == DiffCount(log[..i + 1])
    ensures forall i, j :: 0 <= i < j < |log| && log[i].StateDiff? && log[i].terminal ==> !log[j].StateDiff?
    ensures forall i, j :: 0 <= i < j < |log| && log[i].RoomStarted? ==> !log[j].RoomStarted?
  {
    forall i | 0 <= i < |log| ensures log[i].serverSeq == DiffCount(log[..i + 1]) {
      EventNumbers(log, i);
    }
    forall i, j | 0 <= i < j < |log| && log[i].StateDiff? && log[i].terminal ensures !log[j].StateDiff? {
      TerminalDiffIsLast(log, i, j);
    }
    forall i, j | 0 <= i < j < |log| && log[i].RoomStarted? ensures !log[j].RoomStarted? {
      EventFollows(log, j);
      StartedStays(log[..j], i);
    }
  }

  lemma {:induction false} StartedStays(log: seq<RoomEvent>, i: nat)
    requires i < |log| && log[i].RoomStarted?
    ensures LogStarted(log)
  {
    if i < |log| - 1 {
      assert log[..|log| - 1][i] == log[i];
      StartedStays(log[..|log| - 1], i);
    }
  }

  /** Lifecycle and game state at any point of any run: no game while Waiting, a live one while
      Active, one that is over while Finished; and the log has a terminal diff exactly when the
      game is over. */
  lemma LifecycleMatchesGame(r: Room, es: seq<Timed>, k: nat, c: Promise)
    requires Lawful(r.game, c) && Inv(r, c) && k <= |es|
    ensures var n := After(r, es, k);
            && (n.lifecycle == Waiting ==> n.state.None? && |n.seatOrder| < n.game.minPlayers)
            && (n.lifecycle == Active ==> n.state.Some? && !n.game.isTerminal(n.state.value))
            && (n.lifecycle == Finished ==> n.state.Some? && n.game.isTerminal(n.state.value))
            && (LogEnded(n.log) <==> n.state.Some? && n.game.isTerminal(n.state.value))
            && (LogStarted(n.log) <==> n.state.Some?)
  {
    RunKeeps(r, es, k, c);
  }

  /** Seats at any point of any run: nobody sits twice, the seat list and the slots name the same
      players, every slot knows its place in the list, and there are at most MaxPlayers. */
  lemma SeatsAreABijection(r: Room, es: seq<Timed>, k: nat, c: Promise)
    requires Lawful(r.game, c) && Inv(r, c) && k <= |es|
    ensures var n := After(r, es, k);
            && NoDuplicates(n.seatOrder) && |n.seatOrder| <= n.game.maxPlayers
            && (forall p :: p in n.players <==> p in n.seatOrder)
            && (forall i :: 0 <= i < |n.seatOrder| ==> n.players[n.seatOrder[i]].seat == i)
  {
    RunKeeps(r, es, k, c);
    var n := After(r, es, k);
    assert Bijection(n.seatOrder, n.players);
  }

  ghost predicate EndsWithTerminalDiff(r: Room, n: Room) {
    |n.log| == |r.log| + 1 && n.log[|r.log|].StateDiff? && n.log[|r.log|].terminal
  }

  ghost predicate Finishes(r: Room, n: Room) {
    r.lifecycle == Active && n.lifecycle == Finished
  }

  /** The terminal diff is published exactly by the step that finishes the room, at the time that
      is recorded as the finish. */
  lemma FinishesWithTerminalDiff(r: Room, e: Timed)
    ensures Finishes(r, r.Step(e)) <==> EndsWithTerminalDiff(r, r.Step(e))
    ensures Finishes(r, r.Step(e)) ==> r.Step(e).finishedAt == e.now
  {
    Dispatch(r, e, (x: Room) => Finishes(r, x) <==> EndsWithTerminalDiff(r, x));
    Dispatch(r, e, (x: Room) => Finishes(r, x) ==> x.finishedAt == e.now);
  }

  /** When an action is applied: exactly when the room is Active, the player is seated and connected,
      the number is new, and the game finds the move legal; otherwise nothing but the activity
      clock changes. What Validate lets through is never lost in ApplyAction. */
  lemma ActionAppliesIff(r: Room, a: Action, now: Time, c: Promise)
    requires Lawful(r.game, c) && Inv(r, c)
    ensures var e := At(now, Submit(a));
            && (Applies(r, e) <==>
                  && r.lifecycle == Active && a.player in r.players && r.players[a.player].connected
                  && (r.players[a.player].lastAppliedSeq == 0 || r.players[a.player].lastAppliedSeq < a.seqNo)
                  && r.game.validate(r.state.value, a).None?)
            && (!Applies(r, e) ==> r.Step(e) == if r.lifecycle == Closed then r else r.(lastActivity := now))
  {
    if r.lifecycle == Active {
      assert c.reach(Cast(r), r.state.value);
      assert r.game.validate(r.state.value, a).None? <==> r.game.applyAction(r.state.value, a).Ok?;
    }
  }
}
