/** Reflex duels as rooms play them: which calls a room makes on the game, that its state is the duel
    those calls lead to, and what this says about buzzes and ticks of whole runs. */
module RoomDuels {
  import opened Prelude
  import opened Game
  import opened RoomModel
  import opened RoomInvariant
  import opened RoomRuns
  import opened Buzzer

  /** The calls one input makes a room issue to a duel: every tick of a running duel, every action that
      is applied, and the grace timer that ends it. */
  ghost function Calls(r: Room, e: Timed): seq<Event> {
    if r.lifecycle != Active then []
    else match e.input
      case Tick => [TickAt(e.now)]
      case Submit(a) => if Applies(r, e) then [Buzz(a.player)] else []
      case Fire(t) => if r.Step(e).lifecycle == Finished then [Quit(t.player)] else []
      case _ => []
  }

  /** All the calls of a run, in order. */
  ghost function History(r: Room, es: seq<Timed>): seq<Event>
    decreases |es|
  {
    if es == [] then []
    else History(r, es[..|es| - 1]) + Calls(Exec(r, es[..|es| - 1]), es[|es| - 1])
  }

  /** The duel a room starts with, between the players in its two seats. */
  function Dealt(ps: seq<PlayerId>): DuelState
    requires |ps| == 2
  {
    DuelState(ps[0], ps[1], DEFAULT_ARM_DELAY, 0, Countdown, false, None, "")
  }

  // ----- one input ----------------------------------------------------------------------

  ghost predicate Dueling(r: Room, d: DuelState) {
    r.game == GAME && r.state == Some(Duel(d)) && r.lifecycle != Waiting && (r.lifecycle == Active ==> !d.done)
  }

  lemma PlayOne(d: DuelState, e: Event)
    ensures Play(d, [e]) == Buzzer.Step(d, e)
  {
  }

  lemma TickPlays(r: Room, now: Time, d: DuelState)
    requires Dueling(r, d)
    ensures r.Step(At(now, Tick)).state == Some(Duel(Play(d, Calls(r, At(now, Tick)))))
  {
    PlayOne(d, TickAt(now));
  }

  lemma SubmitPlays(r: Room, a: Action, now: Time, d: DuelState)
    requires Dueling(r, d)
    ensures r.Step(At(now, Submit(a))).state == Some(Duel(Play(d, Calls(r, At(now, Submit(a))))))
  {
    PlayOne(d, Buzz(a.player));
  }

  lemma FirePlays(r: Room, t: Timer, now: Time, d: DuelState)
    requires Dueling(r, d)
    ensures r.Step(At(now, Fire(t))).state == Some(Duel(Play(d, Calls(r, At(now, Fire(t))))))
  {
    PlayOne(d, Quit(t.player));
  }

  lemma OthersPlayNothing(r: Room, e: Timed)
    requires r.lifecycle != Waiting && !e.input.Tick? && !e.input.Submit? && !e.input.Fire?
    ensures r.Step(e).state == r.state
  {
  }

  /** An input moves the duel by exactly the calls it makes. */
  lemma StepPlays(r: Room, e: Timed, d: DuelState)
    requires Dueling(r, d)
    ensures r.Step(e).state == Some(Duel(Play(d, Calls(r, e))))
  {
    match e.input {
      case Tick => TickPlays(r, e.now, d);
      case Submit(a) => SubmitPlays(r, a, e.now, d);
      case Fire(t) => FirePlays(r, t, e.now, d);
      case _ => OthersPlayNothing(r, e);
    }
  }

  /** A room gets its duel from the join that fills the second seat, and from nothing else. */
  lemma StartDeals(r: Room, e: Timed)
    requires r.game == GAME && r.state.None? && r.lifecycle != Active
    ensures var n := r.Step(e);
            n.state.None? || (|n.seatOrder| == 2 && n.state == Some(Duel(Dealt(n.seatOrder))))
  {
  }

  // ----- runs ---------------------------------------------------------------------------

  /** The state is the duel that the calls `h` lead to from the deal. */
  ghost predicate Played(r: Room, h: seq<Event>) {
    if r.state.None? then h == []
    else |r.seatOrder| == 2 && r.state == Some(Duel(Play(Dealt(r.seatOrder), h)))
  }

  lemma PlayGrows(d: DuelState, h: seq<Event>, calls: seq<Event>)
    requires |calls| <= 1
    ensures Play(d, h + calls) == Play(Play(d, h), calls)
  {
    if calls == [] {
      assert h + calls == h;
    } else {
      assert (h + calls)[..|h|] == h;
    }
  }

  lemma Settled(r: Room, c: Promise)
    requires Inv(r, c)
    ensures r.state.Some? ==> r.lifecycle != Waiting && (r.lifecycle == Active ==> !r.game.isTerminal(r.state.value))
    ensures r.state.None? ==> r.lifecycle != Active
    ensures |r.seatOrder| <= r.game.maxPlayers
  {
  }

  lemma TurnKeeps(r: Room, e: Timed)
    requires r.game == GAME && Inv(r, PROMISE)
    ensures Inv(r.Step(e), PROMISE) && r.Step(e).game == GAME && |r.Step(e).seatOrder| <= 2
  {
    BuzzerIsLawful();
    StepKeeps(r, e, PROMISE);
    StepKeepsGame(r, e);
    Settled(r.Step(e), PROMISE);
  }

  lemma InDuel(r: Room, h: seq<Event>)
    requires r.game == GAME && Inv(r, PROMISE) && r.state.Some? && Played(r, h)
    ensures |r.seatOrder| == 2 && Dueling(r, Play(Dealt(r.seatOrder), h))
  {
    Settled(r, PROMISE);
  }

  lemma SeatsStay(r: Room, e: Timed)
    requires r.lifecycle != Waiting && |r.Step(e).seatOrder| <= |r.seatOrder|
    ensures r.Step(e).seatOrder == r.seatOrder
  {
    StepSlots(r, e);
  }

  lemma PlayedOn(r: Room, e: Timed, h: seq<Event>)
    requires |r.seatOrder| == 2 && |r.Step(e).seatOrder| <= 2 && Dueling(r, Play(Dealt(r.seatOrder), h))
    ensures r.Step(e).seatOrder == r.seatOrder && Played(r.Step(e), h + Calls(r, e))
  {
    StepPlays(r, e, Play(Dealt(r.seatOrder), h));
    SeatsStay(r, e);
    PlayGrows(Dealt(r.seatOrder), h, Calls(r, e));
  }

  lemma PlayedFirst(r: Room, e: Timed)
    requires r.game == GAME && r.state.None? && r.lifecycle != Active
    ensures Played(r.Step(e), []) && Calls(r, e) == []
  {
    StartDeals(r, e);
  }

  lemma PlayedNext(r: Room, e: Timed, h: seq<Event>)
    requires r.game == GAME && Inv(r, PROMISE) && Played(r, h)
    ensures Played(r.Step(e), h + Calls(r, e))
  {
    TurnKeeps(r, e);
    if r.state.None? {
      Settled(r, PROMISE);
      PlayedFirst(r, e);
    } else {
      InDuel(r, h);
      PlayedOn(r, e, h);
    }
  }

  /** A duel room that has not dealt yet. */
  ghost predicate Undealt(r: Room) {
    r.game == GAME && Inv(r, PROMISE) && r.state.None?
  }

  lemma NewIsUndealt(grace: nat, start: Time)
    ensures Undealt(NewRoom(GAME, grace, start))
  {
    BuzzerIsLawful();
    FreshRoom(GAME, grace, start, PROMISE);
  }

  lemma DuelRoom(r: Room, es: seq<Timed>, k: nat)
    requires Undealt(r) && k <= |es|
    ensures Inv(After(r, es, k), PROMISE) && After(r, es, k).game == GAME
  {
    BuzzerIsLawful();
    RunKeeps(r, es, k, PROMISE);
  }

  lemma HistoryNext(r: Room, es: seq<Timed>, k: nat)
    requires k < |es|
    ensures History(r, es[..k + 1]) == History(r, es[..k]) + Calls(After(r, es, k), es[k])
  {
    assert es[..k + 1][..k] == es[..k];
  }

  lemma RoomPlaysNext(r: Room, es: seq<Timed>, k: nat)
    requires Undealt(r) && k < |es| && Played(After(r, es, k), History(r, es[..k]))
    ensures Played(After(r, es, k + 1), History(r, es[..k + 1]))
  {
    DuelRoom(r, es, k);
    AfterStep(r, es, k);
    HistoryNext(r, es, k);
    PlayedNext(After(r, es, k), es[k], History(r, es[..k]));
  }

  /** The state of a duel room at any point of any run is the duel dealt to its two seats, moved by
      the calls made so far. */
  lemma {:induction false} RoomPlays(r: Room, es: seq<Timed>, k: nat)
    requires Undealt(r) && k <= |es|
    ensures Played(After(r, es, k), History(r, es[..k]))
  {
    if k == 0 {
      assert After(r, es, 0) == r && History(r, es[..0]) == [];
    } else {
      RoomPlays(r, es, k - 1);
      RoomPlaysNext(r, es, k - 1);
    }
  }

  // ----- buzzes -------------------------------------------------------------------------

  ghost predicate WonByBuzz(r: Room, p: PlayerId) {
    r.state.Some? && r.state.value.Duel? && r.state.value.duel.reason == "first_buzz" && r.state.value.duel.winner == Some(p)
  }

  lemma BuzzDecides(r: Room, e: Timed, h: seq<Event>, p: PlayerId)
    requires r.game == GAME && Inv(r, PROMISE) && Played(r, h) && !WonByBuzz(r, p) && WonByBuzz(r.Step(e), p)
    ensures Applies(r, e) && e.input.a.player == p && GoSignal(DEFAULT_ARM_DELAY, h)
  {
    Settled(r, PROMISE);
    if r.state.None? {
      StartDeals(r, e);
    } else {
      var d := Play(Dealt(r.seatOrder), h);
      StepPlays(r, e, d);
      DistinctSeats(r);
      ArmedIffGoSignal(Dealt(r.seatOrder), h);
      OneCallDecides(r, e, d, p);
    }
  }

  lemma DistinctSeats(r: Room)
    requires Seating(r) && |r.seatOrder| == 2
    ensures Buzzer.Fresh(Dealt(r.seatOrder))
  {
  }

  lemma OneCallDecides(r: Room, e: Timed, d: DuelState, p: PlayerId)
    requires !(d.reason == "first_buzz" && d.winner == Some(p)) && (d.done || d.reason == "")
    requires Play(d, Calls(r, e)).reason == "first_buzz" && Play(d, Calls(r, e)).winner == Some(p)
    ensures Applies(r, e) && e.input.a.player == p && d.phase == Armed && !d.done
  {
    if Calls(r, e) != [] {
      PlayOne(d, Calls(r, e)[0]);
    }
  }

  /** Whatever a duel room is sent: if it ends by first buzz, the winner's own buzz was applied at a
      moment when some tick had come at least the arm delay after the first tick of the duel. */
  lemma {:induction false} RoomBuzzIsLegal(r: Room, es: seq<Timed>, k: nat, p: PlayerId) returns (i: nat)
    requires Undealt(r) && k <= |es| && WonByBuzz(After(r, es, k), p)
    ensures i < k && Applies(After(r, es, i), es[i]) && es[i].input.a.player == p
    ensures GoSignal(DEFAULT_ARM_DELAY, History(r, es[..i]))
    decreases k
  {
    assert k > 0;
    AfterStep(r, es, k - 1);
    if WonByBuzz(After(r, es, k - 1), p) {
      i := RoomBuzzIsLegal(r, es, k - 1, p);
    } else {
      i := k - 1;
      RoomPlays(r, es, i);
      DuelRoom(r, es, i);
      BuzzDecides(After(r, es, i), es[i], History(r, es[..i]), p);
    }
  }

  // ----- ticks --------------------------------------------------------------------------

  /** How many of the ticks of a run published a diff. */
  ghost function PublishedTicks(r: Room, es: seq<Timed>): nat
    decreases |es|
  {
    if es == [] then 0
    else
      var before := Exec(r, es[..|es| - 1]);
      var e := es[|es| - 1];
      PublishedTicks(r, es[..|es| - 1]) + if e.input.Tick? && before.Step(e).serverSeq != before.serverSeq then 1 else 0
  }

  lemma TickPublishesIff(r: Room, now: Time, d: DuelState)
    requires Dueling(r, d) && 0 < d.armDelay
    ensures r.Step(At(now, Tick)).serverSeq != r.serverSeq
            <==> r.lifecycle == Active && Buzzer.Step(d, TickAt(now)) != d
  {
  }

  lemma ChangingTicksGrow(d: DuelState, h: seq<Event>, e: Event)
    ensures ChangingTicks(d, h + [e]) ==
            ChangingTicks(d, h) + if e.TickAt? && Buzzer.Step(Play(d, h), e) != Play(d, h) then 1 else 0
  {
    assert (h + [e])[..|h|] == h;
  }

  /** The ticks published so far are the ticks that changed the duel. */
  ghost predicate Counted(r: Room, h: seq<Event>, published: nat) {
    if r.state.None? then published == 0
    else |r.seatOrder| == 2 && published == ChangingTicks(Dealt(r.seatOrder), h)
  }

  lemma CountedNext(r: Room, e: Timed, h: seq<Event>, published: nat)
    requires r.game == GAME && Inv(r, PROMISE) && Played(r, h) && Counted(r, h, published)
    ensures var n := r.Step(e);
            Counted(n, h + Calls(r, e), published + if e.input.Tick? && n.serverSeq != r.serverSeq then 1 else 0)
  {
    TurnKeeps(r, e);
    if r.state.None? {
      Settled(r, PROMISE);
      PlayedFirst(r, e);
      CountedFirst(r, e);
    } else {
      InDuel(r, h);
      PlayedOn(r, e, h);
      DistinctSeats(r);
      ArmedIffGoSignal(Dealt(r.seatOrder), h);
      CallCounts(r, e, Dealt(r.seatOrder), h);
    }
  }

  lemma CountedFirst(r: Room, e: Timed)
    requires r.game == GAME && r.state.None? && r.lifecycle != Active && Played(r.Step(e), [])
    ensures Counted(r.Step(e), [], 0) && (e.input.Tick? ==> r.Step(e).serverSeq == r.serverSeq)
  {
  }

  lemma NoTickNoCount(d: DuelState, h: seq<Event>, calls: seq<Event>)
    requires calls == [] || (|calls| == 1 && !calls[0].TickAt?)
    ensures ChangingTicks(d, h + calls) == ChangingTicks(d, h)
  {
    if calls == [] {
      assert h + calls == h;
    } else {
      ChangingTicksGrow(d, h, calls[0]);
      assert [calls[0]] == calls;
    }
  }

  lemma OtherCallsAreNoTicks(r: Room, e: Timed)
    requires !e.input.Tick?
    ensures Calls(r, e) == [] || (|Calls(r, e)| == 1 && !Calls(r, e)[0].TickAt?)
  {
  }

  lemma TickCounts(d: DuelState, h: seq<Event>, calls: seq<Event>, now: Time, published: bool)
    requires calls == [] || calls == [TickAt(now)]
    requires published <==> calls != [] && Buzzer.Step(Play(d, h), TickAt(now)) != Play(d, h)
    ensures ChangingTicks(d, h + calls) == ChangingTicks(d, h) + if published then 1 else 0
  {
    if calls == [] {
      NoTickNoCount(d, h, calls);
    } else {
      ChangingTicksGrow(d, h, TickAt(now));
    }
  }

  lemma CallsOfTick(r: Room, now: Time)
    ensures Calls(r, At(now, Tick)) == if r.lifecycle == Active then [TickAt(now)] else []
  {
  }

  lemma TickStepCounts(r: Room, now: Time, d: DuelState, h: seq<Event>)
    requires Dueling(r, Play(d, h)) && 0 < Play(d, h).armDelay
    ensures ChangingTicks(d, h + Calls(r, At(now, Tick))) ==
            ChangingTicks(d, h) + if r.Step(At(now, Tick)).serverSeq != r.serverSeq then 1 else 0
  {
    TickPublishesIff(r, now, Play(d, h));
    CallsOfTick(r, now);
    TickCounts(d, h, Calls(r, At(now, Tick)), now, r.Step(At(now, Tick)).serverSeq != r.serverSeq);
  }

  lemma CallCounts(r: Room, e: Timed, d: DuelState, h: seq<Event>)
    requires Dueling(r, Play(d, h)) && 0 < Play(d, h).armDelay
    ensures ChangingTicks(d, h + Calls(r, e)) ==
            ChangingTicks(d, h) + if e.input.Tick? && r.Step(e).serverSeq != r.serverSeq then 1 else 0
  {
    if e.input.Tick? {
      TickStepCounts(r, e.now, d, h);
    } else {
      OtherCallsAreNoTicks(r, e);
      NoTickNoCount(d, h, Calls(r, e));
    }
  }

  lemma PublishedTicksNext(r: Room, es: seq<Timed>, k: nat)
    requires k < |es|
    ensures var before := After(r, es, k);
            PublishedTicks(r, es[..k + 1]) == PublishedTicks(r, es[..k])
            + if es[k].input.Tick? && before.Step(es[k]).serverSeq != before.serverSeq then 1 else 0
  {
    assert es[..k + 1][..k] == es[..k];
  }

  lemma RoomCountsNext(r: Room, es: seq<Timed>, k: nat)
    requires Undealt(r) && k < |es| && Counted(After(r, es, k), History(r, es[..k]), PublishedTicks(r, es[..k]))
    ensures Counted(After(r, es, k + 1), History(r, es[..k + 1]), PublishedTicks(r, es[..k + 1]))
  {
    RoomPlays(r, es, k);
    DuelRoom(r, es, k);
    AfterStep(r, es, k);
    HistoryNext(r, es, k);
    PublishedTicksNext(r, es, k);
    CountedNext(After(r, es, k), es[k], History(r, es[..k]), PublishedTicks(r, es[..k]));
  }

  lemma {:induction false} RoomCounts(r: Room, es: seq<Timed>, k: nat)
    requires Undealt(r) && k <= |es|
    ensures Counted(After(r, es, k), History(r, es[..k]), PublishedTicks(r, es[..k]))
  {
    if k == 0 {
      assert After(r, es, 0) == r && PublishedTicks(r, es[..0]) == 0;
    } else {
      RoomCounts(r, es, k - 1);
      RoomCountsNext(r, es, k - 1);
    }
  }

  /** However often and whenever a duel room ticks, at most two of its ticks publish a diff: the one
      that sets the clock and the one that gives the go signal. */
  lemma AtMostTwoTicksArePublished(r: Room, es: seq<Timed>)
    requires Undealt(r)
    ensures PublishedTicks(r, es) <= 2
  {
    RoomCounts(r, es, |es|);
    DuelRoom(r, es, |es|);
    assert es[..|es|] == es;
    if Exec(r, es).state.Some? {
      DistinctSeats(Exec(r, es));
      AtMostTwoTicksChange(Dealt(Exec(r, es).seatOrder), History(r, es));
    }
  }
}
