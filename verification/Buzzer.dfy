/** The tick-driven reflex duel as a lawful game, and what decides a buzz over a whole duel. */
module Buzzer {
  import opened Prelude
  import opened Game

  const ACTION_BUZZ := "ACTION_BUZZ"

  const DEFAULT_ARM_DELAY: nat := 2 * SECOND

  function Init(ps: seq<PlayerId>): Outcome<State> {
    InitWith(ps, 0)
  }

  /** `armDelayMillis` is 0 when the configuration is absent or unreadable, as it is for every room. */
  function InitWith(ps: seq<PlayerId>, armDelayMillis: int): (o: Outcome<State>)
    ensures o.Ok? <==> |ps| == 2
    ensures o.Ok? ==> o.value.Duel? && (ps[0] != ps[1] ==> Fresh(o.value.duel))
    ensures o.Ok? ==> o.value.duel.first == ps[0] && o.value.duel.second == ps[1]
    ensures o.Ok? ==>
              o.value.duel.armDelay == if armDelayMillis >= 1 then armDelayMillis * 1_000_000 else 2_000_000_000
  {
    if |ps| != 2 then Err(InvalidPlayerCount)
    else
      var delay: nat := if armDelayMillis > 0 then armDelayMillis * 1_000_000 else DEFAULT_ARM_DELAY;
      Ok(Duel(DuelState(ps[0], ps[1], delay, 0, Countdown, false, None, "")))
  }

  function Validate(s: State, a: Action): (r: Option<GameError>)
    ensures r.None? ==> s.Duel? && !s.duel.done && SeatOf(s.duel.first, s.duel.second, a.player).Some?
  {
    match s
    case Board(_) => Some(InvalidPayload)
    case Duel(d) =>
      if d.done then Some(GameOver)
      else if a.kind != ACTION_BUZZ then Some(UnknownActionType)
      else if SeatOf(d.first, d.second, a.player).None? then Some(NotSeated)
      else None
  }

  /** The duel decided for the player in `seat`; every duel diff is the whole new snapshot. */
  function Decide(d: DuelState, seat: SeatIndex, reason: string, events: seq<string>): Result {
    var w := Name(d.first, d.second, seat);
    var next := Duel(d.(done := true, phase := Over, winner := Some(w), reason := reason));
    Result(next, Whole(next.View()), events, true, Some(w))
  }

  function ApplyAction(s: State, a: Action): (o: Outcome<Result>)
    ensures o.Ok? ==> o.value.newState.Duel?
  {
    match Validate(s, a)
    case Some(e) => Err(e)
    case None =>
      var buzzer := SeatOf(s.duel.first, s.duel.second, a.player).value;
      if s.duel.phase == Armed then Ok(Decide(s.duel, buzzer, "first_buzz", ["player_won"]))
      else Ok(Decide(s.duel, Other(buzzer), "false_start", ["player_won"]))
  }

  function Tick(s: State, now: Time): (o: Option<Result>)
    ensures o.Some? ==> o.value.newState.Duel?
  {
    if !s.Duel? || s.duel.done then None
    else
      var d := s.duel;
      var timed := if d.armAt == 0 then d.(armAt := now + d.armDelay) else d;
      var next := if timed.phase == Countdown && timed.armAt <= now then timed.(phase := Armed) else timed;
      if d.armAt != 0 && next.phase == d.phase then None
      else Some(Result(Duel(next), Whole(Duel(next).View()), if next.phase == Armed then ["armed"] else [], false, None))
  }

  /** The tick as it is written: change a copy, remember whether anything changed. */
  method TickInSteps(s: State, now: Time) returns (o: Option<Result>)
    ensures o == Tick(s, now)
  {
    if !s.Duel? || s.duel.done {
      return None;
    }
    var next := s.duel;
    var changed := false;
    if next.armAt == 0 {
      next := next.(armAt := now + next.armDelay);
      changed := true;
    }
    if next.phase == Countdown && !(now < next.armAt) {
      next := next.(phase := Armed);
      changed := true;
    }
    if !changed {
      return None;
    }
    var events := [];
    if next.phase == Armed {
      events := ["armed"];
    }
    return Some(Result(Duel(next), Whole(Duel(next).View()), events, false, None));
  }

  predicate IsTerminal(s: State) {
    s.Duel? && s.duel.done
  }

  function OnPlayerAbandoned(s: State, p: PlayerId): (o: Outcome<Result>)
    ensures o.Ok? ==> o.value.newState.Duel?
  {
    match s
    case Board(_) => Err(InvalidPayload)
    case Duel(d) =>
      if d.done then Ok(Result(s, NoDiff, [], false, None))
      else match SeatOf(d.first, d.second, p)
        case None => Err(NotSeated)
        case Some(seat) => Ok(Decide(d, Other(seat), "opponent_abandoned", ["player_abandoned", "player_won"]))
  }

  const GAME: Game :=
    Game(2, 2, Init, Validate, ApplyAction, Tick, (s: State) => s.View(), IsTerminal, OnPlayerAbandoned)

  /** A duel nobody has touched yet. */
  ghost predicate Fresh(d: DuelState) {
    && 0 < d.armDelay && d.armAt == 0 && d.phase == Countdown
    && !d.done && d.winner.None? && d.reason == "" && d.first != d.second
  }

  // ----- reachable duels ----------------------------------------------------------------

  ghost predicate Reach(ps: seq<PlayerId>, s: State) {
    s.Duel? && var d := s.duel;
    && ps == [d.first, d.second] && d.first != d.second && 0 < d.armDelay
    && (d.phase == Armed ==> d.armAt != 0)
    && (d.done <==> d.phase == Over)
    && (!d.done ==> d.winner.None? && d.reason == "")
    && (d.done ==> d.winner == Some(d.first) || d.winner == Some(d.second))
  }

  ghost function Remaining(s: State): nat {
    if !s.Duel? || s.duel.done then 0
    else if s.duel.phase == Armed then 1
    else if s.duel.armAt != 0 then 2
    else 3
  }

  function Patch(v: Snapshot, d: Diff): Snapshot {
    if d.Whole? then d.view else v
  }

  ghost const PROMISE: Promise := Promise(Reach, Patch, Remaining, 3)

  /** The duel is over, `w` has won it for `reason`, and nothing else about it has changed. */
  ghost predicate Decides(d: DuelState, r: Result, w: PlayerId, reason: string) {
    && r.terminal && r.winner == Some(w)
    && r.newState == Duel(d.(done := true, phase := Over, winner := Some(w), reason := reason))
  }

  /** A buzz is accepted if and only if the duel is on, the action is a buzz and its sender is in the
      duel; otherwise the first of these that fails is the reason given. */
  lemma BuzzIsLegalIff(ps: seq<PlayerId>, s: State, a: Action)
    requires Reach(ps, s)
    ensures var why := Validate(s, a);
            && (why.None? <==> !s.duel.done && a.kind == "ACTION_BUZZ" && a.player in ps)
            && (why == Some(GameOver) <==> s.duel.done)
            && (why == Some(UnknownActionType) <==> !s.duel.done && a.kind != "ACTION_BUZZ")
            && (why == Some(NotSeated) <==> !s.duel.done && a.kind == "ACTION_BUZZ" && a.player !in ps)
            && (why.Some? ==> ApplyAction(s, a) == Err(why.value))
  {
  }

  /** An accepted buzz ends the duel: for the buzzer once it is armed, for the other player before. */
  lemma BuzzIsDecisive(ps: seq<PlayerId>, s: State, a: Action)
    requires Reach(ps, s) && ApplyAction(s, a).Ok?
    ensures var r := ApplyAction(s, a).value;
            var other := if a.player == ps[0] then ps[1] else ps[0];
            && r.events == ["player_won"]
            && if s.duel.phase == Armed then Decides(s.duel, r, a.player, "first_buzz")
               else Decides(s.duel, r, other, "false_start")
  {
  }

  /** A tick of a running duel changes something if and only if the clock is not set yet or has run out;
      it sets the clock the arm delay ahead, arms the duel, and says so. */
  lemma TickOutcome(ps: seq<PlayerId>, s: State, now: Time)
    requires Reach(ps, s)
    ensures var d, o := s.duel, Tick(s, now);
            && (o.Some? <==> !d.done && (d.armAt == 0 || (d.phase == Countdown && d.armAt <= now)))
            && (o.Some? ==>
                  var armAt := if d.armAt == 0 then now + d.armDelay else d.armAt;
                  && o.value.newState == Duel(d.(armAt := armAt, phase := if armAt <= now then Armed else Countdown))
                  && o.value.events == (if armAt <= now then ["armed"] else [])
                  && !o.value.terminal && o.value.winner.None?)
  {
  }

  /** What clients are shown: the two players, the phase by name, and how the duel was decided. */
  lemma SnapshotShows(ps: seq<PlayerId>, s: State)
    requires Reach(ps, s)
    ensures var d, v := s.duel, GAME.snapshot(s);
            && v.DuelView? && v.players == ps && v.done == d.done && v.reason == d.reason
            && (v.phase == match d.phase case Countdown => "countdown" case Armed => "armed" case Over => "done")
            && v.victor == if d.winner.Some? then d.winner.value else ""
  {
  }

  lemma AbandonAdvances(ps: seq<PlayerId>, s: State, p: PlayerId)
    requires Reach(ps, s) && !s.duel.done && p in ps
    ensures OnPlayerAbandoned(s, p).Ok? && Advances(GAME, PROMISE, ps, s, OnPlayerAbandoned(s, p).value)
    ensures var r := OnPlayerAbandoned(s, p).value;
            Decides(s.duel, r, if p == ps[0] then ps[1] else ps[0], "opponent_abandoned")
            && r.events == ["player_abandoned", "player_won"]
  {
  }

  lemma ActionsAreLawful()
    ensures ActionLaw(GAME, PROMISE)
  {
  }

  lemma TicksAreLawful()
    ensures TickLaw(GAME, PROMISE)
  {
  }

  lemma AbandonIsLawful()
    ensures AbandonLaw(GAME, PROMISE)
  {
  }

  lemma BuzzerIsLawful()
    ensures Lawful(GAME, PROMISE)
  {
    assert InitLaw(GAME, PROMISE);
    ActionsAreLawful();
    TicksAreLawful();
    AbandonIsLawful();
  }

  // ----- whole duels --------------------------------------------------------------------

  datatype Event = TickAt(now: Time) | Buzz(who: PlayerId) | Quit(who: PlayerId)

  /** One engine call: ticks and refused buzzes may change nothing, and nobody is abandoned
      in a duel that is over. */
  function Step(d: DuelState, e: Event): DuelState {
    match e
    case TickAt(now) =>
      var r := Tick(Duel(d), now);
      if r.Some? then r.value.newState.duel else d
    case Buzz(p) =>
      var r := ApplyAction(Duel(d), Action(ACTION_BUZZ, p, 0, Malformed));
      if r.Ok? then r.value.newState.duel else d
    case Quit(p) =>
      var r := OnPlayerAbandoned(Duel(d), p);
      if !d.done && r.Ok? then r.value.newState.duel else d
  }

  function Play(d: DuelState, es: seq<Event>): DuelState
    decreases |es|
  {
    if es == [] then d else Step(Play(d, es[..|es| - 1]), es[|es| - 1])
  }

  /** The instant of the first tick of the duel. */
  ghost function FirstTick(es: seq<Event>): Option<Time>
    decreases |es|
  {
    if es == [] then None
    else
      var earlier := FirstTick(es[..|es| - 1]);
      if earlier.None? && es[|es| - 1].TickAt? then Some(es[|es| - 1].now) else earlier
  }

  ghost predicate TickFrom(t: Time, e: Event) {
    e.TickAt? && t <= e.now
  }

  /** Some tick came at least the arm delay after the first one. */
  ghost predicate GoSignal(delay: nat, es: seq<Event>) {
    FirstTick(es).Some? && exists j :: 0 <= j < |es| && TickFrom(FirstTick(es).value + delay, es[j])
  }

  lemma {:induction false} GoSignalGrows(delay: nat, es: seq<Event>, e: Event)
    requires 0 < delay
    ensures GoSignal(delay, es + [e]) <==>
            GoSignal(delay, es) || (FirstTick(es).Some? && TickFrom(FirstTick(es).value + delay, e))
  {
    var all := es + [e];
    assert all[..|es|] == es && all[|es|] == e;
    if GoSignal(delay, es) {
      var j :| 0 <= j < |es| && TickFrom(FirstTick(es).value + delay, es[j]);
      assert all[j] == es[j];
    }
    if GoSignal(delay, all) {
      var j :| 0 <= j < |all| && TickFrom(FirstTick(all).value + delay, all[j]);
      assert j < |es| ==> all[j] == es[j];
      if FirstTick(es).None? {
        NoTickBefore(es);
      }
    }
  }

  lemma {:induction false} NoTickBefore(es: seq<Event>)
    requires FirstTick(es).None?
    ensures forall j :: 0 <= j < |es| ==> !es[j].TickAt?
    decreases |es|
  {
    if es != [] {
      NoTickBefore(es[..|es| - 1]);
      forall j | 0 <= j < |es| - 1 ensures !es[j].TickAt? {
        assert es[j] == es[..|es| - 1][j];
      }
    }
  }

  /** A live duel is armed exactly when the go signal has been given. */
  lemma {:induction false} ArmedIffGoSignal(d: DuelState, es: seq<Event>)
    requires Fresh(d)
    ensures var n := Play(d, es);
            && n.first == d.first && n.second == d.second && n.armDelay == d.armDelay
            && (n.done <==> n.phase == Over)
            && (!n.done ==> n.armAt == if FirstTick(es).Some? then FirstTick(es).value + d.armDelay else 0)
            && (!n.done ==> (n.phase == Armed <==> GoSignal(d.armDelay, es)))
            && (!n.done ==> n.reason == "")
    decreases |es|
  {
    if es != [] {
      var pre, e := es[..|es| - 1], es[|es| - 1];
      assert es == pre + [e];
      ArmedIffGoSignal(d, pre);
      GoSignalGrows(d.armDelay, pre, e);
    }
  }

  /** What a buzz in a live duel does: after the go signal it wins, before it loses. */
  lemma BuzzOutcome(d: DuelState, es: seq<Event>, p: PlayerId)
    requires Fresh(d) && !Play(d, es).done && p in [d.first, d.second]
    ensures var n := Play(d, es + [Buzz(p)]);
            var other := if p == d.first then d.second else d.first;
            && n.done
            && n.winner == Some(if GoSignal(d.armDelay, es) then p else other)
            && n.reason == if GoSignal(d.armDelay, es) then "first_buzz" else "false_start"
  {
    ArmedIffGoSignal(d, es);
    assert (es + [Buzz(p)])[..|es|] == es;
  }

  /** Over whole duels: a win by first buzz is the winner's own buzz, after the go signal. */
  lemma {:induction false} FirstBuzzIsLegal(d: DuelState, es: seq<Event>)
    requires Fresh(d) && Play(d, es).reason == "first_buzz"
    ensures exists k :: 0 <= k < |es| && es[k].Buzz? && Play(d, es).winner == Some(es[k].who)
                        && GoSignal(d.armDelay, es[..k])
    decreases |es|
  {
    var pre, e := es[..|es| - 1], es[|es| - 1];
    ArmedIffGoSignal(d, pre);
    if Play(d, pre).done {
      FirstBuzzIsLegal(d, pre);
      var k :| 0 <= k < |pre| && pre[k].Buzz? && Play(d, pre).winner == Some(pre[k].who)
               && GoSignal(d.armDelay, pre[..k]);
      assert es[..k] == pre[..k] && es[k] == pre[k];
    } else {
      assert es[..|pre|] == pre;
    }
  }

  ghost function ChangingTicks(d: DuelState, es: seq<Event>): nat
    decreases |es|
  {
    if es == [] then 0
    else
      var pre := es[..|es| - 1];
      ChangingTicks(d, pre) + if es[|es| - 1].TickAt? && Play(d, es) != Play(d, pre) then 1 else 0
  }

  /** However often the room ticks, at most two ticks of a duel are ever published. */
  lemma {:induction false} AtMostTwoTicksChange(d: DuelState, es: seq<Event>)
    requires Fresh(d)
    ensures ChangingTicks(d, es) <= 2
    ensures !Play(d, es).done ==> ChangingTicks(d, es) + Remaining(Duel(Play(d, es))) <= 3
    decreases |es|
  {
    if es != [] {
      AtMostTwoTicksChange(d, es[..|es| - 1]);
      ArmedIffGoSignal(d, es[..|es| - 1]);
    }
  }
}
