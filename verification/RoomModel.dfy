/** The room actor as a value: its state and what handling one input does to it.

    The sink's broadcast log and the runtime's pending grace timers are part of the state, so
    that statements can be made about both. */
module RoomModel {
  import opened Prelude
  import opened Game

  datatype Lifecycle = Waiting | Active | Finished | Closed {
    function Rank(): nat {
      match this case Waiting => 0 case Active => 1 case Finished => 2 case Closed => 3
    }
  }

  datatype Slot = Slot(seat: nat, connected: bool, generation: nat, lastAppliedSeq: nat) {
    /** Rises by one with every disconnect and every reconnect. */
    function Epoch(): nat {
      2 * generation + if connected then 1 else 0
    }
  }

  datatype RoomEvent =
    | StateDiff(serverSeq: nat, diff: Diff, events: seq<string>, terminal: bool,
                winner: Option<PlayerId>, subject: PlayerId)
    | PlayerJoined(serverSeq: nat, who: PlayerId)
    | PlayerDisconnected(serverSeq: nat, who: PlayerId)
    | PlayerReconnected(serverSeq: nat, who: PlayerId)
    | RoomStarted(serverSeq: nat, snapshot: Option<Snapshot>)
    | RoomClosed(serverSeq: nat)

  /** A `time.AfterFunc` waiting to send GraceExpired. */
  datatype Timer = Timer(player: PlayerId, generation: nat, deadline: Time)

  datatype RoomError =
    | RoomIsClosed | RoomFull | RoomNotActive | UnknownPlayer
    | PlayerOffline | StaleAction | Rejected(why: GameError)

  datatype Reply = Reply(err: Option<RoomError>, seat: nat, lifecycle: Lifecycle,
                         snapshot: Option<Snapshot>, serverSeq: nat)

  function Failed(e: RoomError): Reply {
    Reply(Some(e), 0, Waiting, None, 0)
  }

  function Done(l: Lifecycle, serverSeq: nat := 0): Reply {
    Reply(None, 0, l, None, serverSeq)
  }

  /** Everybody seated behind `gone` moves up by one. */
  function Lower(players: map<PlayerId, Slot>, gone: nat): map<PlayerId, Slot> {
    map q | q in players ::
      if players[q].seat > gone then players[q].(seat := players[q].seat - 1) else players[q]
  }

  /** The slots without `p`, whose seat is given up. */
  function Compact(players: map<PlayerId, Slot>, p: PlayerId): map<PlayerId, Slot>
    requires p in players
  {
    Lower(players - {p}, players[p].seat)
  }

  /** `Fire(t)` is the runtime delivering timer `t`; `Tick` and `Poll` are the ticker and a status read. */
  datatype Input =
    | Join(p: PlayerId) | Leave(p: PlayerId) | Submit(a: Action) | Disconnect(p: PlayerId)
    | Reconnect(p: PlayerId) | Fire(t: Timer) | ForceClose | TakeSnapshot | Tick | Poll

  datatype Timed = At(now: Time, input: Input)

  datatype Room = Room(
    game: Game,
    grace: nat,
    lifecycle: Lifecycle,
    state: Option<State>,
    seatOrder: seq<PlayerId>,
    players: map<PlayerId, Slot>,
    serverSeq: nat,
    lastActivity: Time,
    finishedAt: Time,
    log: seq<RoomEvent>,
    timers: multiset<Timer>)
  {
    function Snapshot(): Option<Snapshot> {
      if state.Some? then Some(game.snapshot(state.value)) else None
    }

    function Describe(seat: nat): Reply {
      Reply(None, seat, lifecycle, Snapshot(), serverSeq)
    }

    /** A room that has just been given its last seat below MinPlayers starts its game. */
    function Start(): (Room, Option<GameError>) {
      match game.init(seatOrder)
      case Err(e) => (this, Some(e))
      case Ok(s) =>
        var started := this.(state := Some(s), lifecycle := Active);
        (started.(log := log + [RoomStarted(serverSeq, started.Snapshot())]), None)
    }

    function Seat(p: PlayerId): Room {
      this.(seatOrder := seatOrder + [p],
            players := players[p := Slot(|seatOrder|, true, 0, 0)],
            log := log + [PlayerJoined(serverSeq, p)])
    }

    function HandleJoin(p: PlayerId): (Room, Reply) {
      if lifecycle == Closed || lifecycle == Finished then (this, Failed(RoomIsClosed))
      else if p in players then (this, Describe(players[p].seat))
      else if |seatOrder| >= game.maxPlayers then (this, Failed(RoomFull))
      else
        var seated := Seat(p);
        if lifecycle == Waiting && |seated.seatOrder| >= game.minPlayers then
          var (started, err) := seated.Start();
          (started, if err.Some? then Failed(Rejected(err.value)) else started.Describe(|seatOrder|))
        else (seated, seated.Describe(|seatOrder|))
    }

    function Unseat(p: PlayerId): Room
      requires p in players
    {
      this.(seatOrder := RemoveFirst(seatOrder, p), players := Compact(players, p))
    }

    function HandleLeave(p: PlayerId, now: Time): (Room, Reply) {
      if p !in players then (this, Done(lifecycle))
      else if lifecycle != Waiting then HandleDisconnect(p, now)
      else
        var left := Unseat(p);
        (if left.seatOrder == [] then left.(lifecycle := Closed) else left, Done(lifecycle))
    }

    /** Publish a game result; `who` is the player it is about, "" for a tick. */
    function Publish(r: Result, terminal: bool, who: PlayerId, now: Time): Room {
      this.(state := Some(r.newState),
            serverSeq := serverSeq + 1,
            log := log + [StateDiff(serverSeq + 1, r.diff, r.events, terminal, r.winner, who)],
            lifecycle := if terminal then Finished else lifecycle,
            finishedAt := if terminal then now else finishedAt)
    }

    function HandleAction(a: Action, now: Time): (Room, Reply) {
      if lifecycle != Active || state.None? then (this, Failed(RoomNotActive))
      else if a.player !in players then (this, Failed(UnknownPlayer))
      else
        var slot := players[a.player];
        if !slot.connected then (this, Failed(PlayerOffline))
        else if a.seqNo <= slot.lastAppliedSeq && slot.lastAppliedSeq != 0 then (this, Failed(StaleAction))
        else match game.validate(state.value, a)
          case Some(e) => (this, Failed(Rejected(e)))
          case None =>
            match game.applyAction(state.value, a)
            case Err(e) => (this, Failed(Rejected(e)))
            case Ok(r) =>
              var next := this.(players := players[a.player := slot.(lastAppliedSeq := a.seqNo)])
                              .Publish(r, r.terminal, a.player, now);
              (next, Done(next.lifecycle, next.serverSeq))
    }

    function HandleDisconnect(p: PlayerId, now: Time): (Room, Reply) {
      if p !in players || !players[p].connected then (this, Done(lifecycle))
      else
        var generation := players[p].generation + 1;
        (this.(players := players[p := players[p].(connected := false, generation := generation)],
               log := log + [PlayerDisconnected(serverSeq, p)],
               timers := if lifecycle == Active then timers + multiset{Timer(p, generation, now + grace)} else timers),
         Done(lifecycle))
    }

    function HandleReconnect(p: PlayerId): (Room, Reply) {
      if p !in players then (this, Failed(UnknownPlayer))
      else
        var back := if players[p].connected then this
                    else this.(players := players[p := players[p].(connected := true)],
                               log := log + [PlayerReconnected(serverSeq, p)]);
        (back, back.Describe(players[p].seat))
    }

    function HandleGraceExpired(p: PlayerId, generation: nat, now: Time): Room {
      if p !in players || players[p].connected || players[p].generation != generation then this
      else if lifecycle != Active || state.None? then this
      else match game.onPlayerAbandoned(state.value, p)
        case Err(_) => this
        case Ok(r) => Publish(r, true, p, now)
    }

    function HandleForceClose(): (Room, Reply) {
      (this.(lifecycle := Closed,
             log := if lifecycle != Closed then log + [RoomClosed(serverSeq)] else log),
       Done(Closed))
    }

    function HandleSnapshot(): (Room, Reply) {
      (this, Reply(None, 0, lifecycle, Snapshot(), serverSeq))
    }

    function HandleTick(now: Time): Room {
      if lifecycle != Active || state.None? then this
      else match game.tick(state.value, now)
        case None => this
        case Some(r) => Publish(r, r.terminal, "", now)
    }

    /** A timer can be delivered at any moment from its deadline on, and only once. */
    predicate Due(t: Timer, now: Time) {
      t in timers && t.deadline <= now
    }

    /** Dispatch of a command; grace timers have nobody to reply to. */
    function Handle(e: Timed): (Room, Reply) {
      match e.input
      case Join(p) => HandleJoin(p)
      case Leave(p) => HandleLeave(p, e.now)
      case Submit(a) => HandleAction(a, e.now)
      case Disconnect(p) => HandleDisconnect(p, e.now)
      case Reconnect(p) => HandleReconnect(p)
      case Fire(t) =>
        (this.(timers := timers - multiset{t}).HandleGraceExpired(t.player, t.generation, e.now), Done(lifecycle))
      case ForceClose => HandleForceClose()
      case TakeSnapshot => HandleSnapshot()
      case Tick => (this, Done(lifecycle))
      case Poll => (this, Done(lifecycle))
    }

    /** One turn of the actor loop. A closed room has stopped; delivering a timer that is not
        pending or not yet due is not something the runtime can do, so nothing happens. */
    function Step(e: Timed): Room {
      if lifecycle == Closed || e.input.Poll? || (e.input.Fire? && !Due(e.input.t, e.now)) then this
      else if e.input.Tick? then HandleTick(e.now)
      else this.(lastActivity := e.now).Handle(e).0
    }
  }

  function NewRoom(game: Game, grace: nat, now: Time): Room {
    Room(game, grace, Waiting, None, [], map[], 0, now, 0, [], multiset{})
  }

  /** The room after a sequence of inputs. */
  function Exec(r: Room, es: seq<Timed>): Room
    decreases |es|
  {
    if es == [] then r else Exec(r, es[..|es| - 1]).Step(es[|es| - 1])
  }
}
