/** The contract between the room engine and a concrete game.

    A game is a record of functions over an opaque-to-the-engine `State`. The engine's
    theorems are proved once, for every record that is `Lawful`; each concrete game then
    shows that its own record is. */
module Game {
  import opened Prelude

  datatype Mark = Empty | X | O

  const CELLS: nat := 9

  type Cells = b: seq<Mark> | |b| == CELLS witness seq(CELLS, _ => Empty)

  type SeatIndex = i: nat | i < 2

  datatype Phase = Countdown | Armed | Over

  /** A tic-tac-toe game; `first` plays X. */
  datatype BoardState = BoardState(cells: Cells, first: PlayerId, second: PlayerId, turn: SeatIndex,
                                   moveCount: nat, done: bool, draw: bool, winner: Option<PlayerId>)

  /** A reflex duel; `armAt` is the zero time until the first tick sets it. */
  datatype DuelState = DuelState(first: PlayerId, second: PlayerId, armDelay: nat, armAt: Time,
                                 phase: Phase, done: bool, winner: Option<PlayerId>, reason: string)

  /** Go's `game.State` is an interface; its implementations are the constructors. */
  datatype State = Board(board: BoardState) | Duel(duel: DuelState) {

    /** `Marshal`, before JSON encoding. */
    function View(): Snapshot {
      match this
      case Board(b) =>
        BoardView(Marks(b.cells), [b.first, b.second], Name(b.first, b.second, b.turn),
                  b.moveCount, b.done, b.draw, NameOrNone(b.winner))
      case Duel(d) =>
        DuelView([d.first, d.second], PhaseText(d.phase), d.done, NameOrNone(d.winner), d.reason)
    }
  }

  /** `Players[i]` of a two-player game. */
  function Name(first: PlayerId, second: PlayerId, i: SeatIndex): PlayerId {
    if i == 0 then first else second
  }

  function SeatOf(first: PlayerId, second: PlayerId, p: PlayerId): (r: Option<SeatIndex>)
    ensures r.Some? <==> p == first || p == second
    ensures r.Some? ==> Name(first, second, r.value) == p
  {
    if p == first then Some(0) else if p == second then Some(1) else None
  }

  function Other(seat: SeatIndex): SeatIndex {
    1 - seat
  }

  /** A name as an optional JSON string: "" is left out. */
  function NameOrNone(p: Option<PlayerId>): PlayerId {
    if p.Some? then p.value else ""
  }

  function MarkText(m: Mark): string {
    match m
    case X => "X"
    case O => "O"
    case Empty => ""
  }

  function PhaseText(p: Phase): string {
    match p
    case Countdown => "countdown"
    case Armed => "armed"
    case Over => "done"
  }

  function Marks(b: Cells): seq<string> {
    seq(CELLS, i requires 0 <= i < CELLS => MarkText(b[i]))
  }

  /** Full snapshots, decoded; "" stands for a field left out of the JSON object. */
  datatype Snapshot =
    | BoardView(marks: seq<string>, names: seq<PlayerId>, turn: PlayerId,
                moveCount: nat, over: bool, draw: bool, winner: PlayerId)
    | DuelView(players: seq<PlayerId>, phase: string, done: bool, victor: PlayerId, reason: string)
  {
    function Winner(): PlayerId {
      if BoardView? then winner else victor
    }
  }

  /** Deltas, decoded; "" and false stand for a field left out of the JSON object. */
  datatype Diff =
    | CellDiff(x: int, y: int, mark: string, turn: PlayerId, terminal: bool,
               winner: PlayerId, draw: bool, reason: string)
    | Whole(view: Snapshot)
    | NoDiff

  datatype Payload = Malformed | Move(x: int, y: int)

  datatype Action = Action(kind: string, player: PlayerId, seqNo: nat, payload: Payload)

  datatype GameError =
    | NotYourTurn | IllegalMove | GameOver | UnknownActionType
    | InvalidPayload | InvalidPlayerCount | NotSeated

  datatype Outcome<+T> = Ok(value: T) | Err(error: GameError)

  datatype Result = Result(newState: State, diff: Diff, events: seq<string>,
                           terminal: bool, winner: Option<PlayerId>)

  datatype Game = Game(
    minPlayers: nat,
    maxPlayers: nat,
    init: seq<PlayerId> -> Outcome<State>,
    validate: (State, Action) -> Option<GameError>,
    applyAction: (State, Action) -> Outcome<Result>,
    tick: (State, Time) -> Option<Result>,
    snapshot: State -> Snapshot,
    isTerminal: State -> bool,
    onPlayerAbandoned: (State, PlayerId) -> Outcome<Result>)

  /** What a game promises beyond its operations: the states it can be in when started with
      given players, how a client applies one of its diffs, and how many diffs it has left. */
  datatype Promise = Promise(
    reach: (seq<PlayerId>, State) -> bool,
    patch: (Snapshot, Diff) -> Snapshot,
    remaining: State -> nat,
    limit: nat)

  ghost predicate Named(ps: seq<PlayerId>) {
    forall i :: 0 <= i < |ps| ==> ps[i] != ""
  }

  /** One published step from `s`: still reachable, one diff fewer to come, the terminal flag and
      the winner tell the truth, and the diff takes a client from the old snapshot to the new one. */
  ghost predicate Advances(g: Game, c: Promise, ps: seq<PlayerId>, s: State, r: Result) {
    && c.reach(ps, r.newState)
    && c.remaining(r.newState) < c.remaining(s)
    && r.terminal == g.isTerminal(r.newState)
    && NameOrNone(r.winner) == g.snapshot(r.newState).Winner()
    && (Named(ps) ==> c.patch(g.snapshot(s), r.diff) == g.snapshot(r.newState))
  }

  ghost predicate InitLaw(g: Game, c: Promise) {
    forall ps ::
      && (|ps| == g.minPlayers && NoDuplicates(ps) ==>
            g.init(ps).Ok? && var s := g.init(ps).value;
            c.reach(ps, s) && !g.isTerminal(s) && c.remaining(s) <= c.limit)
      && (|ps| < g.minPlayers || g.maxPlayers < |ps| ==> g.init(ps).Err?)
  }

  /** Validate and ApplyAction accept the same actions, only from seated players of a live game. */
  ghost predicate ActionLaw(g: Game, c: Promise) {
    forall ps, s, a :: c.reach(ps, s) ==>
      && (g.validate(s, a).None? <==> g.applyAction(s, a).Ok?)
      && (g.isTerminal(s) || a.player !in ps ==> g.validate(s, a).Some?)
      && (g.applyAction(s, a).Ok? ==> Advances(g, c, ps, s, g.applyAction(s, a).value))
  }

  ghost predicate TickLaw(g: Game, c: Promise) {
    forall ps, s, now :: c.reach(ps, s) && g.tick(s, now).Some? ==>
      !g.isTerminal(s) && Advances(g, c, ps, s, g.tick(s, now).value)
  }

  /** The game is over and somebody else in it has won. */
  ghost predicate LostBy(p: PlayerId, ps: seq<PlayerId>, r: Result) {
    r.terminal && r.winner.Some? && r.winner.value in ps && r.winner.value != p
  }

  /** Abandoning a live game loses it, exactly for its own players. */
  ghost predicate AbandonLaw(g: Game, c: Promise) {
    forall ps, s, p :: c.reach(ps, s) && !g.isTerminal(s) ==>
      var o := g.onPlayerAbandoned(s, p);
      && (o.Ok? <==> p in ps)
      && (o.Ok? ==> Advances(g, c, ps, s, o.value) && LostBy(p, ps, o.value))
  }

  ghost predicate Lawful(g: Game, c: Promise) {
    && 1 <= g.minPlayers <= g.maxPlayers
    && InitLaw(g, c) && ActionLaw(g, c) && TickLaw(g, c) && AbandonLaw(g, c)
  }
}
