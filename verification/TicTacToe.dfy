/** Tic-tac-toe as a lawful game: the rules, the invariant every reachable board satisfies,
    and the exact condition under which the published diffs add up to the snapshots. */
module TicTacToe {
  import opened Prelude
  import opened Game

  const ACTION_MOVE := "ACTION_MOVE"

  function MarkOf(seat: SeatIndex): Mark {
    if seat == 1 then O else X
  }

  // ----- winning lines ------------------------------------------------------------------

  const LINES: nat := 8

  /** The table of winning triples: rows, columns, diagonals. */
  function WinLine(k: nat): (l: (nat, nat, nat))
    requires k < LINES
    ensures l.0 < CELLS && l.1 < CELLS && l.2 < CELLS
  {
    if k == 0 then (0, 1, 2) else if k == 1 then (3, 4, 5) else if k == 2 then (6, 7, 8)
    else if k == 3 then (0, 3, 6) else if k == 4 then (1, 4, 7) else if k == 5 then (2, 5, 8)
    else if k == 6 then (0, 4, 8) else (2, 4, 6)
  }

  predicate Fills(b: Cells, m: Mark, k: nat)
    requires k < LINES
  {
    var l := WinLine(k);
    b[l.0] == b[l.1] == b[l.2] == m
  }

  /** The mark on the first complete line of the table from line `from` on. */
  function WinningMark(b: Cells, from: nat := 0): Mark
    decreases LINES - from
  {
    if from >= LINES then Empty
    else
      var m := b[WinLine(from).0];
      if m != Empty && Fills(b, m, from) then m else WinningMark(b, from + 1)
  }

  lemma FirstFilledLine(b: Cells, from: nat)
    ensures var m := WinningMark(b, from);
            && (m != Empty ==> exists k :: from <= k < LINES && Fills(b, m, k))
            && (m == Empty ==> forall k, n :: from <= k < LINES && n != Empty ==> !Fills(b, n, k))
    decreases LINES - from
  {
  }

  function At(b: Cells, x: nat, y: nat): Mark
    requires x < 3 && y < 3
  {
    b[3 * y + x]
  }

  ghost predicate Row(b: Cells, m: Mark, y: nat) requires y < 3 {
    At(b, 0, y) == At(b, 1, y) == At(b, 2, y) == m
  }

  ghost predicate Column(b: Cells, m: Mark, x: nat) requires x < 3 {
    At(b, x, 0) == At(b, x, 1) == At(b, x, 2) == m
  }

  ghost predicate Diagonal(b: Cells, m: Mark) {
    || At(b, 0, 0) == At(b, 1, 1) == At(b, 2, 2) == m
    || At(b, 2, 0) == At(b, 1, 1) == At(b, 0, 2) == m
  }

  /** Three in a row, said by geometry instead of by table. */
  ghost predicate HasLine(b: Cells, m: Mark) {
    (exists y :: 0 <= y < 3 && Row(b, m, y)) || (exists x :: 0 <= x < 3 && Column(b, m, x)) || Diagonal(b, m)
  }

  lemma TableIsGeometry(b: Cells, m: Mark)
    ensures HasLine(b, m) <==> exists k :: 0 <= k < LINES && Fills(b, m, k)
  {
    assert Row(b, m, 0) == Fills(b, m, 0) && Row(b, m, 1) == Fills(b, m, 1) && Row(b, m, 2) == Fills(b, m, 2);
    assert Column(b, m, 0) == Fills(b, m, 3) && Column(b, m, 1) == Fills(b, m, 4) && Column(b, m, 2) == Fills(b, m, 5);
    assert Diagonal(b, m) == (Fills(b, m, 6) || Fills(b, m, 7));
  }

  /** The table lookup finds a winner exactly when somebody has three in a row, and it is theirs. */
  lemma WinningMarkExact(b: Cells)
    ensures WinningMark(b) != Empty ==> HasLine(b, WinningMark(b))
    ensures WinningMark(b) == Empty <==> !HasLine(b, X) && !HasLine(b, O)
  {
    FirstFilledLine(b, 0);
    TableIsGeometry(b, X);
    TableIsGeometry(b, O);
  }

  // ----- the game operations ------------------------------------------------------------

  function Init(ps: seq<PlayerId>): Outcome<State> {
    if |ps| != 2 then Err(InvalidPlayerCount)
    else Ok(Board(BoardState(seq(CELLS, _ => Empty), ps[0], ps[1], 0, 0, false, false, None)))
  }

  function DecodeMove(a: Action): (r: Outcome<Payload>)
    ensures r.Ok? ==> r.value.Move? && 0 <= r.value.x < 3 && 0 <= r.value.y < 3
  {
    if a.kind != ACTION_MOVE then Err(UnknownActionType)
    else if a.payload.Malformed? then Err(InvalidPayload)
    else if a.payload.x < 0 || a.payload.x > 2 || a.payload.y < 0 || a.payload.y > 2 then Err(InvalidPayload)
    else Ok(a.payload)
  }

  /** Why the move is refused, or the cell it goes to. */
  function Legal(b: BoardState, a: Action): (r: Outcome<nat>)
    ensures r.Ok? ==> DecodeMove(a).Ok? && r.value == 3 * DecodeMove(a).value.y + DecodeMove(a).value.x
    ensures r.Ok? ==> r.value < CELLS && b.cells[r.value] == Empty && !b.done
    ensures r.Ok? ==> a.player == Name(b.first, b.second, b.turn)
  {
    if b.done then Err(GameOver)
    else match SeatOf(b.first, b.second, a.player)
      case None => Err(NotSeated)
      case Some(seat) =>
        if seat != b.turn then Err(NotYourTurn)
        else match DecodeMove(a)
          case Err(e) => Err(e)
          case Ok(mv) => if b.cells[3 * mv.y + mv.x] != Empty then Err(IllegalMove) else Ok(3 * mv.y + mv.x)
  }

  function Validate(s: State, a: Action): Option<GameError> {
    match s
    case Duel(_) => Some(InvalidPayload)
    case Board(b) => match Legal(b, a) case Err(e) => Some(e) case Ok(_) => None
  }

  /** The player to move marks cell `i`; nothing else is decided yet. */
  function Place(b: BoardState, i: nat): BoardState
    requires i < CELLS
  {
    b.(cells := b.cells[i := MarkOf(b.turn)], moveCount := b.moveCount + 1)
  }

  /** Win, draw or pass the turn, from the board with the new mark on it. */
  function Settle(b: BoardState): BoardState {
    var won := WinningMark(b.cells);
    if won != Empty then b.(done := true, winner := Some(Name(b.first, b.second, if won == X then 0 else 1)))
    else if b.moveCount == CELLS then b.(done := true, draw := true)
    else b.(turn := Other(b.turn))
  }

  function ApplyAction(s: State, a: Action): Outcome<Result> {
    match s
    case Duel(_) => Err(InvalidPayload)
    case Board(b) =>
      match Legal(b, a)
      case Err(e) => Err(e)
      case Ok(i) =>
        var next := Settle(Place(b, i));
        var won := WinningMark(next.cells) != Empty;
        var drawn := !won && next.moveCount == CELLS;
        var diff := CellDiff(DecodeMove(a).value.x, DecodeMove(a).value.y, MarkText(MarkOf(b.turn)),
                             if won || drawn then "" else Name(next.first, next.second, next.turn),
                             won || drawn, if won then NameOrNone(next.winner) else "", drawn, "");
        var event := if won then "player_won" else if drawn then "draw" else "turn_changed";
        Ok(Result(Board(next), diff, [event], won || drawn, if won then next.winner else None))
  }

  /** The move as it is written: change a copy of the board field by field. */
  method ApplyInSteps(b: BoardState, a: Action) returns (o: Outcome<Result>)
    ensures o == ApplyAction(Board(b), a)
  {
    var legal := Legal(b, a);
    if legal.Err? {
      return Err(legal.error);
    }
    var mv := DecodeMove(a).value;
    var next := b;
    var mark := X;
    if b.turn == 1 {
      mark := O;
    }
    next := next.(cells := next.cells[3 * mv.y + mv.x := mark]);
    next := next.(moveCount := next.moveCount + 1);
    assert next == Place(b, legal.value);
    ghost var settled := Settle(next);
    var diff := CellDiff(mv.x, mv.y, MarkText(mark), "", false, "", false, "");
    var events: seq<string> := [];
    var winner: Option<PlayerId> := None;
    var terminal := false;
    var won := WinningMark(next.cells);
    if won != Empty {
      var w := Name(next.first, next.second, if won == X then 0 else 1);
      next := next.(done := true, winner := Some(w));
      winner, terminal := Some(w), true;
      diff := diff.(terminal := true, winner := w);
      events := ["player_won"];
    } else if next.moveCount == CELLS {
      next := next.(done := true, draw := true);
      terminal := true;
      diff := diff.(terminal := true, draw := true);
      events := ["draw"];
    } else {
      next := next.(turn := 1 - b.turn);
      diff := diff.(turn := Name(next.first, next.second, next.turn));
      events := ["turn_changed"];
    }
    assert next == settled;
    return Ok(Result(Board(next), diff, events, terminal, winner));
  }

  /** The board of the wire format, cell by cell. */
  method FillMarks(b: Cells) returns (marks: array<string>)
    ensures marks[..] == Marks(b)
  {
    marks := new string[CELLS];
    for i := 0 to CELLS
      invariant forall k :: 0 <= k < i ==> marks[k] == MarkText(b[k])
    {
      marks[i] := MarkText(b[i]);
    }
  }

  function Tick(s: State, now: Time): Option<Result> {
    None
  }

  predicate IsTerminal(s: State) {
    s.Board? && s.board.done
  }

  function OnPlayerAbandoned(s: State, p: PlayerId): Outcome<Result> {
    match s
    case Duel(_) => Err(InvalidPayload)
    case Board(b) =>
      if b.done then Ok(Result(s, NoDiff, [], false, None))
      else match SeatOf(b.first, b.second, p)
        case None => Err(NotSeated)
        case Some(seat) =>
          var w := Name(b.first, b.second, Other(seat));
          Ok(Result(Board(b.(done := true, winner := Some(w))),
                    CellDiff(0, 0, "", "", true, w, false, "opponent_abandoned"),
                    ["player_abandoned", "player_won"], true, Some(w)))
  }

  const GAME: Game :=
    Game(2, 2, Init, Validate, ApplyAction, Tick, (s: State) => s.View(), IsTerminal, OnPlayerAbandoned)

  // ----- reachable boards ---------------------------------------------------------------

  /** MoveCount counts the marked cells, and X, who starts, leads O by the odd move. */
  ghost predicate Tally(b: Cells, moves: nat) {
    && moves <= CELLS
    && multiset(b)[Empty] == CELLS - moves
    && multiset(b)[X] == (moves + 1) / 2
    && multiset(b)[O] == moves / 2
  }

  ghost predicate NoLine(b: Cells) {
    !HasLine(b, X) && !HasLine(b, O)
  }

  ghost predicate Live(b: BoardState) {
    !b.done && !b.draw && b.winner.None? && NoLine(b.cells) && b.moveCount < CELLS && b.turn == b.moveCount % 2
  }

  /** Ended by three in a row: it is the last mover's (a win never passes the turn), and only theirs. */
  ghost predicate WonByLine(b: BoardState) {
    && b.done && !b.draw && b.winner == Some(Name(b.first, b.second, b.turn))
    && 0 < b.moveCount && b.turn == (b.moveCount - 1) % 2
    && HasLine(b.cells, MarkOf(b.turn)) && !HasLine(b.cells, MarkOf(Other(b.turn)))
  }

  ghost predicate Drawn(b: BoardState) {
    b.done && b.draw && b.winner.None? && b.moveCount == CELLS && NoLine(b.cells)
  }

  ghost predicate Forfeited(b: BoardState) {
    && b.done && !b.draw && (b.winner == Some(b.first) || b.winner == Some(b.second))
    && NoLine(b.cells) && b.moveCount < CELLS && b.turn == b.moveCount % 2
  }

  /** Every board a game between `ps` can show. */
  ghost predicate Reachable(ps: seq<PlayerId>, b: BoardState) {
    && ps == [b.first, b.second] && b.first != b.second
    && Tally(b.cells, b.moveCount)
    && (Live(b) || WonByLine(b) || Drawn(b) || Forfeited(b))
  }

  ghost predicate Reach(ps: seq<PlayerId>, s: State) {
    s.Board? && Reachable(ps, s.board)
  }

  ghost function Remaining(s: State): nat {
    if s.Board? && !s.board.done && s.board.moveCount < CELLS then CELLS - s.board.moveCount else 0
  }

  /** How a client applies a diff. Fields absent from the JSON leave the view alone, and an
      absent mark means that no cell was played. */
  function Patch(v: Snapshot, d: Diff): Snapshot {
    if !v.BoardView? || !d.CellDiff? then v
    else
      var cell := 3 * d.y + d.x;
      var played := d.mark != "" && 0 <= cell < |v.marks|;
      BoardView(if played then v.marks[cell := d.mark] else v.marks,
                v.names,
                if d.turn != "" then d.turn else v.turn,
                if played then v.moveCount + 1 else v.moveCount,
                v.over || d.terminal,
                v.draw || d.draw,
                if d.winner != "" then d.winner else v.winner)
  }

  ghost const PROMISE: Promise := Promise(Reach, Patch, Remaining, CELLS)

  // ----- proofs -------------------------------------------------------------------------

  /** A move on a board without lines can only complete a line of the mark just placed. */
  lemma OnlyTheMoverCompletesALine(b: Cells, i: nat, m: Mark, n: Mark)
    requires i < CELLS && m != Empty && n != Empty && m != n
    requires NoLine(b)
    ensures !HasLine(b[i := m], n)
  {
    var c: Cells := b[i := m];
    TableIsGeometry(b, n);
    forall k | 0 <= k < LINES && Fills(c, n, k) ensures Fills(b, n, k) {}
    TableIsGeometry(c, n);
  }

  lemma TallyAfter(b: Cells, moves: nat, i: nat, mover: SeatIndex)
    requires i < CELLS && b[i] == Empty && Tally(b, moves) && mover == moves % 2
    ensures Tally(b[i := MarkOf(mover)], moves + 1)
  {
  }

  /** Settling a board on which the player to move has just placed a mark. */
  lemma SettleReaches(ps: seq<PlayerId>, b: BoardState)
    requires ps == [b.first, b.second] && b.first != b.second && Tally(b.cells, b.moveCount)
    requires !b.done && !b.draw && b.winner.None? && 0 < b.moveCount && b.turn == (b.moveCount - 1) % 2
    requires !HasLine(b.cells, MarkOf(Other(b.turn)))
    ensures Reachable(ps, Settle(b))
  {
    WinningMarkExact(b.cells);
  }

  lemma MoveKeepsReach(ps: seq<PlayerId>, b: BoardState, i: nat)
    requires Reachable(ps, b) && !b.done && i < CELLS && b.cells[i] == Empty
    ensures Reachable(ps, Settle(Place(b, i)))
  {
    TallyAfter(b.cells, b.moveCount, i, b.turn);
    OnlyTheMoverCompletesALine(b.cells, i, MarkOf(b.turn), MarkOf(Other(b.turn)));
    SettleReaches(ps, Place(b, i));
  }

  lemma PlacedView(b: BoardState, i: nat)
    requires i < CELLS
    ensures Marks(Place(b, i).cells) == Marks(b.cells)[i := MarkText(MarkOf(b.turn))]
  {
  }

  /** A move that ends the game is published faithfully; it announces no turn. */
  lemma LastDiffFaithful(b: BoardState, a: Action)
    requires Legal(b, a).Ok? && !b.draw && b.winner.None?
    requires var n := Place(b, Legal(b, a).value); WinningMark(n.cells) != Empty || n.moveCount == CELLS
    ensures var r := ApplyAction(Board(b), a).value; r.terminal && Patch(Board(b).View(), r.diff) == r.newState.View()
  {
    PlacedView(b, Legal(b, a).value);
    SettledView(Place(b, Legal(b, a).value));
  }

  lemma PassingDiffFaithfulIff(b: BoardState, a: Action)
    requires Legal(b, a).Ok? && !b.draw && b.winner.None? && b.first != b.second
    requires var n := Place(b, Legal(b, a).value); WinningMark(n.cells) == Empty && n.moveCount != CELLS
    ensures var r := ApplyAction(Board(b), a).value;
            !r.terminal
            && (Patch(Board(b).View(), r.diff) == r.newState.View() <==> Name(b.first, b.second, Other(b.turn)) != "")
  {
    PlacedView(b, Legal(b, a).value);
    SettledView(Place(b, Legal(b, a).value));
  }

  /** A move's diff is faithful exactly when the turn it announces can be written down: an empty
      name is dropped from the JSON and the client keeps showing the previous player's turn. */
  lemma MoveDiffFaithfulIff(ps: seq<PlayerId>, s: State, a: Action)
    requires Reach(ps, s) && ApplyAction(s, a).Ok?
    ensures var r := ApplyAction(s, a).value;
            Patch(s.View(), r.diff) == r.newState.View()
            <==> r.terminal || Name(s.board.first, s.board.second, Other(s.board.turn)) != ""
  {
    var n := Place(s.board, Legal(s.board, a).value);
    if WinningMark(n.cells) != Empty || n.moveCount == CELLS {
      LastDiffFaithful(s.board, a);
    } else {
      PassingDiffFaithfulIff(s.board, a);
    }
  }

  lemma SettledView(b: BoardState)
    requires !b.done && !b.draw && b.winner.None?
    ensures var n := Settle(b);
            && Marks(n.cells) == Marks(b.cells) && n.moveCount == b.moveCount && n.first == b.first && n.second == b.second
            && (WinningMark(b.cells) != Empty ==> n.done && !n.draw && n.turn == b.turn && n.winner.Some?)
            && (WinningMark(b.cells) == Empty && b.moveCount == CELLS ==> n.done && n.draw && n.turn == b.turn && n.winner.None?)
            && (WinningMark(b.cells) == Empty && b.moveCount != CELLS ==>
                  !n.done && !n.draw && n.turn == Other(b.turn) && n.winner.None?)
  {
  }

  lemma MoveCounts(ps: seq<PlayerId>, s: State, a: Action)
    requires Reach(ps, s) && ApplyAction(s, a).Ok?
    ensures var r := ApplyAction(s, a).value;
            && Remaining(r.newState) < Remaining(s) && r.terminal == IsTerminal(r.newState)
            && NameOrNone(r.winner) == r.newState.View().Winner()
  {
  }

  lemma MoveAdvances(ps: seq<PlayerId>, s: State, a: Action)
    requires Reach(ps, s) && ApplyAction(s, a).Ok?
    ensures Advances(GAME, PROMISE, ps, s, ApplyAction(s, a).value)
  {
    MoveKeepsReach(ps, s.board, Legal(s.board, a).value);
    MoveCounts(ps, s, a);
    if Named(ps) {
      NamedAreFaithful(ps, s, a);
    }
  }

  lemma SeatedMovers(ps: seq<PlayerId>, s: State, a: Action)
    requires Reach(ps, s)
    ensures Validate(s, a).None? <==> ApplyAction(s, a).Ok?
    ensures IsTerminal(s) || a.player !in ps ==> Validate(s, a).Some?
  {
  }

  /** What the rules allow: on a live board, the player whose turn it is may mark any empty cell, and
      nothing else is accepted. */
  lemma MoveIsLegalIff(ps: seq<PlayerId>, s: State, a: Action)
    requires Reach(ps, s)
    ensures Validate(s, a).None? <==>
            && Live(s.board) && a.player == ps[s.board.moveCount % 2]
            && a.kind == ACTION_MOVE && a.payload.Move?
            && 0 <= a.payload.x < 3 && 0 <= a.payload.y < 3 && At(s.board.cells, a.payload.x, a.payload.y) == Empty
  {
  }

  /** Why a move is refused, told apart in the order of the checks; ApplyAction refuses for the same reason. */
  lemma MoveIsRefused(ps: seq<PlayerId>, s: State, a: Action)
    requires Reach(ps, s)
    ensures var b, why := s.board, Validate(s, a);
            var mover := Live(b) && a.player == ps[b.moveCount % 2];
            var onBoard := a.payload.Move? && 0 <= a.payload.x < 3 && 0 <= a.payload.y < 3;
            && (why == Some(GameOver) <==> !Live(b))
            && (why == Some(NotSeated) <==> Live(b) && a.player !in ps)
            && (why == Some(NotYourTurn) <==> Live(b) && a.player == ps[1 - b.moveCount % 2])
            && (why == Some(UnknownActionType) <==> mover && a.kind != "ACTION_MOVE")
            && (why == Some(InvalidPayload) <==> mover && a.kind == "ACTION_MOVE" && !onBoard)
            && (why == Some(IllegalMove) <==>
                  mover && a.kind == "ACTION_MOVE" && onBoard && At(b.cells, a.payload.x, a.payload.y) != Empty)
            && (why.Some? ==> ApplyAction(s, a) == Err(why.value))
  {
  }

  /** What is decided by the board a move leads to, on which the mover's mark is `m`. */
  ghost predicate Decided(ps: seq<PlayerId>, n: BoardState, r: Result, p: PlayerId, m: Mark) {
    var line, full := HasLine(n.cells, m), n.moveCount == 9;
    && (n.winner == if line then Some(p) else None) && (n.draw <==> full && !line) && (n.done <==> line || full)
    && r.terminal == n.done && r.winner == n.winner
    && (!n.done ==> n.moveCount < 9 && |ps| == 2 && Name(n.first, n.second, n.turn) == ps[n.moveCount % 2])
    && r.events == [if line then "player_won" else if full then "draw" else "turn_changed"]
  }

  /** What an accepted move does: exactly the named cell gets the mover's mark, X on even moves, O on odd
      ones; three in a row of that mark wins, a full board without is drawn, otherwise it is the other
      player's turn. The events and the diff say so. */
  lemma MoveOutcome(ps: seq<PlayerId>, s: State, a: Action)
    requires Reach(ps, s) && ApplyAction(s, a).Ok?
    ensures var b, r := s.board, ApplyAction(s, a).value;
            var m := if b.moveCount % 2 == 0 then X else O;
            && r.newState.Board? && a.payload.Move? && 0 <= a.payload.x < 3 && 0 <= a.payload.y < 3
            && var n := r.newState.board;
            && n.cells == b.cells[3 * a.payload.y + a.payload.x := m] && n.moveCount == b.moveCount + 1
            && [n.first, n.second] == ps && Decided(ps, n, r, a.player, m)
            && r.diff == CellDiff(a.payload.x, a.payload.y, if m == X then "X" else "O",
                                  if n.done then "" else ps[n.moveCount % 2], n.done,
                                  if n.winner.Some? then a.player else "", n.draw, "")
  {
    var b, i := s.board, Legal(s.board, a).value;
    OnlyTheMoverCompletesALine(b.cells, i, MarkOf(b.turn), MarkOf(Other(b.turn)));
    SettledOutcome(Place(b, i));
  }

  lemma SettledOutcome(b: BoardState)
    requires !b.done && !b.draw && b.winner.None? && b.moveCount <= 9 && !HasLine(b.cells, MarkOf(Other(b.turn)))
    ensures var n, line := Settle(b), HasLine(b.cells, MarkOf(b.turn));
            && n.cells == b.cells && n.moveCount == b.moveCount && n.first == b.first && n.second == b.second
            && (WinningMark(b.cells) != Empty <==> line)
            && n.winner == (if line then Some(Name(b.first, b.second, b.turn)) else None)
            && (n.draw <==> b.moveCount == 9 && !line) && (n.done <==> line || b.moveCount == 9)
            && (!n.done ==> n.turn == Other(b.turn))
  {
    WinningMarkExact(b.cells);
  }

  /** What clients are shown: every cell's mark as "X", "O" or "", the two players in seat order, whose
      turn it is, and how the game stands. */
  lemma SnapshotShows(ps: seq<PlayerId>, s: State)
    requires Reach(ps, s)
    ensures var b, v := s.board, GAME.snapshot(s);
            && v.BoardView? && v.names == ps && |v.marks| == 9
            && (forall i :: 0 <= i < 9 ==>
                  v.marks[i] == match b.cells[i] case X => "X" case O => "O" case Empty => "")
            && v.turn == ps[b.turn] && v.moveCount == b.moveCount && v.over == b.done && v.draw == b.draw
            && v.winner == if b.winner.Some? then b.winner.value else ""
  {
  }

  /** A new game: an empty board, and the player in seat 0 moves first. */
  lemma InitDeals(ps: seq<PlayerId>)
    ensures Init(ps).Ok? <==> |ps| == 2
    ensures |ps| == 2 ==>
              var s := Init(ps).value;
              && s.Board? && [s.board.first, s.board.second] == ps && s.board.turn == 0 && s.board.moveCount == 0
              && (forall i :: 0 <= i < 9 ==> s.board.cells[i] == Empty)
              && !s.board.done && !s.board.draw && s.board.winner.None?
  {
  }

  lemma ActionsAreLawful()
    ensures ActionLaw(GAME, PROMISE)
  {
    forall ps, s, a | PROMISE.reach(ps, s)
      ensures GAME.validate(s, a).None? <==> GAME.applyAction(s, a).Ok?
      ensures GAME.isTerminal(s) || a.player !in ps ==> GAME.validate(s, a).Some?
      ensures GAME.applyAction(s, a).Ok? ==> Advances(GAME, PROMISE, ps, s, GAME.applyAction(s, a).value)
    {
      SeatedMovers(ps, s, a);
      if ApplyAction(s, a).Ok? {
        MoveAdvances(ps, s, a);
      }
    }
  }

  lemma InitReaches(ps: seq<PlayerId>)
    requires |ps| == 2 && NoDuplicates(ps)
    ensures Reach(ps, Init(ps).value)
  {
    var b: Cells := Init(ps).value.board.cells;
    assert b == [Empty, Empty, Empty, Empty, Empty, Empty, Empty, Empty, Empty];
  }

  lemma InitIsLawful()
    ensures InitLaw(GAME, PROMISE)
  {
    forall ps | |ps| == 2 && NoDuplicates(ps)
      ensures PROMISE.reach(ps, Init(ps).value)
    {
      InitReaches(ps);
    }
  }

  lemma AbandonAdvances(ps: seq<PlayerId>, s: State, p: PlayerId)
    requires Reach(ps, s) && !s.board.done && p in ps
    ensures OnPlayerAbandoned(s, p).Ok? && Advances(GAME, PROMISE, ps, s, OnPlayerAbandoned(s, p).value)
    ensures var r := OnPlayerAbandoned(s, p).value;
            var w := if p == ps[0] then ps[1] else ps[0];
            && r.winner == Some(w) && r.terminal && r.events == ["player_abandoned", "player_won"]
            && r.newState == Board(s.board.(done := true, winner := Some(w)))
            && r.diff.CellDiff? && r.diff.reason == "opponent_abandoned" && r.diff.mark == ""
  {
  }

  lemma AbandonIsLawful()
    ensures AbandonLaw(GAME, PROMISE)
  {
    forall ps, s, p | PROMISE.reach(ps, s) && !GAME.isTerminal(s) && p in ps
      ensures OnPlayerAbandoned(s, p).Ok? && Advances(GAME, PROMISE, ps, s, OnPlayerAbandoned(s, p).value)
    {
      AbandonAdvances(ps, s, p);
    }
  }

  lemma TicTacToeIsLawful()
    ensures Lawful(GAME, PROMISE)
  {
    InitIsLawful();
    ActionsAreLawful();
    AbandonIsLawful();
  }

  // ----- when the diffs add up ----------------------------------------------------------

  ghost predicate MovesFaithful(ps: seq<PlayerId>) {
    forall s, a :: Reach(ps, s) && ApplyAction(s, a).Ok? ==>
      Patch(s.View(), ApplyAction(s, a).value.diff) == ApplyAction(s, a).value.newState.View()
  }

  lemma TwoMarksAreNoLine(b: Cells)
    requires forall i :: 2 <= i < CELLS ==> b[i] == Empty
    ensures WinningMark(b) == Empty
  {
  }

  function OpeningMove(ps: seq<PlayerId>): Action
    requires |ps| == 2
  {
    Action(ACTION_MOVE, ps[0], 1, Move(0, 0))
  }

  lemma Opening(ps: seq<PlayerId>) returns (s: State)
    requires |ps| == 2 && NoDuplicates(ps)
    ensures ApplyAction(Init(ps).value, OpeningMove(ps)).Ok?
    ensures s == ApplyAction(Init(ps).value, OpeningMove(ps)).value.newState
    ensures Reach(ps, s) && !s.board.done && s.board.turn == 1 && s.board.moveCount == 1
    ensures forall i :: 1 <= i < CELLS ==> s.board.cells[i] == Empty
  {
    InitReaches(ps);
    var b := Init(ps).value.board;
    MoveKeepsReach(ps, b, 0);
    TwoMarksAreNoLine(Place(b, 0).cells);
    s := Board(Settle(Place(b, 0)));
  }

  lemma NamedAreFaithful(ps: seq<PlayerId>, s: State, a: Action)
    requires Reach(ps, s) && ApplyAction(s, a).Ok? && Named(ps)
    ensures Patch(s.View(), ApplyAction(s, a).value.diff) == ApplyAction(s, a).value.newState.View()
  {
    assert ps[0] != "" && ps[1] != "";
    MoveDiffFaithfulIff(ps, s, a);
  }

  /** The opening move cannot announce the turn of a second player without a name. */
  lemma UnnamedSecondIsMissed(ps: seq<PlayerId>)
    requires |ps| == 2 && NoDuplicates(ps) && ps[1] == ""
    ensures !MovesFaithful(ps)
  {
    InitReaches(ps);
    var _ := Opening(ps);
    MoveDiffFaithfulIff(ps, Init(ps).value, OpeningMove(ps));
  }

  function Reply(ps: seq<PlayerId>): Action
    requires |ps| == 2
  {
    Action(ACTION_MOVE, ps[1], 1, Move(1, 0))
  }

  lemma ReplyPassesTheTurn(ps: seq<PlayerId>, s: State)
    requires |ps| == 2 && Reach(ps, s) && !s.board.done && s.board.turn == 1
    requires s.board.moveCount == 1 && forall i :: 1 <= i < CELLS ==> s.board.cells[i] == Empty
    ensures ApplyAction(s, Reply(ps)).Ok? && !ApplyAction(s, Reply(ps)).value.terminal
  {
    TwoMarksAreNoLine(Place(s.board, 1).cells);
  }

  /** Nor can the reply announce the turn of a first player without one. */
  lemma UnnamedFirstIsMissed(ps: seq<PlayerId>)
    requires |ps| == 2 && NoDuplicates(ps) && ps[0] == ""
    ensures !MovesFaithful(ps)
  {
    var s := Opening(ps);
    ReplyPassesTheTurn(ps, s);
    MoveDiffFaithfulIff(ps, s, Reply(ps));
  }

  /** Whether every move of every game between two players is published faithfully can be read
      off their IDs: both must be non-empty. */
  lemma DiffsFaithfulIffNamed(ps: seq<PlayerId>)
    requires |ps| == 2 && NoDuplicates(ps)
    ensures MovesFaithful(ps) <==> Named(ps)
  {
    if Named(ps) {
      forall s, a | Reach(ps, s) && ApplyAction(s, a).Ok?
        ensures Patch(s.View(), ApplyAction(s, a).value.diff) == ApplyAction(s, a).value.newState.View()
      {
        NamedAreFaithful(ps, s, a);
      }
    } else if ps[1] == "" {
      UnnamedSecondIsMissed(ps);
    } else {
      UnnamedFirstIsMissed(ps);
    }
  }
}
