/** The game record and its transitions as functions on values: creating a
    game, joining it, a move by a player, the win/draw rule, and the reply of
    the computer opponent. The Engine module performs the same transitions in
    place on a Game object and is specified by these functions. */
module Rules {
  import opened Board
  import opened Policy

  /** The label of the computer opponent in the player2 slot and in the turn. */
  const AI: string := "AI"

  /** The second player slot: empty (null), the computer opponent ("AI"), or
      a person's label. */
  datatype Seat = Open | Computer | Human(name: string)

  /** "waiting", "in-progress", "finished". */
  datatype Status = Waiting | InProgress | Finished

  /** The winner field: null, a player's label, or "draw". */
  datatype Outcome = Undecided | Won(player: string) | Draw

  /** The rejections of joinGame and makeMove (400 and 404 replies). The
      not-in-progress rejection carries the status its message reports. */
  datatype Error =
    | InvalidPosition
    | GameNotFound
    | NotInProgress(current: Status)
    | NotYourTurn
    | PositionTaken
    | GameFull

  datatype Result<T> = Ok(value: T) | Err(error: Error)

  /** The stored game: both players, the board, whose turn it is, the
      status and the winner. */
  datatype Record = Record(
    player1: string,
    player2: Seat,
    cells: Grid,
    currentTurn: string,
    status: Status,
    winner: Outcome)

  /** The label a seat holds; the computer's is "AI". */
  function Label(s: Seat): (name: string)
    requires s != Open
  {
    match s
    case Computer => AI
    case Human(name) => name
  }

  /** The seat a joining label takes: the label "AI" is the computer. */
  function SeatFor(name: string): (s: Seat)
    ensures s != Open && Label(s) == name
    ensures s != Human(AI)
  {
    if name == AI then Computer else Human(name)
  }

  /** What every reachable record satisfies: a game waits exactly while its
      second slot is open, a person is never stored under the computer's
      label, and a finished game has a winner or a draw. */
  predicate WellFormed(g: Record) {
    && (g.status == Waiting <==> g.player2 == Open)
    && g.player2 != Human(AI)
    && (g.status == Finished ==> g.winner != Undecided)
  }

  /** The record createGame stores. */
  function NewRecord(player1: string, isAIGame: bool): (g: Record)
    ensures WellFormed(g)
    ensures g.cells == EmptyGrid && Marked(g.cells) == 0
    ensures g.player1 == player1 && g.currentTurn == player1 && g.winner == Undecided
    ensures isAIGame ==> g.player2 == Computer && g.status == InProgress
    ensures !isAIGame ==> g.player2 == Open && g.status == Waiting
  {
    Record(player1, if isAIGame then Computer else Open, EmptyGrid, player1,
           if isAIGame then InProgress else Waiting, Undecided)
  }

  /** The join check: the slot is taken when it holds a person's label that
      is a non-empty string; an open slot, the computer, or an empty label
      leave it free. */
  predicate SlotTaken(s: Seat) {
    s.Human? && s.name != ""
  }

  /** joinGame on the record found under the id (None: no such game). It
      does not look at the status. */
  function JoinOn(g: Option<Record>, player: string): (r: Result<Record>)
    requires g.Some? ==> WellFormed(g.value)
    ensures g.None? ==> r == Err(GameNotFound)
    ensures g.Some? ==> (r.Err? <==> SlotTaken(g.value.player2))
    ensures g.Some? && r.Err? ==> r.error == GameFull
    ensures r.Ok? ==> WellFormed(r.value)
    ensures r.Ok? ==>
      && r.value.status == InProgress && r.value.player2 != Open && Label(r.value.player2) == player
      && r.value.player1 == g.value.player1 && r.value.cells == g.value.cells
      && r.value.currentTurn == g.value.currentTurn && r.value.winner == g.value.winner
  {
    if g.None? then Err(GameNotFound)
    else if SlotTaken(g.value.player2) then Err(GameFull)
    else Ok(g.value.(player2 := SeatFor(player), status := InProgress))
  }

  /** The player credited with a winning mark: player1 for "X", player2 for
      "O". */
  function Owner(g: Record, m: Mark): (player: string)
    requires g.player2 != Open
  {
    if m == X then g.player1 else Label(g.player2)
  }

  /** The win/draw rule applied after a mark is placed: a uniform line
      finishes the game and credits the owner of the first such line; a
      board with no empty cell finishes it as a draw; otherwise the status
      stays and the winner is written as null. */
  function Settle(g: Record): (r: Record)
    requires g.player2 != Open
    ensures r.(status := g.status, winner := g.winner) == g
    ensures r.status == g.status || r.status == Finished
    ensures g.status != Finished && r.status == Finished ==> r.winner != Undecided
  {
    match CheckWinner(g.cells)
    case Some(m) => g.(status := Finished, winner := Won(Owner(g, m)))
    case None =>
      if Empty !in g.cells then g.(status := Finished, winner := Draw)
      else g.(winner := Undecided)
  }

  /** The win/draw rule in terms of the lines: the first uniform line
      finishes the game and credits its owner; with no uniform line a full
      board is a draw, and otherwise the status stays and no winner is
      recorded. */
  lemma SettleRule(g: Record)
    requires g.player2 != Open
    ensures forall j :: FirstUniform(g.cells, j) ==>
      Settle(g).status == Finished && Settle(g).winner == Won(Owner(g, g.cells[Lines[j].a]))
    ensures (forall j :: 0 <= j < |Lines| ==> !Uniform(g.cells, Lines[j])) && Empty !in g.cells ==>
      Settle(g).status == Finished && Settle(g).winner == Draw
    ensures (forall j :: 0 <= j < |Lines| ==> !Uniform(g.cells, Lines[j])) && Empty in g.cells ==>
      Settle(g).status == g.status && Settle(g).winner == Undecided
  {
    CheckWinnerFindsFirst(g.cells);
    FirstUniformUnique(g.cells);
  }

  /** Only one line is the first uniform one. */
  lemma FirstUniformUnique(g: Grid)
    ensures forall j, k :: FirstUniform(g, j) && FirstUniform(g, k) ==> j == k
  {
  }

  predicate ValidPosition(position: Option<int>) {
    position.Some? && 0 <= position.value <= 8
  }

  /** makeMove on the record found under the id (None: no such game). The
      checks run in the source's order: position, existence, status, turn,
      free cell. An accepted move puts "X" for player1 and "O" for anyone
      else, hands the turn to the other player, and applies the win/draw
      rule. */
  function MoveOn(g: Option<Record>, player: string, position: Option<int>): (r: Result<Record>)
    requires g.Some? ==> WellFormed(g.value)
    ensures r.Ok? ==> WellFormed(r.value)
  {
    if !ValidPosition(position) then Err(InvalidPosition)
    else if g.None? then Err(GameNotFound)
    else
      var rec, p := g.value, position.value;
      if rec.status != InProgress then Err(NotInProgress(rec.status))
      else if rec.currentTurn != player then Err(NotYourTurn)
      else if rec.cells[p] != Empty then Err(PositionTaken)
      else
        var isFirst := player == rec.player1;
        Ok(Settle(rec.(cells := rec.cells[p := if isFirst then X else O],
                       currentTurn := if isFirst then Label(rec.player2) else rec.player1)))
  }

  /** The condition under which makeMove schedules the computer's reply. */
  predicate AIDue(g: Record) {
    g.player2 == Computer && g.currentTurn == AI && g.status == InProgress
  }

  /** The deferred reply of the computer: "O" on the cell the policy picks
      (a pick of -1 writes no cell), the turn back to player1, then the
      win/draw rule. */
  function AIMoveOn(g: Record): (r: Record)
    requires WellFormed(g) && AIDue(g)
    ensures WellFormed(r)
  {
    var p := GetAIMove(g.cells);
    var cells := if p == -1 then g.cells else g.cells[p := O];
    Settle(g.(cells := cells, currentTurn := g.player1))
  }

  /** A move is accepted exactly when every check passes; a rejection names
      the first check that fails, and the status rejection reports the
      current status. */
  lemma MoveChecks(g: Option<Record>, player: string, position: Option<int>)
    requires g.Some? ==> WellFormed(g.value)
    ensures MoveOn(g, player, position).Ok? <==>
      ValidPosition(position) && g.Some? && g.value.status == InProgress &&
      g.value.currentTurn == player && g.value.cells[position.value] == Empty
    ensures !ValidPosition(position) ==> MoveOn(g, player, position) == Err(InvalidPosition)
    ensures ValidPosition(position) && g.None? ==> MoveOn(g, player, position) == Err(GameNotFound)
    ensures ValidPosition(position) && g.Some? && g.value.status != InProgress ==>
      MoveOn(g, player, position) == Err(NotInProgress(g.value.status))
    ensures ValidPosition(position) && g.Some? && g.value.status == InProgress &&
            g.value.currentTurn != player ==>
      MoveOn(g, player, position) == Err(NotYourTurn)
    ensures ValidPosition(position) && g.Some? && g.value.status == InProgress &&
            g.value.currentTurn == player && g.value.cells[position.value] != Empty ==>
      MoveOn(g, player, position) == Err(PositionTaken)
  {
  }

  /** An accepted move changes exactly one cell, from empty to "X" when the
      mover is player1 and to "O" otherwise; no mark is removed or altered,
      and the count of marks rises by one. */
  lemma AcceptedMovePlacesOneMark(g: Record, player: string, p: Pos)
    requires WellFormed(g) && MoveOn(Some(g), player, Some(p)).Ok?
    ensures var n := MoveOn(Some(g), player, Some(p)).value;
      && g.cells[p] == Empty
      && n.cells[p] == (if player == g.player1 then X else O)
      && (forall i :: 0 <= i < 9 && i != p ==> n.cells[i] == g.cells[i])
      && Marked(n.cells) == Marked(g.cells) + 1
  {
    MarkOneMore(g.cells, p, if player == g.player1 then X else O);
  }

  /** On every accepted move, whether or not it ends the game, the turn goes
      to player2 when player1 moved and to player1 otherwise; the players
      themselves do not change. */
  lemma AcceptedMoveHandsOverTurn(g: Record, player: string, p: Pos)
    requires WellFormed(g) && MoveOn(Some(g), player, Some(p)).Ok?
    ensures var n := MoveOn(Some(g), player, Some(p)).value;
      && player == g.currentTurn
      && n.player1 == g.player1 && n.player2 == g.player2
      && n.currentTurn == (if player == g.player1 then Label(g.player2) else g.player1)
  {
  }

  /** After an accepted move the game is finished exactly when some line is
      uniform or no cell is empty; a draw is recorded exactly for a full board
      without a uniform line, and a game that goes on has no winner. */
  lemma AcceptedMoveOutcome(g: Record, player: string, p: Pos)
    requires WellFormed(g) && MoveOn(Some(g), player, Some(p)).Ok?
    ensures var n := MoveOn(Some(g), player, Some(p)).value;
      && (n.status == Finished <==>
           (exists j :: 0 <= j < |Lines| && Uniform(n.cells, Lines[j])) || Empty !in n.cells)
      && (n.winner == Draw <==>
           (forall j :: 0 <= j < |Lines| ==> !Uniform(n.cells, Lines[j])) && Empty !in n.cells)
      && (n.status == InProgress <==> n.winner == Undecided)
      && (CheckWinner(n.cells).Some? ==>
           n.winner == Won(if CheckWinner(n.cells).value == X then g.player1 else Label(g.player2)))
  {
    var n := MoveOn(Some(g), player, Some(p)).value;
    CheckWinnerFindsFirst(n.cells);
    if CheckWinner(n.cells).Some? {
      var j :| FirstUniform(n.cells, j) && CheckWinner(n.cells).value == n.cells[Lines[j].a];
    }
  }

  /** When makeMove schedules the computer's reply, the board still has an
      empty cell, so the reply never picks -1: it marks one empty cell with
      "O", leaves every other cell alone, and gives the turn back to
      player1. */
  lemma ScheduledReplyIsLegal(g: Record, player: string, p: Pos)
    requires WellFormed(g) && MoveOn(Some(g), player, Some(p)).Ok?
    requires AIDue(MoveOn(Some(g), player, Some(p)).value)
    ensures var n := MoveOn(Some(g), player, Some(p)).value;
      var q := GetAIMove(n.cells);
      && 0 <= q < 9 && n.cells[q] == Empty
      && AIMoveOn(n).cells == n.cells[q := O]
      && Marked(AIMoveOn(n).cells) == Marked(n.cells) + 1
      && AIMoveOn(n).currentTurn == n.player1
  {
    var n := MoveOn(Some(g), player, Some(p)).value;
    var placed := g.(cells := g.cells[p := if player == g.player1 then X else O],
                     currentTurn := if player == g.player1 then Label(g.player2) else g.player1);
    assert n == Settle(placed);
    assert Empty in n.cells;
    MarkOneMore(n.cells, GetAIMove(n.cells), O);
  }

  /** An accepted move starts from an in-progress game and leaves it in
      progress or finished; the reply of the computer does the same. No
      move takes a game back to waiting. */
  lemma MovesGoForward(g: Record, player: string, p: Pos)
    requires WellFormed(g)
    ensures MoveOn(Some(g), player, Some(p)).Ok? ==>
      g.status == InProgress && MoveOn(Some(g), player, Some(p)).value.status != Waiting
    ensures AIDue(g) ==> AIMoveOn(g).status != Waiting
  {
  }

  /** joinGame does not look at the status: a finished game whose second
      slot holds the computer is taken back to in-progress by a join. */
  lemma JoinReopensFinishedGame(g: Record, player: string)
    requires WellFormed(g) && g.status == Finished && g.player2 == Computer
    ensures JoinOn(Some(g), player).Ok? && JoinOn(Some(g), player).value.status == InProgress
  {
  }

  /** A run of moves, each of which must be accepted. */
  datatype Turn = Turn(player: string, position: Pos)

  function PlayAll(g: Record, turns: seq<Turn>): (r: Result<Record>)
    requires WellFormed(g)
    ensures r.Ok? ==> WellFormed(r.value)
    decreases |turns|
  {
    if turns == [] then Ok(g)
    else
      match MoveOn(Some(g), turns[0].player, Some(turns[0].position))
      case Err(e) => Err(e)
      case Ok(n) => PlayAll(n, turns[1..])
  }

  /** Over any run of accepted moves the board gains exactly one mark per
      move, so from a new game the marks count the moves. */
  lemma {:induction false} MarksCountMoves(g: Record, turns: seq<Turn>)
    requires WellFormed(g) && PlayAll(g, turns).Ok?
    ensures Marked(PlayAll(g, turns).value.cells) == Marked(g.cells) + |turns|
    decreases |turns|
  {
    if turns != [] {
      var n := MoveOn(Some(g), turns[0].player, Some(turns[0].position)).value;
      AcceptedMovePlacesOneMark(g, turns[0].player, turns[0].position);
      MarksCountMoves(n, turns[1..]);
    }
  }
}
