/** The game controller's state changes, performed in place on a stored Game:
    createGame (the constructor), joinGame, makeMove and the deferred reply of
    the computer opponent. Each is specified by the matching function of the
    Rules module on a snapshot of the game. */
module Engine {
  import opened Board
  import opened Policy
  import opened Rules

  /** The answer of joinGame and makeMove: success, or the rejection sent back
      to the caller. */
  datatype Verdict = Accepted | Rejected(error: Error)

  /** A stored game, updated field by field and cell by cell. */
  class Game {
    var player1: string
    var player2: Seat
    var board: array<Mark>
    var currentTurn: string
    var status: Status
    var winner: Outcome

    ghost predicate Valid()
      reads this, board
      ensures Valid() ==> board.Length == 9
    {
      board.Length == 9 && WellFormed(Snapshot())
    }

    /** The game as a value. */
    function Snapshot(): (r: Record)
      reads this, board
      requires board.Length == 9
    {
      Record(player1, player2, board[..], currentTurn, status, winner)
    }

    /** createGame: nine empty cells, player1 to move, the computer in the
        second slot for an AI game and nobody otherwise; the game is stored
        as waiting and then set in progress when it is an AI game. */
    constructor (player1: string, isAIGame: bool)
      ensures Valid() && fresh(board)
      ensures Snapshot() == NewRecord(player1, isAIGame)
    {
      this.player1 := player1;
      player2 := if isAIGame then Computer else Open;
      board := new Mark[9](_ => Empty);
      currentTurn := player1;
      status := Waiting;
      winner := Undecided;
      new;
      if isAIGame {
        status := InProgress;
      }
    }

    /** The win/draw rule after a placement, written into status and winner. */
    method Conclude()
      requires board.Length == 9 && player2 != Open
      modifies this`status, this`winner
      ensures Snapshot() == Settle(old(Snapshot()))
    {
      var w := CheckWinner(board[..]);
      if w.Some? {
        status := Finished;
        winner := Won(if w.value == X then player1 else Label(player2));
      } else if Empty !in board[..] {
        status := Finished;
        winner := Draw;
      } else {
        winner := Undecided;
      }
    }
  }

  /** The record a lookup by id finds; null stands for a missing game. */
  function Found(game: Game?): (r: Option<Record>)
    reads if game == null then {} else {game, game.board}
    requires game != null ==> game.board.Length == 9
  {
    if game == null then None else Some(game.Snapshot())
  }

  /** The answer r and the state after agree with the specified result: an
      accepted operation stores the new record, a rejected one leaves the
      game as it was. */
  predicate Reports(res: Result<Record>, r: Verdict, before: Option<Record>, after: Option<Record>) {
    match res
    case Ok(next) => r == Accepted && after == Some(next)
    case Err(e) => r == Rejected(e) && after == before
  }

  /** joinGame on the game found under the id. */
  method JoinGame(game: Game?, player: string) returns (r: Verdict)
    requires game != null ==> game.Valid()
    modifies game
    ensures game != null ==> game.Valid() && game.board == old(game.board)
    ensures Reports(JoinOn(old(Found(game)), player), r, old(Found(game)), Found(game))
  {
    if game == null {
      return Rejected(GameNotFound);
    }
    // The slot counts as taken only when it holds a truthy label other than "AI".
    if game.player2.Human? && game.player2.name != "" {
      return Rejected(GameFull);
    }
    game.player2 := SeatFor(player);
    game.status := InProgress;
    r := Accepted;
  }

  /** makeMove on the game found under the id. aiDue says whether the
      computer's reply is scheduled. */
  method MakeMove(game: Game?, player: string, position: Option<int>) returns (r: Verdict, aiDue: bool)
    requires game != null ==> game.Valid()
    modifies game, if game == null then {} else {game.board}
    ensures game != null ==> game.Valid() && game.board == old(game.board)
    ensures Reports(MoveOn(old(Found(game)), player, position), r, old(Found(game)), Found(game))
    ensures aiDue <==> game != null && r == Accepted && AIDue(game.Snapshot())
  {
    if position.None? || position.value < 0 || position.value > 8 {
      return Rejected(InvalidPosition), false;
    }
    if game == null {
      return Rejected(GameNotFound), false;
    }
    if game.status != InProgress {
      return Rejected(NotInProgress(game.status)), false;
    }
    if game.currentTurn != player {
      return Rejected(NotYourTurn), false;
    }
    var p := position.value;
    if game.board[p] != Empty {
      return Rejected(PositionTaken), false;
    }
    game.board[p] := if player == game.player1 then X else O;
    game.currentTurn := if player == game.player1 then Label(game.player2) else game.player1;
    game.Conclude();
    r := Accepted;
    aiDue := game.player2 == Computer && game.currentTurn == AI && game.status == InProgress;
  }

  /** The deferred reply of the computer, run on the game makeMove left.
      pos is the cell the policy picked. */
  method AIMove(game: Game) returns (pos: int)
    requires game.Valid() && AIDue(game.Snapshot())
    modifies game, game.board
    ensures game.Valid() && game.board == old(game.board)
    ensures pos == GetAIMove(old(game.board[..]))
    ensures game.Snapshot() == AIMoveOn(old(game.Snapshot()))
  {
    pos := GetAIMove(game.board[..]);
    // Writing "O" at index -1 of the board array touches no cell.
    if pos != -1 {
      game.board[pos] := O;
    }
    game.currentTurn := game.player1;
    game.Conclude();
  }
}
