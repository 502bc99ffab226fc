/** Games played through the Engine's methods, showing what a caller can
    conclude from their contracts alone. */
module Scenarios {
  import opened Board
  import opened Policy
  import opened Rules
  import opened Engine

  /** After "X" opens in corner 0 there is no winner, and the policy answers
      in the centre. */
  lemma CornerOpening()
    ensures CheckWinner(EmptyGrid[0 := X]) == None
    ensures GetAIMove(EmptyGrid[0 := X]) == Center
  {
    var b: Grid := EmptyGrid[0 := X];
    assert b == [X, Empty, Empty, Empty, Empty, Empty, Empty, Empty, Empty];
    forall j | 0 <= j < |Lines| ensures Gap(b, Lines[j], O) == -1 && Gap(b, Lines[j], X) == -1 {
    }
  }

  /** A placement that neither completes a line nor fills the board leaves
      status and winner as they were, when no winner was recorded. */
  lemma QuietSettle(g: Record)
    requires g.player2 != Open && g.winner == Undecided
    requires CheckWinner(g.cells) == None && Empty in g.cells
    ensures Settle(g) == g
  {
  }

  /** In a new AI game, player1's move to cell 0 is accepted and leaves the
      game in progress with the turn at "AI". */
  lemma CornerOpeningMove(p1: string)
    ensures MoveOn(Some(NewRecord(p1, true)), p1, Some(0))
         == Ok(Record(p1, Computer, EmptyGrid[0 := X], AI, InProgress, Undecided))
  {
    var placed := Record(p1, Computer, EmptyGrid[0 := X], AI, InProgress, Undecided);
    assert CheckWinner(placed.cells) == None by {
      CornerOpening();
    }
    assert Empty in placed.cells by {
      assert placed.cells[1] == Empty;
    }
    QuietSettle(placed);
  }

  /** The computer's reply to that opening takes the centre, hands the turn
      back to player1, and the game goes on. */
  lemma CornerOpeningReply(p1: string)
    ensures AIMoveOn(Record(p1, Computer, EmptyGrid[0 := X], AI, InProgress, Undecided))
         == Record(p1, Computer, EmptyGrid[0 := X][4 := O], p1, InProgress, Undecided)
  {
    var b: Grid := [X, Empty, Empty, Empty, O, Empty, Empty, Empty, Empty];
    assert CheckWinner(b) == None && b[1] == Empty;
    assert EmptyGrid[0 := X][4 := O] == b;
    var next := Record(p1, Computer, b, p1, InProgress, Undecided);
    QuietSettle(next);
    CornerOpening();
  }

  /** An AI game: the creator opens in corner 0, the computer answers in the
      centre and hands the turn back. */
  method AIGameOpening() {
    var game := new Game("Ana", true);
    CornerOpeningMove("Ana");
    var r, due := MakeMove(game, "Ana", Some(0));
    ghost var afterOpening := Record("Ana", Computer, EmptyGrid[0 := X], AI, InProgress, Undecided);
    assert game.Snapshot() == afterOpening;
    assert r == Accepted && due;
    CornerOpeningReply("Ana");
    CornerOpening();
    var q := AIMove(game);
    assert q == Center;
    assert game.board[0] == X && game.board[4] == O && game.currentTurn == "Ana";
  }

  /** The board X X _ / O O _ / _ _ _ has no uniform line; "X" on cell 2
      completes the top row. */
  lemma TopRowBoards()
    ensures CheckWinner([X, X, Empty, O, O, Empty, Empty, Empty, Empty]) == None
    ensures CheckWinner([X, X, X, O, O, Empty, Empty, Empty, Empty]) == Some(X)
  {
  }

  /** In a two-player game with that board and player1 to move, the move to
      cell 2 finishes the game with player1 as the winner; the turn still
      passes to player2. */
  lemma TopRowMove(p1: string, p2: string)
    requires p2 != AI
    ensures MoveOn(Some(Record(p1, Human(p2), [X, X, Empty, O, O, Empty, Empty, Empty, Empty],
                               p1, InProgress, Undecided)), p1, Some(2))
         == Ok(Record(p1, Human(p2), [X, X, X, O, O, Empty, Empty, Empty, Empty], p2, Finished, Won(p1)))
  {
    var w: Grid := [X, X, X, O, O, Empty, Empty, Empty, Empty];
    var placed := Record(p1, Human(p2), w, p2, InProgress, Undecided);
    assert Settle(placed) == placed.(status := Finished, winner := Won(p1)) by {
      TopRowBoards();
    }
    assert [X, X, Empty, O, O, Empty, Empty, Empty, Empty][2 := X] == w;
  }

  /** X O X / X O O / O X _ with player1 to move: "X" on cell 8 fills the
      board without completing any line, and the game ends in a draw. */
  lemma DrawMove(p1: string, p2: string)
    requires p2 != AI
    ensures MoveOn(Some(Record(p1, Human(p2), [X, O, X, X, O, O, O, X, Empty],
                               p1, InProgress, Undecided)), p1, Some(8))
         == Ok(Record(p1, Human(p2), [X, O, X, X, O, O, O, X, X], p2, Finished, Draw))
  {
    var b: Grid := [X, O, X, X, O, O, O, X, Empty];
    var f: Grid := b[8 := X];
    assert f == [X, O, X, X, O, O, O, X, X];
    assert CheckWinner(f) == None;
    assert Empty !in f;
  }

  /** Two people: a second join is refused, and a move out of turn is
      refused and changes nothing. */
  method TwoPlayerJoin() {
    var game := new Game("Ana", false);
    var j := JoinGame(game, "Ben");
    assert j == Accepted && game.status == InProgress && game.player2 == Human("Ben");
    var again := JoinGame(game, "Cy");
    assert again == Rejected(GameFull);
    ghost var before := game.Snapshot();
    var r, due := MakeMove(game, "Ben", Some(0));
    assert r == Rejected(NotYourTurn) && game.Snapshot() == before;
  }

  /** A stored two-player game with the board X X _ / O O _ / _ _ _ and
      player1 to move: the move to cell 2 wins for player1. */
  method TopRowWin() {
    var game := new Game("Ana", false);
    var j := JoinGame(game, "Ben");
    game.board[0], game.board[1], game.board[3], game.board[4] := X, X, O, O;
    assert game.board[..] == [X, X, Empty, O, O, Empty, Empty, Empty, Empty];
    assert game.Snapshot() == Record("Ana", Human("Ben"), [X, X, Empty, O, O, Empty, Empty, Empty, Empty],
                                     "Ana", InProgress, Undecided);
    TopRowMove("Ana", "Ben");
    var r, due := MakeMove(game, "Ana", Some(2));
    assert r == Accepted && game.status == Finished && game.winner == Won("Ana");
    assert game.currentTurn == "Ben" && !due;
  }
}
