# Tic-tac-toe game engine

A Dafny model of the game engine of a tic-tac-toe server: the board
evaluator (`checkWinner`, `findWinningMove`), the move policy of the computer
opponent (`getAIMove`) and the state machine behind `createGame`, `joinGame`
and `makeMove`. That state machine includes the deferred reply of the
computer. All of it lives in `backend/src/controllers/gameController.js`.

- `board.dfy`, module `Board`. A board is nine cells (`Empty`, `X`, `O`) in
  row-major order, and the eight lines are kept in the source's scan order.
  `CheckWinner` and `FindWinningMove` are recursive scans over the line list,
  one call per loop iteration. What they find is stated in terms of the lines
  (`Uniform`, `Completes`), including the scan order: for `FindWinningMove`
  in its contract, for `CheckWinner` in the lemma `CheckWinnerFindsFirst`.
- `policy.dfy`, module `Policy`. `GetAIMove` applies five rules in this
  order: win, block, centre, corners 0/2/6/8, first free cell. Its contract
  states the -1 result and the fact that any other result is a free cell.
  The lemma `AIMovePriority` states each rule. The win and block rules name
  the cell through `FindWinningMove`, whose contract carries the line order
  and the a/b/c order. The centre, corner and free-cell rules are stated on
  the board itself.
- `rules.dfy`, module `Rules`. This module holds the stored game as a value
  (`Record`) and one function per transition: `NewRecord`, `JoinOn`, `MoveOn`,
  `AIMoveOn` and `Settle` (the win/draw rule). The lemmas state the
  properties the controller promises: the rejection order, one mark per
  accepted move, the turn hand-over, the outcome, and the legality of the
  scheduled reply.
- `engine.dfy`, module `Engine`. `Game` is a class with the record's fields
  and a `board: array<Mark>` that the methods write in place:
  - the constructor models `createGame`;
  - `JoinGame` models `joinGame`;
  - `MakeMove` models `makeMove`;
  - `AIMove` models the body of the deferred reply.

  Each method's postcondition ties the game's new snapshot to the matching
  `Rules` function. A lookup that finds no game is passed in as `null`.
- `scenarios.dfy`, module `Scenarios`. Short games played through the
  engine's methods, plus facts about specific boards: an AI game where the
  computer answers an opening in corner 0 with the centre, a refused second join and
  a refused out-of-turn move, a top-row win and a draw.

The following behaviour is kept exactly as the controller has it, even where
a cleaner design would differ:
- `createGame` accepts any label for player1, including the empty string.
- `makeMove` checks the position before it looks the game up. For an integer
  position, or a missing one, the checks run in this order: position,
  existence, status, turn, free cell. Other JSON values take a different
  path, described under "Left out".
- `joinGame` never looks at the status. The slot counts as taken only when
  player2 holds a non-empty label other than "AI" (JavaScript truthiness). So
  anyone can join a game that is open or played against the computer, which
  replaces the computer, and the join then sets the status to in-progress.
  This can reopen a finished game (`Rules.JoinReopensFinishedGame`).
- The turn passes to the other player on every accepted move, also on the
  move that ends the game.
- A move that does not end the game writes the winner as null.
- In the reply of the computer, a policy result of -1 writes no cell. In the
  source, `board[-1] = "O"` sets a property, not a cell. The lemma
  `Rules.ScheduledReplyIsLegal` shows that this cannot happen when the reply
  was scheduled by a move.

## Model

| member | source | states |
|---|---|---|
| Board.CheckWinner | backend/src/controllers/gameController.js:311-330 | the result is None or a non-empty mark; which one it finds (None exactly when no line is uniform, otherwise the first uniform line in scan order) is stated by Board.CheckWinnerFindsFirst |
| Board.WinnerFromFindsFirst | backend/src/controllers/gameController.js:323-329 | the scan from line k on returns None exactly when no line from k on is uniform; otherwise the mark of the first uniform line at or after k |
| Board.CheckWinnerFindsFirst | backend/src/controllers/gameController.js:311-330 | None exactly when none of the eight lines is uniform; otherwise a non-empty mark, which is the mark of the first uniform line in scan order |
| Board.Gap | backend/src/controllers/gameController.js:297-305 | the per-line test returns a cell that completes the line for s, or -1 exactly when no cell of the line does; cells are tried a, then b, then c |
| Board.WinningMoveFrom | backend/src/controllers/gameController.js:296-308 | -1 exactly when no line from k on has a completing cell; otherwise the per-line answer of the first line that has one |
| Board.FindWinningMove | backend/src/controllers/gameController.js:284-309 | -1 exactly when s can complete no line; any other result is an empty cell in 0..8 whose other two line-mates hold s, taken from the first such line in scan order |
| Board.CompletingCellUnique | backend/src/controllers/gameController.js:297-305 | for a real mark, a line has at most one completing cell, so the a/b/c order never changes the answer |
| Board.WinningPlacement | backend/src/controllers/gameController.js:284-330 | on a board without a winner, placing s on an empty cell makes checkWinner return s exactly when that cell completes a line for s |
| Board.MarkOneMore | backend/src/controllers/gameController.js:166-171 | marking one empty cell raises the count of marked cells by exactly one |
| Board.FullIffAllMarked | backend/src/controllers/gameController.js:181 | "no empty cell remains" holds exactly when every cell is marked |
| Policy.FreeCornerFrom | backend/src/controllers/gameController.js:268-272 | -1 exactly when no corner from scan position k on is free; otherwise the first free corner in the order 0, 2, 6, 8 |
| Policy.FreeCellFrom | backend/src/controllers/gameController.js:274-279 | -1 exactly when no cell from i on is free; otherwise the least free index |
| Policy.GetAIMove | backend/src/controllers/gameController.js:256-282 | -1 exactly on a full board; otherwise a free cell in 0..8 |
| Policy.AIMovePriority | backend/src/controllers/gameController.js:256-282 | the rules by priority: if O can complete a line, the cell findWinningMove returns for O (first such line in scan order, cells tried a, b, c), which completes a line for O; else, if X can, the cell it returns for X, else 4 if free, else the first free corner of 0, 2, 6, 8, else the least free index |
| Policy.TakesWin | backend/src/controllers/gameController.js:257-259 | on a board without a winner where O can complete a line, playing the policy's cell makes O the winner |
| Policy.Blocks | backend/src/controllers/gameController.js:261-263 | when O cannot win but X can, the policy takes a cell on which X would have won |
| Rules.SeatFor | backend/src/controllers/gameController.js:94 | a joining label takes a seat that is not open and carries that label back; the label "AI" becomes the computer seat |
| Rules.NewRecord | backend/src/controllers/gameController.js:43-65 | a new game has nine empty cells, player1 to move and no winner. In an AI game the computer holds seat 2 and the game is in progress; otherwise seat 2 is open and the game is waiting |
| Rules.JoinOn | backend/src/controllers/gameController.js:84-95 | a missing game is not found; otherwise the join is refused exactly when seat 2 holds a non-empty human label, and then always as game full. An accepted join seats the joiner, sets in-progress whatever the status was, keeps board, player1, turn and winner, and yields a well-formed record |
| Rules.Settle | backend/src/controllers/gameController.js:174-184 | only status and winner change; the status stays or becomes finished, and a game that becomes finished always gets a winner or a draw |
| Rules.SettleRule | backend/src/controllers/gameController.js:174-184 | a uniform line finishes the game and credits player1 for X and player2 for O (first uniform line). A full board without one is a draw. Otherwise the status stays and the winner is null |
| Rules.MoveOn | backend/src/controllers/gameController.js:138-184 | an accepted move yields a well-formed record |
| Rules.AIMoveOn | backend/src/controllers/gameController.js:216-228 | the computer's reply yields a well-formed record |
| Rules.MoveChecks | backend/src/controllers/gameController.js:138-168 | a move is accepted exactly when all five checks pass. A rejection names the first check that fails, in the order position, existence, status (reporting the current status), turn, free cell |
| Rules.AcceptedMovePlacesOneMark | backend/src/controllers/gameController.js:166-171 | an accepted move changes exactly one cell, from empty to X for player1 and to O for anyone else; all other cells are unchanged and the mark count rises by one |
| Rules.AcceptedMoveHandsOverTurn | backend/src/controllers/gameController.js:157-172 | the mover held the turn. The turn passes to player2 when player1 moved and to player1 otherwise, whatever the outcome. Neither player changes |
| Rules.AcceptedMoveOutcome | backend/src/controllers/gameController.js:174-184 | after an accepted move the game is finished exactly when a line is uniform or the board is full. The winner is player1 when checkWinner finds X and player2 when it finds O. A draw is recorded exactly for a full board with no uniform line. The game goes on exactly when no winner is recorded |
| Rules.ScheduledReplyIsLegal | backend/src/controllers/gameController.js:209-228 | when a move schedules the computer's reply, the policy picks a free cell in 0..8. The reply writes O there only, adds exactly one mark and gives the turn back to player1 |
| Rules.MovesGoForward | backend/src/controllers/gameController.js:151-184 | an accepted move starts from an in-progress game, and neither a move nor the computer's reply leaves a game waiting |
| Rules.JoinReopensFinishedGame | backend/src/controllers/gameController.js:88-95 | a finished game against the computer can be joined, and the join sets it back to in-progress |
| Rules.PlayAll | backend/src/controllers/gameController.js:133-184 | a run of accepted moves keeps the record well formed |
| Rules.MarksCountMoves | backend/src/controllers/gameController.js:166-171 | over any run of accepted moves the board gains exactly one mark per move |
| Engine.Game.constructor | backend/src/controllers/gameController.js:43-65 | createGame stores the record NewRecord describes on a fresh nine-cell board |
| Engine.Game.Conclude | backend/src/controllers/gameController.js:174-184 | writes status and winner as Settle prescribes; the board is untouched |
| Engine.JoinGame | backend/src/controllers/gameController.js:76-96 | the answer and the stored game follow JoinOn. A rejection (no game, or game full) leaves the game unchanged |
| Engine.MakeMove | backend/src/controllers/gameController.js:133-213 | the answer and the stored game follow MoveOn, and every rejection leaves the game unchanged. The reply is scheduled exactly when seat 2 is the computer, the turn is "AI" and the game is in progress |
| Engine.AIMove | backend/src/controllers/gameController.js:215-228 | plays the policy's cell for O in place; the stored game becomes AIMoveOn of the game before |
| Scenarios.CornerOpening | backend/src/controllers/gameController.js:256-282 | after X opens in corner 0 there is no winner, and the policy answers in the centre |
| Scenarios.CornerOpeningMove | backend/src/controllers/gameController.js:133-184 | in a new AI game, player1's move to cell 0 is accepted, places X there, passes the turn to "AI" and leaves the game in progress with no winner |
| Scenarios.CornerOpeningReply | backend/src/controllers/gameController.js:216-228 | the computer answers that opening with O in the centre, gives the turn back to player1, and the game goes on |
| Scenarios.TopRowMove | backend/src/controllers/gameController.js:170-184 | for any player2 label other than "AI" (the empty one included), on X X _ / O O _ / _ _ _, player1's move to cell 2 completes the top row: the game is finished with player1 as the winner, and the turn still passes to player2 |
| Scenarios.DrawMove | backend/src/controllers/gameController.js:174-184 | for any player2 label other than "AI", X on the last free cell of X O X / X O O / O X _ fills the board with no uniform line, and the game ends in a draw |

## Left out

- Socket.IO room handling (`setupSocketHandlers`) and every broadcast
  (`emit`): these are message I/O with no effect on the game record.
- The 500 ms timer and the async/await sequencing. The reply of the computer
  is the separate method `Engine.AIMove`, called after `MakeMove` reports
  it is due, and it runs only while the stored game is still due
  (`AIDue`). In the source the timer callback always fires. It works on the
  `game` object and the parsed `board` copy that the move itself loaded
  (lines 163 and 216-236). It then writes that stale board, turn and status
  back over whatever was stored in between, because a join or a move loads
  an object of its own (line 81) and cannot touch the captured copy. The
  model does not capture two consequences of this:
  - a join that replaced the computer with a person still gets an "O" played
    into the game and the turn handed to player1;
  - a move sent under the label "AI" before the timer fires is accepted
    (lines 158 and 171-172), and is then erased by the stale board.
- `uuidv4` ids and the JSON encoding of the board. A game is an object
  reference (`null` when the lookup fails) and the board is nine cells.
- `getGameState`: a plain read of the stored game.
- `backend/src/models/gameModel.js` and `backend/src/db/index.js` (the
  PostgreSQL store) are not part of this model. Storage is the in-memory
  `Game` object. The store has no winner column, so the winner written by
  the controller is kept as a field of the record. A join does not pass a
  winner, so the model leaves it as it was.
- The 500-status catch paths: they report storage failures only.
- Input shapes that JavaScript allows but this model types away:
  - a position that is `null`, a boolean, a string or a non-integer number.
    Positions are integers, and a missing (`undefined`) position is `None`.
    JavaScript compares `null`, `true` and `false` as 0, 1 and 0, so they
    pass the range test at line 138. The same holds for a non-integer number
    in 0..8 and for a string whose number is in 0..8 or is not a number.
    Such a position is then refused as "Position already taken" at line 167,
    because `board[position]` is not a cell and reads `undefined`. That
    refusal comes only after the existence, status and turn checks, so a
    missing game answers 404 first. A numeric string such as `"3"` does index
    cell 3 and behaves like the integer;
  - a missing player label (labels are strings).
