/** The move policy of the computer opponent, which always plays "O": win,
    else block "X", else take the centre, else the first free corner, else
    the first free cell. A heuristic, not an optimal player. */
module Policy {
  import opened Board

  const Center: Pos := 4

  /** The corners in the order the policy tries them. */
  const Corners: seq<Pos> := [0, 2, 6, 8]

  /** The first free corner from scan position k on, or -1. */
  function FreeCornerFrom(g: Grid, k: nat): (r: int)
    requires k <= |Corners|
    ensures r == -1 <==> forall j :: k <= j < |Corners| ==> g[Corners[j]] != Empty
    ensures r != -1 ==>
      exists m :: k <= m < |Corners| && r == Corners[m] && g[r] == Empty &&
        forall j :: k <= j < m ==> g[Corners[j]] != Empty
    decreases |Corners| - k
  {
    if k == |Corners| then -1
    else if g[Corners[k]] == Empty then Corners[k]
    else FreeCornerFrom(g, k + 1)
  }

  /** The first free cell with index i or more, or -1. */
  function FreeCellFrom(g: Grid, i: nat): (r: int)
    requires i <= 9
    ensures r == -1 <==> forall j :: i <= j < 9 ==> g[j] != Empty
    ensures r != -1 ==> i <= r < 9 && g[r] == Empty && forall j :: i <= j < r ==> g[j] != Empty
    decreases 9 - i
  {
    if i == 9 then -1
    else if g[i] == Empty then i
    else FreeCellFrom(g, i + 1)
  }

  /** getAIMove: -1 only on a full board, and otherwise a free cell. */
  function GetAIMove(g: Grid): (r: int)
    ensures r == -1 <==> Empty !in g
    ensures r != -1 ==> 0 <= r < 9 && g[r] == Empty
  {
    var win := FindWinningMove(g, O);
    if win != -1 then win
    else
      var block := FindWinningMove(g, X);
      if block != -1 then block
      else if g[Center] == Empty then Center
      else
        var corner := FreeCornerFrom(g, 0);
        if corner != -1 then corner
        else FreeCellFrom(g, 0)
  }

  /** The rules of getAIMove in strict priority: a cell that completes a
      line for "O"; else one that completes a line for "X"; else the centre;
      else the first free corner of 0, 2, 6, 8; else the least free cell. */
  lemma AIMovePriority(g: Grid)
    ensures CanComplete(g, O) ==> CompletesSome(g, O, GetAIMove(g)) && GetAIMove(g) == FindWinningMove(g, O)
    ensures !CanComplete(g, O) && CanComplete(g, X) ==>
      CompletesSome(g, X, GetAIMove(g)) && GetAIMove(g) == FindWinningMove(g, X)
    ensures !CanComplete(g, O) && !CanComplete(g, X) && g[Center] == Empty ==> GetAIMove(g) == Center
    ensures !CanComplete(g, O) && !CanComplete(g, X) && g[Center] != Empty &&
            (exists m :: 0 <= m < |Corners| && g[Corners[m]] == Empty) ==>
      exists m :: 0 <= m < |Corners| && GetAIMove(g) == Corners[m] &&
        forall j :: 0 <= j < m ==> g[Corners[j]] != Empty
    ensures !CanComplete(g, O) && !CanComplete(g, X) && g[Center] != Empty &&
            (forall m :: 0 <= m < |Corners| ==> g[Corners[m]] != Empty) ==>
      forall i :: 0 <= i < GetAIMove(g) ==> g[i] != Empty
  {
  }

  /** When "O" can complete a line on a board without a winner, the
      policy's move makes "O" the winner. */
  lemma TakesWin(g: Grid)
    requires CheckWinner(g) == None && CanComplete(g, O)
    ensures 0 <= GetAIMove(g) < 9 && CheckWinner(g[GetAIMove(g) := O]) == Some(O)
  {
    var r := GetAIMove(g);
    AIMovePriority(g);
    WinningPlacement(g, O, r);
  }

  /** When "O" has no winning cell but "X" has one, the policy occupies a
      cell that would have made "X" the winner. */
  lemma Blocks(g: Grid)
    requires CheckWinner(g) == None && !CanComplete(g, O) && CanComplete(g, X)
    ensures 0 <= GetAIMove(g) < 9 && CheckWinner(g[GetAIMove(g) := X]) == Some(X)
  {
    var r := GetAIMove(g);
    AIMovePriority(g);
    WinningPlacement(g, X, r);
  }
}
