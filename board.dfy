/** The board evaluator: a 3x3 board as nine cells in row-major order, the
    eight fixed lines through it, the winner check and the search for a cell
    that completes a line. Everything here only reads the board. */
module Board {

  datatype Option<T> = None | Some(value: T)

  /** The content of one cell: the empty string, "X" or "O". */
  datatype Mark = Empty | X | O

  /** A cell index, 0..8, row-major. */
  type Pos = i: int | 0 <= i < 9

  /** The nine cells of a board. */
  type Grid = s: seq<Mark> | |s| == 9
    witness [Empty, Empty, Empty, Empty, Empty, Empty, Empty, Empty, Empty]

  /** A triple of cells that wins when it holds one mark three times. */
  datatype Line = Line(a: Pos, b: Pos, c: Pos)

  /** The eight lines in scan order: rows, then columns, then diagonals. */
  const Lines: seq<Line> := [
    Line(0, 1, 2), Line(3, 4, 5), Line(6, 7, 8),
    Line(0, 3, 6), Line(1, 4, 7), Line(2, 5, 8),
    Line(0, 4, 8), Line(2, 4, 6)
  ]

  const EmptyGrid: Grid := [Empty, Empty, Empty, Empty, Empty, Empty, Empty, Empty, Empty]

  /** The line holds the same non-empty mark in all three cells. */
  predicate Uniform(g: Grid, l: Line) {
    g[l.a] != Empty && g[l.a] == g[l.b] && g[l.a] == g[l.c]
  }

  /** Line j is uniform and no line before it in scan order is. */
  ghost predicate FirstUniform(g: Grid, j: int) {
    0 <= j < |Lines| && Uniform(g, Lines[j]) &&
    forall i :: 0 <= i < j ==> !Uniform(g, Lines[i])
  }

  /** The scan of checkWinner from line k on. */
  function WinnerFrom(g: Grid, k: nat): (r: Option<Mark>)
    requires k <= |Lines|
    ensures r.Some? ==> r.value != Empty
    decreases |Lines| - k
  {
    if k == |Lines| then None
    else if Uniform(g, Lines[k]) then Some(g[Lines[k].a])
    else WinnerFrom(g, k + 1)
  }

  /** checkWinner: the scan over the eight lines from the first. */
  function CheckWinner(g: Grid): (r: Option<Mark>)
    ensures r.Some? ==> r.value != Empty
  {
    WinnerFrom(g, 0)
  }

  /** From line k on, the scan finds None exactly when no line is uniform,
      and otherwise the mark of the first uniform line at or after k. */
  lemma {:induction false} WinnerFromFindsFirst(g: Grid, k: nat)
    requires k <= |Lines|
    ensures WinnerFrom(g, k) == None <==> forall j :: k <= j < |Lines| ==> !Uniform(g, Lines[j])
    ensures WinnerFrom(g, k).Some? ==>
      exists j :: k <= j < |Lines| && Uniform(g, Lines[j]) && WinnerFrom(g, k).value == g[Lines[j].a] &&
        forall i :: k <= i < j ==> !Uniform(g, Lines[i])
    decreases |Lines| - k
  {
    if k < |Lines| && !Uniform(g, Lines[k]) {
      WinnerFromFindsFirst(g, k + 1);
    }
  }

  /** checkWinner returns None exactly when none of the eight lines is
      uniform, and otherwise the mark of the first uniform line in scan
      order, which is never the empty mark. */
  lemma CheckWinnerFindsFirst(g: Grid)
    ensures CheckWinner(g) == None <==> forall j :: 0 <= j < |Lines| ==> !Uniform(g, Lines[j])
    ensures CheckWinner(g).Some? ==> CheckWinner(g).value != Empty
    ensures CheckWinner(g).Some? ==> exists j :: FirstUniform(g, j) && CheckWinner(g).value == g[Lines[j].a]
  {
    WinnerFromFindsFirst(g, 0);
  }

  /** Placing s at cell i would fill line l with s: i is the one empty cell of
      l and the other two cells hold s. */
  predicate Completes(g: Grid, l: Line, s: Mark, i: int) {
    (i == l.a && g[l.a] == Empty && g[l.b] == s && g[l.c] == s) ||
    (i == l.b && g[l.a] == s && g[l.b] == Empty && g[l.c] == s) ||
    (i == l.c && g[l.a] == s && g[l.b] == s && g[l.c] == Empty)
  }

  /** Some line has a cell that s completes. */
  ghost predicate CanComplete(g: Grid, s: Mark) {
    exists j, i :: 0 <= j < |Lines| && Completes(g, Lines[j], s, i)
  }

  /** Cell i completes some line for s. */
  ghost predicate CompletesSome(g: Grid, s: Mark, i: int) {
    exists j :: 0 <= j < |Lines| && Completes(g, Lines[j], s, i)
  }

  /** The three tests of findWinningMove on one line, tried at a, b and c in
      that order: the first cell of l that completes it for s, or -1. */
  function Gap(g: Grid, l: Line, s: Mark): (r: int)
    ensures r != -1 ==> Completes(g, l, s, r)
    ensures r == -1 <==> forall i :: !Completes(g, l, s, i)
    ensures r != -1 && r != l.a ==> !Completes(g, l, s, l.a)
    ensures r != -1 && r != l.a && r != l.b ==> !Completes(g, l, s, l.b)
  {
    if g[l.a] == Empty && g[l.b] == s && g[l.c] == s then
      assert Completes(g, l, s, l.a); l.a
    else if g[l.a] == s && g[l.b] == Empty && g[l.c] == s then
      assert Completes(g, l, s, l.b); l.b
    else if g[l.a] == s && g[l.b] == s && g[l.c] == Empty then
      assert Completes(g, l, s, l.c); l.c
    else -1
  }

  /** The scan of findWinningMove from line k on. */
  function WinningMoveFrom(g: Grid, s: Mark, k: nat): (r: int)
    requires k <= |Lines|
    ensures r == -1 <==> forall j, i :: k <= j < |Lines| ==> !Completes(g, Lines[j], s, i)
    ensures r != -1 ==>
      exists j :: k <= j < |Lines| && r == Gap(g, Lines[j], s) &&
        forall i :: k <= i < j ==> Gap(g, Lines[i], s) == -1
    decreases |Lines| - k
  {
    if k == |Lines| then -1
    else if Gap(g, Lines[k], s) != -1 then Gap(g, Lines[k], s)
    else WinningMoveFrom(g, s, k + 1)
  }

  /** findWinningMove: an empty cell that completes a line for s (the first
      such line in scan order, its cells tried a, b, c), or -1 exactly when no
      line can be completed by s. */
  function FindWinningMove(g: Grid, s: Mark): (r: int)
    ensures r == -1 <==> !CanComplete(g, s)
    ensures r != -1 ==> 0 <= r < 9 && g[r] == Empty && CompletesSome(g, s, r)
    ensures r != -1 ==>
      exists j :: 0 <= j < |Lines| && r == Gap(g, Lines[j], s) &&
        forall i :: 0 <= i < j ==> Gap(g, Lines[i], s) == -1
  {
    WinningMoveFrom(g, s, 0)
  }

  /** For a real mark, a line has at most one completing cell, so the order in
      which findWinningMove tries a, b and c never changes its answer. */
  lemma {:induction false} CompletingCellUnique(g: Grid, l: Line, s: Mark, i: int, i': int)
    requires s != Empty && l.a != l.b && l.b != l.c && l.a != l.c
    requires Completes(g, l, s, i) && Completes(g, l, s, i')
    ensures i == i'
  {
    if i == l.a {
      assert g[l.a] == Empty;
    } else if i == l.b {
      assert g[l.b] == Empty;
    } else {
      assert g[l.c] == Empty;
    }
  }

  /** On a board without a winner, placing s on an empty cell makes s the
      winner exactly when that cell completes a line for s. Together with
      FindWinningMove this says findWinningMove returns -1 exactly when no
      single placement of s wins. */
  lemma WinningPlacement(g: Grid, s: Mark, i: Pos)
    requires s != Empty && g[i] == Empty
    requires CheckWinner(g) == None
    ensures CheckWinner(g[i := s]) == Some(s) <==> CompletesSome(g, s, i)
  {
    var g': Grid := g[i := s];
    CheckWinnerFindsFirst(g');
    if CompletesSome(g, s, i) {
      var j :| 0 <= j < |Lines| && Completes(g, Lines[j], s, i);
      assert Uniform(g', Lines[j]);
      var w := CheckWinner(g');
      var k :| FirstUniform(g', k) && w.value == g'[Lines[k].a];
      UniformThroughPlacement(g, s, i, k);
    } else if CheckWinner(g').Some? {
      var k :| FirstUniform(g', k) && CheckWinner(g').value == g'[Lines[k].a];
      UniformThroughPlacement(g, s, i, k);
    }
  }

  /** A line that becomes uniform when s is placed on cell i of a board
      without a winner runs through i, holds s, and was completed by i. */
  lemma UniformThroughPlacement(g: Grid, s: Mark, i: Pos, j: int)
    requires s != Empty && g[i] == Empty && CheckWinner(g) == None
    requires 0 <= j < |Lines| && Uniform(g[i := s], Lines[j])
    ensures Completes(g, Lines[j], s, i) && g[i := s][Lines[j].a] == s
  {
    CheckWinnerFindsFirst(g);
    var l := Lines[j];
    assert !Uniform(g, l);
  }

  /** The number of marked cells of a board. */
  function Marked(s: seq<Mark>): (n: nat)
    ensures n <= |s|
  {
    if s == [] then 0 else (if s[0] != Empty then 1 else 0) + Marked(s[1..])
  }

  /** Marking one empty cell raises the count of marked cells by one. */
  lemma {:induction false} MarkOneMore(s: seq<Mark>, p: int, m: Mark)
    requires 0 <= p < |s| && s[p] == Empty && m != Empty
    ensures Marked(s[p := m]) == Marked(s) + 1
  {
    if p == 0 {
      assert s[p := m][1..] == s[1..];
    } else {
      MarkOneMore(s[1..], p - 1, m);
      assert s[p := m][1..] == s[1..][p - 1 := m];
    }
  }

  /** Every cell is marked exactly when the count of marked cells is the
      number of cells, so "no empty cell remains" is "nine marks placed". */
  lemma {:induction false} FullIffAllMarked(s: seq<Mark>)
    ensures Empty !in s <==> Marked(s) == |s|
  {
    if s != [] {
      FullIffAllMarked(s[1..]);
      assert s == [s[0]] + s[1..];
    }
  }
}
