/**
 The pure game rules of the tic-tac-toe Board component: the eight winning
 lines, the winner search (`calculateWinner`), the draw test, the status
 selection shown above the grid, and the marker counts that the turn flag
 keeps in balance.
 */
module GameRules {

  datatype Option<T> = None | Some(value: T)

  /** The two markers a player can place. */
  datatype Marker = X | O

  /** A cell of the grid: None while empty (the source's null), Some(m) once marker m is placed. */
  type Square = Option<Marker>

  /** An index of the grid, row-major: index = row * 3 + col. */
  type Cell = i: int | 0 <= i < 9

  /** The nine squares of the grid. */
  type Squares = s: seq<Square> | |s| == 9
    witness seq(9, _ => None)

  /** The grid at the start of a game: nine empty squares. */
  const EmptySquares: Squares := seq(9, _ => None)

  /** The marker that moves when the turn flag is `xIsNext`. */
  function Mover(xIsNext: bool): Marker {
    if xIsNext then X else O
  }

  function Other(m: Marker): (r: Marker)
    ensures r != m
  {
    if m == X then O else X
  }

  /** The eight winning lines in the order the search visits them: rows, then columns, then diagonals. */
  const Lines: seq<(Cell, Cell, Cell)> := [
    (0, 1, 2), (3, 4, 5), (6, 7, 8),
    (0, 3, 6), (1, 4, 7), (2, 5, 8),
    (0, 4, 8), (2, 4, 6)
  ]

  /** Line k holds three equal, non-empty squares. */
  predicate LineComplete(b: Squares, k: int)
    requires 0 <= k < |Lines|
  {
    var (p, q, r) := Lines[k];
    b[p].Some? && b[p] == b[q] && b[p] == b[r]
  }

  /** The marker on the first square of line k. */
  function LineOwner(b: Squares, k: int): Square
    requires 0 <= k < |Lines|
  {
    b[Lines[k].0]
  }

  /** Line j is the first complete line at or after line `from`. */
  predicate FirstCompleteFrom(b: Squares, from: int, j: int)
    requires 0 <= from
  {
    from <= j < |Lines| && LineComplete(b, j) &&
    forall i :: from <= i < j ==> !LineComplete(b, i)
  }

  /** Marker m owns some complete line of b. */
  predicate HasLine(b: Squares, m: Marker) {
    exists k :: 0 <= k < |Lines| && LineComplete(b, k) && LineOwner(b, k) == Some(m)
  }

  /** The search of `calculateWinner` from line k on. */
  function WinnerFrom(b: Squares, k: nat): Option<Marker>
    requires k <= |Lines|
    decreases |Lines| - k
  {
    if k == |Lines| then None
    else if LineComplete(b, k) then LineOwner(b, k)
    else WinnerFrom(b, k + 1)
  }

  /**
   `calculateWinner`: the marker of the first complete line in the order
   rows, columns, diagonals; None when no line is complete.
   */
  function CalculateWinner(b: Squares): Option<Marker> {
    WinnerFrom(b, 0)
  }

  /**
   The search from line k finds the owner of the first complete line at or
   after k, and finds nothing exactly when lines k.. are all incomplete.
   */
  lemma {:induction false} WinnerFromIsFirstComplete(b: Squares, k: nat)
    requires k <= |Lines|
    ensures WinnerFrom(b, k).None? <==> forall j :: k <= j < |Lines| ==> !LineComplete(b, j)
    ensures WinnerFrom(b, k).Some? ==>
      exists j :: FirstCompleteFrom(b, k, j) && WinnerFrom(b, k) == LineOwner(b, j)
    decreases |Lines| - k
  {
    if k < |Lines| {
      WinnerFromIsFirstComplete(b, k + 1);
      if LineComplete(b, k) {
        assert FirstCompleteFrom(b, k, k);
      } else if WinnerFrom(b, k + 1).Some? {
        var j :| FirstCompleteFrom(b, k + 1, j) && WinnerFrom(b, k + 1) == LineOwner(b, j);
        assert FirstCompleteFrom(b, k, j);
      }
    }
  }

  /**
   `calculateWinner` returns a marker exactly when some line is complete,
   and then it is the owner of the first complete line.
   */
  lemma CalculateWinnerIsFirstComplete(b: Squares)
    ensures CalculateWinner(b).Some? <==> exists k :: 0 <= k < |Lines| && LineComplete(b, k)
    ensures CalculateWinner(b).Some? ==>
      exists j :: FirstCompleteFrom(b, 0, j) && CalculateWinner(b) == LineOwner(b, j)
  {
    WinnerFromIsFirstComplete(b, 0);
  }

  /**
   The loop of `calculateWinner`: visits the lines in order and returns on
   the first complete one.
   */
  method FindWinner(b: Squares) returns (r: Option<Marker>)
    ensures r == CalculateWinner(b)
  {
    var k := 0;
    while k < |Lines|
      invariant 0 <= k <= |Lines|
      invariant WinnerFrom(b, k) == CalculateWinner(b)
    {
      var (p, q, c) := Lines[k];
      if b[p].Some? && b[p] == b[q] && b[p] == b[c] {
        return b[p];
      }
      k := k + 1;
    }
    return None;
  }

  /** The first complete line decides the winner, whatever lines follow it. */
  lemma FirstLineDecides(b: Squares, j: int)
    requires FirstCompleteFrom(b, 0, j)
    ensures CalculateWinner(b) == LineOwner(b, j)
  {
    CalculateWinnerIsFirstComplete(b);
    var w := CalculateWinner(b);
    var j' :| FirstCompleteFrom(b, 0, j') && w == LineOwner(b, j');
    assert j' == j;
  }

  /**
   When at most one marker owns complete lines, the order of the search
   does not matter for the marker it reports.
   */
  lemma WinnerIsLineOwner(b: Squares, m: Marker)
    requires !(HasLine(b, X) && HasLine(b, O))
    ensures CalculateWinner(b) == Some(m) <==> HasLine(b, m)
  {
    CalculateWinnerIsFirstComplete(b);
    if CalculateWinner(b) == Some(m) {
      var j :| FirstCompleteFrom(b, 0, j) && Some(m) == LineOwner(b, j);
      assert HasLine(b, m);
    }
    if HasLine(b, m) {
      var k :| 0 <= k < |Lines| && LineComplete(b, k) && LineOwner(b, k) == Some(m);
      var w := CalculateWinner(b);
      var j :| FirstCompleteFrom(b, 0, j) && w == LineOwner(b, j);
      assert w.Some? && LineComplete(b, j);
      assert HasLine(b, w.value);
      match m {
        case X => assert w.value == X;
        case O => assert w.value == O;
      }
    }
  }

  /** Every square holds a marker (`squares.every(square => square !== null)`). */
  predicate IsFull(b: Squares) {
    forall i :: 0 <= i < 9 ==> b[i].Some?
  }

  /** `isDraw`: no winner and no empty square. */
  predicate IsDraw(b: Squares) {
    CalculateWinner(b).None? && IsFull(b)
  }

  /** The status line above the grid. */
  datatype Status = Winner(winner: Marker) | Draw | NextPlayer(next: Marker)

  /** The status selection: the winner if any, otherwise a draw, otherwise whose turn it is. */
  function StatusOf(b: Squares, xIsNext: bool): (s: Status)
    ensures s.Winner? <==> CalculateWinner(b).Some?
    ensures s.Winner? ==> CalculateWinner(b) == Some(s.winner)
    ensures s.Draw? <==> IsDraw(b)
    ensures s.NextPlayer? <==> CalculateWinner(b).None? && exists i :: 0 <= i < 9 && b[i].None?
    ensures s.NextPlayer? ==> s.next == Mover(xIsNext)
  {
    var winner := CalculateWinner(b);
    if winner.Some? then Winner(winner.value)
    else if IsFull(b) then Draw
    else NextPlayer(Mover(xIsNext))
  }

  /** A click on square i is played: the square is empty and nobody has won yet. */
  predicate CanPlay(b: Squares, i: Cell) {
    b[i].None? && CalculateWinner(b).None?
  }

  /** On a drawn grid every square is taken, so no click is played. */
  lemma DrawRejectsEveryClick(b: Squares, i: Cell)
    requires IsDraw(b)
    ensures !CanPlay(b, i)
  {
  }

  /** The number of squares of s holding marker m. */
  function Count(s: seq<Square>, m: Marker): (n: nat)
    ensures n <= |s|
  {
    if s == [] then 0
    else (if s[0] == Some(m) then 1 else 0) + Count(s[1..], m)
  }

  lemma {:induction false} CountEmpty(s: seq<Square>, m: Marker)
    requires forall i :: 0 <= i < |s| ==> s[i].None?
    ensures Count(s, m) == 0
  {
    if s != [] {
      CountEmpty(s[1..], m);
    }
  }

  /** Placing m on an empty square adds one m and leaves the count of the other marker alone. */
  lemma {:induction false} CountPlace(s: seq<Square>, i: int, m: Marker)
    requires 0 <= i < |s| && s[i].None?
    ensures Count(s[i := Some(m)], m) == Count(s, m) + 1
    ensures Count(s[i := Some(m)], Other(m)) == Count(s, Other(m))
  {
    var t := s[i := Some(m)];
    if i == 0 {
      assert t[1..] == s[1..];
    } else {
      assert t[1..] == s[1..][i - 1 := Some(m)];
      CountPlace(s[1..], i - 1, m);
    }
  }

  /**
   The turn flag agrees with the marker counts: X has as many markers as O
   when it is X's turn, and one more when it is O's turn.
   */
  predicate TurnBalanced(b: Squares, xIsNext: bool) {
    Count(b, X) == Count(b, O) + (if xIsNext then 0 else 1)
  }

  /** At most one marker owns complete lines. */
  predicate SingleOwner(b: Squares) {
    !(HasLine(b, X) && HasLine(b, O))
  }

  /** A played click keeps the turn flag and the counts in balance once the flag is flipped. */
  lemma PlayKeepsBalance(b: Squares, xIsNext: bool, i: Cell)
    requires TurnBalanced(b, xIsNext) && b[i].None?
    ensures TurnBalanced(b[i := Some(Mover(xIsNext))], !xIsNext)
  {
    CountPlace(b, i, Mover(xIsNext));
  }

  /**
   A move on a grid without a complete line can only complete lines of the
   marker that moved.
   */
  lemma PlayKeepsSingleOwner(b: Squares, i: Cell, m: Marker)
    requires CanPlay(b, i)
    ensures !HasLine(b[i := Some(m)], Other(m))
    ensures SingleOwner(b[i := Some(m)])
  {
    CalculateWinnerIsFirstComplete(b);
    var t := b[i := Some(m)];
    if HasLine(t, Other(m)) {
      var k :| 0 <= k < |Lines| && LineComplete(t, k) && LineOwner(t, k) == Some(Other(m));
      assert LineComplete(b, k);
    }
  }

  /** The starting grid is balanced for X to move and has no complete line. */
  lemma EmptySquaresStart()
    ensures TurnBalanced(EmptySquares, true)
    ensures CalculateWinner(EmptySquares).None?
    ensures SingleOwner(EmptySquares)
  {
    CountEmpty(EmptySquares, X);
    CountEmpty(EmptySquares, O);
  }
}
