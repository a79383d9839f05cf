/**
 The state of the Board component and the three event handlers that change
 it. Each handler is one atomic update of the fields.
 */
module BoardComponent {
  import opened GameRules

  /** The component's state as one value: the grid, the turn flag and the two scores. */
  datatype GameState = GameState(squares: Squares, xIsNext: bool, scoreX: nat, scoreO: nat)

  /** The state a fresh component starts in. */
  const Initial: GameState := GameState(EmptySquares, true, 0, 0)

  /**
   The invariant of every state the handlers can reach: the turn flag agrees
   with the marker counts, and at most one marker owns complete lines.
   */
  predicate Consistent(g: GameState) {
    TurnBalanced(g.squares, g.xIsNext) && SingleOwner(g.squares)
  }

  /** Marker m completes a line with this click: no winner before, m the winner after. */
  predicate WinsBy(before: Squares, after: Squares, m: Marker) {
    CalculateWinner(before).None? && CalculateWinner(after) == Some(m)
  }

  /** The effect of `handleClick(i)` on the state, applied atomically. */
  function Click(g: GameState, i: Cell): GameState {
    if !CanPlay(g.squares, i) then g
    else
      var next := g.squares[i := Some(Mover(g.xIsNext))];
      var winner := CalculateWinner(next);
      GameState(next, !g.xIsNext,
                g.scoreX + (if winner == Some(X) then 1 else 0),
                g.scoreO + (if winner == Some(O) then 1 else 0))
  }

  /**
   A click on a taken square, after a win or on a drawn grid changes
   nothing; otherwise the mover's marker lands on square i alone and the
   turn passes. Filled squares stay as they are.
   */
  lemma ClickMoves(g: GameState, i: Cell)
    ensures !CanPlay(g.squares, i) ==> Click(g, i) == g
    ensures IsDraw(g.squares) ==> Click(g, i) == g
    ensures CanPlay(g.squares, i) ==>
      Click(g, i).squares[i] == Some(Mover(g.xIsNext)) && Click(g, i).xIsNext == !g.xIsNext
    ensures forall j :: 0 <= j < 9 && j != i ==> Click(g, i).squares[j] == g.squares[j]
    ensures forall j :: 0 <= j < 9 && g.squares[j].Some? ==> Click(g, i).squares[j] == g.squares[j]
  {
  }

  /**
   A score goes up by one exactly when the click turns a grid without a
   winner into one won by that marker, and is unchanged otherwise.
   */
  lemma ClickScores(g: GameState, i: Cell)
    ensures Click(g, i).scoreX == g.scoreX + (if WinsBy(g.squares, Click(g, i).squares, X) then 1 else 0)
    ensures Click(g, i).scoreO == g.scoreO + (if WinsBy(g.squares, Click(g, i).squares, O) then 1 else 0)
  {
  }

  /** The initial state is consistent. */
  lemma InitialConsistent()
    ensures Consistent(Initial)
  {
    EmptySquaresStart();
  }

  /** Every click keeps the state consistent. */
  lemma ClickKeepsConsistent(g: GameState, i: Cell)
    requires Consistent(g)
    ensures Consistent(Click(g, i))
  {
    if CanPlay(g.squares, i) {
      PlayKeepsBalance(g.squares, g.xIsNext, i);
      PlayKeepsSingleOwner(g.squares, i, Mover(g.xIsNext));
    }
  }

  /** The state after a run of clicks, each handled in turn. */
  function Play(g: GameState, clicks: seq<Cell>): GameState
    decreases |clicks|
  {
    if clicks == [] then g else Play(Click(g, clicks[0]), clicks[1..])
  }

  /** A run of clicks split in two is the second part played from where the first ends. */
  lemma {:induction false} PlayConcat(g: GameState, first: seq<Cell>, rest: seq<Cell>)
    ensures Play(g, first + rest) == Play(Play(g, first), rest)
    decreases |first|
  {
    if first == [] {
      assert first + rest == rest;
    } else {
      assert (first + rest)[0] == first[0];
      assert (first + rest)[1..] == first[1..] + rest;
      PlayConcat(Click(g, first[0]), first[1..], rest);
    }
  }

  /**
   Every run of clicks keeps the state consistent and never lowers a score:
   only resetting the scores does that.
   */
  lemma {:induction false} PlayKeepsConsistent(g: GameState, clicks: seq<Cell>)
    requires Consistent(g)
    ensures Consistent(Play(g, clicks))
    ensures Play(g, clicks).scoreX >= g.scoreX && Play(g, clicks).scoreO >= g.scoreO
    decreases |clicks|
  {
    if clicks != [] {
      ClickKeepsConsistent(g, clicks[0]);
      PlayKeepsConsistent(Click(g, clicks[0]), clicks[1..]);
    }
  }

  class Board {
    /** The nine squares, replaced by an updated copy on every played click. */
    var squares: Squares
    /** True when X places the next marker. */
    var xIsNext: bool
    /** Rounds won by X and by O. */
    var scoreX: nat
    var scoreO: nat

    /** The fields as one value. */
    function State(): GameState
      reads this
    {
      GameState(squares, xIsNext, scoreX, scoreO)
    }

    /** The object invariant: the fields form a consistent state. */
    ghost predicate Valid()
      reads this
    {
      Consistent(State())
    }

    /** The initial state: an empty grid, X to move, both scores zero. */
    constructor ()
      ensures Valid()
      ensures State() == Initial
    {
      squares := EmptySquares;
      xIsNext := true;
      scoreX, scoreO := 0, 0;
      InitialConsistent();
    }

    /**
     `handleClick(i)`: ignored when square i is taken or the game is already
     won; otherwise places the mover's marker on square i on a copy of the
     grid, passes the turn, and credits the winner of the new grid.
     */
    method HandleClick(i: Cell)
      requires Valid()
      modifies this
      ensures Valid()
      ensures State() == Click(old(State()), i)
    {
      var current := FindWinner(squares);
      if squares[i].Some? || current.Some? {
        return;
      }
      ClickKeepsConsistent(State(), i);
      var nextSquares := squares[i := if xIsNext then Some(X) else Some(O)];
      squares := nextSquares;
      xIsNext := !xIsNext;
      var newWinner := FindWinner(nextSquares);
      match newWinner {
        case Some(X) => scoreX := scoreX + 1;
        case Some(O) => scoreO := scoreO + 1;
        case None =>
      }
    }

    /** `resetGame`: an empty grid with X to move; the scores are kept. */
    method ResetGame()
      modifies this
      ensures Valid()
      ensures squares == EmptySquares && xIsNext
      ensures scoreX == old(scoreX) && scoreO == old(scoreO)
    {
      squares := EmptySquares;
      xIsNext := true;
      EmptySquaresStart();
    }

    /** `resetScores`: both scores back to zero; the grid and the turn are kept. */
    method ResetScores()
      requires Valid()
      modifies this
      ensures Valid()
      ensures scoreX == 0 && scoreO == 0
      ensures squares == old(squares) && xIsNext == old(xIsNext)
    {
      scoreX, scoreO := 0, 0;
    }

    /** The status line rendered above the grid. */
    method CurrentStatus() returns (s: Status)
      ensures s == StatusOf(squares, xIsNext)
    {
      var winner := FindWinner(squares);
      if winner.Some? {
        s := Winner(winner.value);
      } else if forall j | 0 <= j < 9 :: squares[j].Some? {
        s := Draw;
      } else {
        s := NextPlayer(if xIsNext then X else O);
      }
    }
  }
}
