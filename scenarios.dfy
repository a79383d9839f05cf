/**
 Whole rounds played from the initial state, click by click, with the grid,
 the turn, the scores and the status they end in. Each round is evaluated
 in short stretches (the Part lemmas) that PlayConcat joins.
 */
module Scenarios {
  import opened GameRules
  import opened BoardComponent

  const TopRowWinClicks: seq<Cell> := [0, 3, 1, 4, 2]
  const TopRowWinGrid: Squares := [Some(X), Some(X), Some(X), Some(O), Some(O), None, None, None, None]

  lemma TopRowWinPart1()
    ensures Play(Initial, [0, 3, 1])
      == GameState([Some(X), Some(X), None, Some(O), None, None, None, None, None], false, 0, 0)
  {
  }

  lemma TopRowWinPart2()
    ensures Play(GameState([Some(X), Some(X), None, Some(O), None, None, None, None, None], false, 0, 0), [4, 2])
      == GameState([Some(X), Some(X), Some(X), Some(O), Some(O), None, None, None, None], false, 1, 0)
  {
  }

  lemma TopRowWinStatus()
    ensures StatusOf(TopRowWinGrid, false) == Winner(X)
  {
  }

  /** X takes the top row with clicks 0, 3, 1, 4, 2: X wins and scores one point. */
  lemma TopRowWin()
    ensures Play(Initial, TopRowWinClicks) == GameState(TopRowWinGrid, false, 1, 0)
    ensures StatusOf(TopRowWinGrid, false) == Winner(X)
  {
    TopRowWinPart1();
    TopRowWinPart2();
    PlayConcat(Initial, [0, 3, 1], [4, 2]);
    assert [0, 3, 1] + [4, 2] == [0, 3, 1, 4, 2];
    TopRowWinStatus();
  }

  const LeftColumnWinClicks: seq<Cell> := [0, 1, 3, 4, 2, 5, 6, 8, 7]
  const LeftColumnWinGrid: Squares := [Some(X), Some(O), Some(X), Some(X), Some(O), Some(O), Some(X), None, None]

  lemma LeftColumnWinPart1()
    ensures Play(Initial, [0, 1, 3])
      == GameState([Some(X), Some(O), None, Some(X), None, None, None, None, None], false, 0, 0)
  {
  }

  lemma LeftColumnWinPart2()
    ensures Play(GameState([Some(X), Some(O), None, Some(X), None, None, None, None, None], false, 0, 0), [4, 2])
      == GameState([Some(X), Some(O), Some(X), Some(X), Some(O), None, None, None, None], false, 0, 0)
  {
  }

  lemma LeftColumnWinPart3()
    ensures Play(GameState([Some(X), Some(O), Some(X), Some(X), Some(O), None, None, None, None], false, 0, 0), [5, 6])
      == GameState([Some(X), Some(O), Some(X), Some(X), Some(O), Some(O), Some(X), None, None], false, 1, 0)
  {
  }

  lemma LeftColumnWinPart4()
    ensures Play(GameState([Some(X), Some(O), Some(X), Some(X), Some(O), Some(O), Some(X), None, None], false, 1, 0), [8, 7])
      == GameState([Some(X), Some(O), Some(X), Some(X), Some(O), Some(O), Some(X), None, None], false, 1, 0)
  {
  }

  lemma LeftColumnWinStatus()
    ensures StatusOf(LeftColumnWinGrid, false) == Winner(X)
  {
  }

  /** Clicks 0, 1, 3, 4, 2, 5, 6, 8, 7: X's fourth marker (click 6) completes
      the left column, so X wins there and the clicks on 8 and 7 change nothing. */
  lemma LeftColumnWin()
    ensures Play(Initial, LeftColumnWinClicks) == GameState(LeftColumnWinGrid, false, 1, 0)
    ensures StatusOf(LeftColumnWinGrid, false) == Winner(X)
  {
    LeftColumnWinPart1();
    LeftColumnWinPart2();
    LeftColumnWinPart3();
    LeftColumnWinPart4();
    PlayConcat(Initial, [0, 1, 3], [4, 2]);
    assert [0, 1, 3] + [4, 2] == [0, 1, 3, 4, 2];
    PlayConcat(Initial, [0, 1, 3, 4, 2], [5, 6]);
    assert [0, 1, 3, 4, 2] + [5, 6] == [0, 1, 3, 4, 2, 5, 6];
    PlayConcat(Initial, [0, 1, 3, 4, 2, 5, 6], [8, 7]);
    assert [0, 1, 3, 4, 2, 5, 6] + [8, 7] == [0, 1, 3, 4, 2, 5, 6, 8, 7];
    LeftColumnWinStatus();
  }

  const FullGridDrawClicks: seq<Cell> := [0, 1, 2, 4, 3, 5, 7, 6, 8]
  const FullGridDrawGrid: Squares := [Some(X), Some(O), Some(X), Some(X), Some(O), Some(O), Some(O), Some(X), Some(X)]

  lemma FullGridDrawPart1()
    ensures Play(Initial, [0, 1, 2])
      == GameState([Some(X), Some(O), Some(X), None, None, None, None, None, None], false, 0, 0)
  {
  }

  lemma FullGridDrawPart2()
    ensures Play(GameState([Some(X), Some(O), Some(X), None, None, None, None, None, None], false, 0, 0), [4, 3, 5])
      == GameState([Some(X), Some(O), Some(X), Some(X), Some(O), Some(O), None, None, None], true, 0, 0)
  {
  }

  lemma FullGridDrawPart3()
    ensures Play(GameState([Some(X), Some(O), Some(X), Some(X), Some(O), Some(O), None, None, None], true, 0, 0), [7, 6, 8])
      == GameState([Some(X), Some(O), Some(X), Some(X), Some(O), Some(O), Some(O), Some(X), Some(X)], false, 0, 0)
  {
  }

  lemma FullGridDrawStatus()
    ensures StatusOf(FullGridDrawGrid, false) == Draw
  {
  }

  /** Clicks 0, 1, 2, 4, 3, 5, 7, 6, 8 fill the grid with no complete line:
      a draw, and the scores stay at zero. */
  lemma FullGridDraw()
    ensures Play(Initial, FullGridDrawClicks) == GameState(FullGridDrawGrid, false, 0, 0)
    ensures StatusOf(FullGridDrawGrid, false) == Draw
  {
    FullGridDrawPart1();
    FullGridDrawPart2();
    FullGridDrawPart3();
    PlayConcat(Initial, [0, 1, 2], [4, 3, 5]);
    assert [0, 1, 2] + [4, 3, 5] == [0, 1, 2, 4, 3, 5];
    PlayConcat(Initial, [0, 1, 2, 4, 3, 5], [7, 6, 8]);
    assert [0, 1, 2, 4, 3, 5] + [7, 6, 8] == [0, 1, 2, 4, 3, 5, 7, 6, 8];
    FullGridDrawStatus();
  }
}
