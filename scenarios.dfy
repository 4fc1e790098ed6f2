/**
 * Games played against the server from process start, with the states the
 * rules force. Each game is checked backwards, one move at a time: from the
 * position after k moves, the remaining moves lead to the final state.
 */
module Scenarios {
  import opened Wrappers
  import opened Board
  import opened Server

  /** A taken move reaches `t` when `t` has the new board, the next player,
      and the winner and end of game that the new board determines. */
  lemma StepTo(s: GameState, index: int, t: GameState)
    requires |s.board| == 9 && Accepts(s, index)
    requires t.board == s.board[index := Some(s.currentPlayer)]
    requires t.currentPlayer == Other(s.currentPlayer)
    requires t.winner == CheckWinner(t.board)
    requires t.gameOver == (t.winner.Some? || IsFull(t.board))
    ensures Move(s, index) == t
  {
  }

  // The top-row game: X plays 0, 1, 2 and O plays 3, 4.

  const TopRowAfter1: GameState :=
    GameState([Some(X), None, None, None, None, None, None, None, None], O, None, false)
  const TopRowAfter2: GameState :=
    GameState([Some(X), None, None, Some(O), None, None, None, None, None], X, None, false)
  const TopRowAfter3: GameState :=
    GameState([Some(X), Some(X), None, Some(O), None, None, None, None, None], O, None, false)
  const TopRowAfter4: GameState :=
    GameState([Some(X), Some(X), None, Some(O), Some(O), None, None, None, None], X, None, false)
  const TopRowFinal: GameState :=
    GameState([Some(X), Some(X), Some(X), Some(O), Some(O), None, None, None, None], O, Some(X), true)

  /** After O takes 4, X completes the top row with 2: winner X, game over. */
  lemma TopRowFrom4()
    ensures Play(TopRowAfter4, [2]) == TopRowFinal
  {
  }

  /** After X takes 1, the moves 4, 2 follow; no line is complete yet. */
  lemma TopRowFrom3()
    ensures Play(TopRowAfter3, [4, 2]) == TopRowFinal
  {
    assert TopRowAfter4.board[8] == None;
    StepTo(TopRowAfter3, 4, TopRowAfter4);
    TopRowFrom4();
  }

  /** After O takes 3, the moves 1, 4, 2 follow. */
  lemma TopRowFrom2()
    ensures Play(TopRowAfter2, [1, 4, 2]) == TopRowFinal
  {
    assert TopRowAfter3.board[8] == None;
    StepTo(TopRowAfter2, 1, TopRowAfter3);
    TopRowFrom3();
  }

  /** After X takes 0, the moves 3, 1, 4, 2 follow. */
  lemma TopRowFrom1()
    ensures Play(TopRowAfter1, [3, 1, 4, 2]) == TopRowFinal
  {
    assert TopRowAfter2.board[8] == None;
    StepTo(TopRowAfter1, 3, TopRowAfter2);
    TopRowFrom2();
  }

  /** From the initial state, the moves 0, 3, 1, 4, 2 end with X holding the
      top row: X is the winner and the game is over. */
  lemma TopRowWin()
    ensures Play(InitialState, [0, 3, 1, 4, 2]) == TopRowFinal
    ensures TopRowFinal.winner == Some(X) && TopRowFinal.gameOver
  {
    assert TopRowAfter1.board[8] == None;
    StepTo(InitialState, 0, TopRowAfter1);
    TopRowFrom1();
  }

  /** After X has won, a further move onto an empty cell is ignored. */
  lemma MoveAfterWinIgnored()
    ensures Play(InitialState, [0, 3, 1, 4, 2, 5]) == TopRowFinal
  {
    TopRowWin();
    PlayAppend(InitialState, [0, 3, 1, 4, 2], [5]);
    assert [0, 3, 1, 4, 2] + [5] == [0, 3, 1, 4, 2, 5];
    GameOverIsFinal(TopRowFinal, [5]);
  }

  // The drawn game: X plays 0, 2, 3, 7, 8 and O plays 1, 4, 5, 6.

  const DrawAfter1: GameState :=
    GameState([Some(X), None, None, None, None, None, None, None, None], O, None, false)
  const DrawAfter2: GameState :=
    GameState([Some(X), Some(O), None, None, None, None, None, None, None], X, None, false)
  const DrawAfter3: GameState :=
    GameState([Some(X), Some(O), Some(X), None, None, None, None, None, None], O, None, false)
  const DrawAfter4: GameState :=
    GameState([Some(X), Some(O), Some(X), None, Some(O), None, None, None, None], X, None, false)
  const DrawAfter5: GameState :=
    GameState([Some(X), Some(O), Some(X), Some(X), Some(O), None, None, None, None], O, None, false)
  const DrawAfter6: GameState :=
    GameState([Some(X), Some(O), Some(X), Some(X), Some(O), Some(O), None, None, None], X, None, false)
  const DrawAfter7: GameState :=
    GameState([Some(X), Some(O), Some(X), Some(X), Some(O), Some(O), None, Some(X), None], O, None, false)
  const DrawAfter8: GameState :=
    GameState([Some(X), Some(O), Some(X), Some(X), Some(O), Some(O), Some(O), Some(X), None], X, None, false)
  const DrawFinal: GameState :=
    GameState([Some(X), Some(O), Some(X), Some(X), Some(O), Some(O), Some(O), Some(X), Some(X)], O, None, true)

  /** After O takes 6, X fills the last cell with 8: no line, no winner, game over. */
  lemma DrawFrom8()
    ensures Play(DrawAfter8, [8]) == DrawFinal
  {
  }

  /** After X takes 7, the remaining moves 6, 8 reach the drawn final state. */
  lemma DrawFrom7()
    ensures Play(DrawAfter7, [6, 8]) == DrawFinal
  {
    assert DrawAfter8.board[8] == None;
    StepTo(DrawAfter7, 6, DrawAfter8);
    DrawFrom8();
  }

  /** After O takes 5, the remaining moves 7, 6, 8 reach the drawn final state. */
  lemma DrawFrom6()
    ensures Play(DrawAfter6, [7, 6, 8]) == DrawFinal
  {
    assert DrawAfter7.board[8] == None;
    StepTo(DrawAfter6, 7, DrawAfter7);
    DrawFrom7();
  }

  /** After X takes 3, the remaining moves 5, 7, 6, 8 reach the drawn final state. */
  lemma DrawFrom5()
    ensures Play(DrawAfter5, [5, 7, 6, 8]) == DrawFinal
  {
    assert DrawAfter6.board[8] == None;
    StepTo(DrawAfter5, 5, DrawAfter6);
    DrawFrom6();
  }

  /** After O takes 4, the remaining moves 3, 5, 7, 6, 8 reach the drawn final state. */
  lemma DrawFrom4()
    ensures Play(DrawAfter4, [3, 5, 7, 6, 8]) == DrawFinal
  {
    assert DrawAfter5.board[8] == None;
    StepTo(DrawAfter4, 3, DrawAfter5);
    DrawFrom5();
  }

  /** After X takes 2, the remaining moves 4, 3, 5, 7, 6, 8 reach the drawn final state. */
  lemma DrawFrom3()
    ensures Play(DrawAfter3, [4, 3, 5, 7, 6, 8]) == DrawFinal
  {
    assert DrawAfter4.board[8] == None;
    StepTo(DrawAfter3, 4, DrawAfter4);
    DrawFrom4();
  }

  /** After O takes 1, the remaining moves 2, 4, 3, 5, 7, 6, 8 reach the drawn final state. */
  lemma DrawFrom2()
    ensures Play(DrawAfter2, [2, 4, 3, 5, 7, 6, 8]) == DrawFinal
  {
    assert DrawAfter3.board[8] == None;
    StepTo(DrawAfter2, 2, DrawAfter3);
    DrawFrom3();
  }

  /** After X takes 0, the remaining moves 1, 2, 4, 3, 5, 7, 6, 8 reach the drawn final state. */
  lemma DrawFrom1()
    ensures Play(DrawAfter1, [1, 2, 4, 3, 5, 7, 6, 8]) == DrawFinal
  {
    assert DrawAfter2.board[8] == None;
    StepTo(DrawAfter1, 1, DrawAfter2);
    DrawFrom2();
  }

  /** From the initial state, the moves 0, 1, 2, 4, 3, 5, 7, 6, 8 fill the
      board without a line: no winner, and the game is over. */
  lemma Draw()
    ensures Play(InitialState, [0, 1, 2, 4, 3, 5, 7, 6, 8]) == DrawFinal
    ensures IsFull(DrawFinal.board) && DrawFinal.winner == None && DrawFinal.gameOver
  {
    assert DrawAfter1.board[8] == None;
    StepTo(InitialState, 0, DrawAfter1);
    DrawFrom1();
  }

  /** A second move onto cell 0 leaves the state exactly as the first left it. */
  lemma OccupiedCellIgnored()
    ensures Play(InitialState, [0]).board[0] == Some(X)
    ensures Play(InitialState, [0, 0]) == Play(InitialState, [0])
  {
  }

  /** A client of the server: a reset in the middle of a game restores the initial state. */
  method ResetMidGame() returns (s: GameState)
    ensures s == InitialState
  {
    var server := new Authority();
    server.HandleMessage(MoveTo(4));
    server.HandleMessage(MoveTo(0));
    server.HandleMessage(Unrecognised);
    server.HandleMessage(Reset);
    s := server.state;
  }
}
