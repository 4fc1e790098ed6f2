/**
 * The authoritative game state of the server and the two operations that
 * change it: a move by the player whose turn it is, and a reset. Every
 * change is published to all connected clients.
 */
module Server {
  import opened Wrappers
  import opened Board

  /** The state the server holds and broadcasts. */
  datatype GameState = GameState(
    board: seq<Cell>,
    currentPlayer: Mark,
    winner: Option<Mark>,
    gameOver: bool)

  /** The state at process start and after every reset. */
  const InitialState: GameState := GameState(EmptyBoard, X, None, false)

  /**
   * What every state the server can reach satisfies: nine cells; the
   * recorded winner is the one the line scan finds; the game is over exactly
   * when there is a winner or the board is full; X has moved once more than
   * O exactly when it is O's turn; and only the player who moved last can
   * hold a line.
   */
  ghost predicate Consistent(s: GameState)
  {
    && |s.board| == 9
    && s.winner == CheckWinner(s.board)
    && s.gameOver == (s.winner.Some? || IsFull(s.board))
    && Count(s.board, X) == Count(s.board, O) + (if s.currentPlayer == O then 1 else 0)
    && !HasLine(s.board, s.currentPlayer)
  }

  /** The guard of `handleMove` restricted to the nine cells: the game is
      still running and the chosen cell is empty. */
  predicate Accepts(s: GameState, index: int)
  {
    !s.gameOver && 0 <= index < |s.board| && s.board[index].None?
  }

  /**
   * The state `handleMove(index)` leaves behind, as the server has it, on
   * the nine cells of the board. The guard only rejects a finished game or
   * a marked cell. An index outside the board that has not been written
   * before reads as an empty cell, so the move is taken, no cell of the
   * board changes, and the turn still passes to the other player. The slot
   * outside the board that the server then writes is not part of this
   * state, so a repeat of the same index is taken here as well. A marked
   * cell is never overwritten, and a finished game never changes.
   */
  function NextState(s: GameState, index: int): (r: GameState)
    requires |s.board| == 9
  {
    if !s.gameOver && !(0 <= index < 9 && s.board[index].Some?) then
      var newBoard := if 0 <= index < 9 then s.board[index := Some(s.currentPlayer)] else s.board;
      var winner := CheckWinner(newBoard);
      GameState(newBoard, Other(s.currentPlayer), winner, winner.Some? || IsFull(newBoard))
    else
      s
  }

  /**
   * The corrected move: `NextState` for an index on the board, and no change
   * at all for an index outside it.
   */
  function Move(s: GameState, index: int): (r: GameState)
    requires |s.board| == 9
    ensures |r.board| == 9
  {
    if 0 <= index < 9 then NextState(s, index) else s
  }

  /**
   * A move is taken exactly when the guard holds. A taken move marks the
   * chosen cell for the player to move, leaves the other cells alone, passes
   * the turn, and recomputes the winner and the end of the game from the new
   * board. A rejected move changes nothing.
   */
  lemma MoveCases(s: GameState, index: int)
    requires |s.board| == 9
    ensures Move(s, index) == s <==> !Accepts(s, index)
    ensures Accepts(s, index) ==>
      var r := Move(s, index);
      && r.board[index] == Some(s.currentPlayer)
      && (forall i :: 0 <= i < 9 && i != index ==> r.board[i] == s.board[i])
      && r.currentPlayer == Other(s.currentPlayer)
      && r.winner == CheckWinner(r.board)
      && r.gameOver == (r.winner.Some? || IsFull(r.board))
  {
  }

  /** A marked cell keeps its mark, and a finished game does not change. */
  lemma MoveKeepsMarks(s: GameState, index: int)
    requires |s.board| == 9
    ensures forall i :: 0 <= i < 9 && s.board[i].Some? ==> Move(s, index).board[i] == s.board[i]
    ensures s.gameOver ==> Move(s, index) == s
  {
  }

  /** The server handles the move intents it receives one at a time, in arrival order. */
  function Play(s: GameState, moves: seq<int>): (r: GameState)
    requires |s.board| == 9
    ensures |r.board| == 9
    decreases |moves|
  {
    if moves == [] then s else Play(Move(s, moves[0]), moves[1..])
  }

  /** Playing two batches of moves is playing their concatenation. */
  lemma {:induction false} PlayAppend(s: GameState, first: seq<int>, second: seq<int>)
    requires |s.board| == 9
    ensures Play(s, first + second) == Play(Play(s, first), second)
    decreases |first|
  {
    if first != [] {
      assert (first + second)[1..] == first[1..] + second;
      PlayAppend(Move(s, first[0]), first[1..], second);
    } else {
      assert first + second == second;
    }
  }

  /** The initial state satisfies the invariant. */
  lemma InitialConsistent()
    ensures Consistent(InitialState)
  {
    assert CheckWinner(EmptyBoard) == None;
    CheckWinnerCorrect(EmptyBoard);
    assert Count(EmptyBoard, X) == 0 && Count(EmptyBoard, O) == 0;
  }

  /** Every move, taken or not, keeps the invariant. */
  lemma MovePreservesConsistent(s: GameState, index: int)
    requires Consistent(s)
    ensures Consistent(Move(s, index))
  {
    if Accepts(s, index) {
      var m := s.currentPlayer;
      CountAfterMark(s.board, index, m);
      MarkCompletesOnlyOwnLines(s.board, index, m);
      CheckWinnerCorrect(s.board);
      CheckWinnerCorrect(Move(s, index).board);
    }
  }

  /** Any sequence of moves keeps the invariant. */
  lemma {:induction false} PlayPreservesConsistent(s: GameState, moves: seq<int>)
    requires Consistent(s)
    ensures Consistent(Play(s, moves))
    decreases |moves|
  {
    if moves != [] {
      MovePreservesConsistent(s, moves[0]);
      PlayPreservesConsistent(Move(s, moves[0]), moves[1..]);
    }
  }

  /**
   * In every state reached from process start, the game is over exactly
   * when one of the marks holds a line or every cell is marked.
   */
  lemma GameOverExactlyWhenDecided(moves: seq<int>)
    ensures var r := Play(InitialState, moves);
      r.gameOver <==> HasLine(r.board, X) || HasLine(r.board, O) || IsFull(r.board)
  {
    InitialConsistent();
    PlayPreservesConsistent(InitialState, moves);
    CheckWinnerCorrect(Play(InitialState, moves).board);
  }

  /** No sequence of moves removes or changes a mark already on the board. */
  lemma {:induction false} PlayKeepsMarks(s: GameState, moves: seq<int>)
    requires |s.board| == 9
    ensures forall i :: 0 <= i < 9 && s.board[i].Some? ==> Play(s, moves).board[i] == s.board[i]
    decreases |moves|
  {
    if moves != [] {
      MoveKeepsMarks(s, moves[0]);
      PlayKeepsMarks(Move(s, moves[0]), moves[1..]);
    }
  }

  /** Once the game is over, no sequence of moves changes the state. */
  lemma {:induction false} GameOverIsFinal(s: GameState, moves: seq<int>)
    requires |s.board| == 9 && s.gameOver
    ensures Play(s, moves) == s
    decreases |moves|
  {
    if moves != [] {
      MoveKeepsMarks(s, moves[0]);
      GameOverIsFinal(Move(s, moves[0]), moves[1..]);
    }
  }

  /**
   * In a consistent state a winner is the player who moved last, and the
   * player to move holds no line: at most one mark completes a line.
   */
  lemma WinnerMovedLast(s: GameState)
    requires Consistent(s) && s.winner.Some?
    ensures s.winner.value == Other(s.currentPlayer)
    ensures !HasLine(s.board, s.currentPlayer)
  {
    CheckWinnerCorrect(s.board);
  }

  /**
   * As written, an index outside the board is taken as a move: the board
   * stays as it is, yet the turn passes from X to O, so the move counts no
   * longer match the player to move.
   */
  lemma OutOfRangeMoveSkipsTurn()
    ensures NextState(InitialState, 9).board == EmptyBoard
    ensures NextState(InitialState, 9).currentPlayer == O
    ensures !Consistent(NextState(InitialState, 9))
  {
  }

  /** The corrected move ignores an index outside the board. */
  lemma OutOfRangeMoveIgnored(s: GameState, index: int)
    requires |s.board| == 9 && !(0 <= index < 9)
    ensures Move(s, index) == s
  {
  }

  /** An intent received from a client. */
  datatype Intent = MoveTo(index: int) | Reset | Unrecognised

  /**
   * The module-level game state of the server. `broadcasts` records every
   * state sent to all clients, in order.
   */
  class Authority {
    var state: GameState
    ghost var broadcasts: seq<GameState>

    ghost predicate Valid()
      reads this
    {
      Consistent(state)
    }

    /** Process start: the empty board, X to move, nothing published yet. */
    constructor ()
      ensures Valid()
      ensures state == InitialState && broadcasts == []
    {
      state := InitialState;
      broadcasts := [];
      InitialConsistent();
    }

    /**
     * `handleMove`: a move onto an empty cell of a running game marks that
     * cell for the player to move, recomputes the winner and the end of the
     * game, passes the turn and publishes the new state. Any other move,
     * including one outside the board, changes nothing and publishes nothing.
     */
    method HandleMove(index: int)
      requires Valid()
      modifies this
      ensures Valid()
      ensures !Accepts(old(state), index) ==> state == old(state) && broadcasts == old(broadcasts)
      ensures Accepts(old(state), index) ==>
        && state.board == old(state.board)[index := Some(old(state.currentPlayer))]
        && state.currentPlayer == Other(old(state.currentPlayer))
        && state.winner == CheckWinner(state.board)
        && state.gameOver == (state.winner.Some? || IsFull(state.board))
        && broadcasts == old(broadcasts) + [state]
      ensures Accepts(old(state), index) && state.winner.Some? ==>
        state.winner.value == old(state.currentPlayer)
      ensures forall i :: 0 <= i < 9 && old(state.board[i]).Some? ==> state.board[i] == old(state.board[i])
      ensures state == Move(old(state), index)
    {
      if !state.gameOver && 0 <= index < |state.board| && state.board[index].None? {
        var newBoard := state.board[index := Some(state.currentPlayer)];
        var winner := CheckWinner(newBoard);
        var gameOver := winner.Some? || IsFull(newBoard);
        ghost var next := Move(state, index);
        state := GameState(newBoard, Other(state.currentPlayer), winner, gameOver);
        assert state == next;
        MovePreservesConsistent(old(state), index);
        if winner.Some? {
          WinnerMovedLast(state);
        }
        broadcasts := broadcasts + [state];
      }
    }

    /** `resetGame`: whatever came before, back to the initial state, published. */
    method ResetGame()
      modifies this
      ensures Valid()
      ensures state == InitialState
      ensures broadcasts == old(broadcasts) + [InitialState]
    {
      state := InitialState;
      broadcasts := broadcasts + [state];
      InitialConsistent();
    }

    /** The message handler: a move intent goes to `HandleMove`, a reset
        intent to `ResetGame`, and anything else is ignored. */
    method HandleMessage(intent: Intent)
      requires Valid()
      modifies this
      ensures Valid()
      ensures intent.MoveTo? ==> state == Move(old(state), intent.index)
      ensures intent.MoveTo? ==>
        broadcasts == if Accepts(old(state), intent.index) then old(broadcasts) + [state] else old(broadcasts)
      ensures intent.Reset? ==> state == InitialState && broadcasts == old(broadcasts) + [InitialState]
      ensures intent.Unrecognised? ==> state == old(state) && broadcasts == old(broadcasts)
    {
      match intent
      case MoveTo(index) => HandleMove(index);
      case Reset => ResetGame();
      case Unrecognised =>
    }
  }
}
