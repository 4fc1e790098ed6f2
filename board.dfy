/**
 * The noughts-and-crosses board of the game server: nine cells, each empty
 * or holding one of the two marks, and the winner detection that scans the
 * eight fixed lines in order.
 */
module Board {
  import opened Wrappers

  /** The two marks; `X` always moves first. */
  datatype Mark = X | O

  /** A cell is empty (`None`, the server's `null`) or holds a mark. */
  type Cell = Option<Mark>

  /** A cell index of the 3x3 board, numbered row by row. */
  type Index = i: int | 0 <= i < 9

  /** The eight winning lines, in the order the server scans them:
      three rows, three columns, two diagonals. */
  const WinPatterns: seq<(Index, Index, Index)> :=
    [ (0, 1, 2), (3, 4, 5), (6, 7, 8),
      (0, 3, 6), (1, 4, 7), (2, 5, 8),
      (0, 4, 8), (2, 4, 6) ]

  /** The board at process start and after a reset: nine empty cells. */
  const EmptyBoard: seq<Cell> := [None, None, None, None, None, None, None, None, None]

  /** The mark that moves after `m`. */
  function Other(m: Mark): (r: Mark)
    ensures r != m
  {
    if m == X then O else X
  }

  /** Line `k` of the pattern list is held by `m` in all three of its cells. */
  predicate LineHeldBy(board: seq<Cell>, k: int, m: Mark)
    requires |board| == 9 && 0 <= k < |WinPatterns|
  {
    var (a, b, c) := WinPatterns[k];
    board[a] == Some(m) && board[b] == Some(m) && board[c] == Some(m)
  }

  /** Line `k` is completed by one mark or the other. */
  predicate LineCompleted(board: seq<Cell>, k: int)
    requires |board| == 9 && 0 <= k < |WinPatterns|
  {
    LineHeldBy(board, k, X) || LineHeldBy(board, k, O)
  }

  /** Some winning line is held by `m`. */
  predicate HasLine(board: seq<Cell>, m: Mark)
    requires |board| == 9
  {
    exists k :: 0 <= k < |WinPatterns| && LineHeldBy(board, k, m)
  }

  /** Every cell holds a mark (the server's `every(cell => cell !== null)`). */
  predicate IsFull(board: seq<Cell>)
  {
    forall i :: 0 <= i < |board| ==> board[i].Some?
  }

  /**
   * The scan of `checkWinner` from pattern `k` on: the first line whose three
   * cells hold the same non-empty value gives the winner; none gives `None`.
   */
  function CheckWinnerFrom(board: seq<Cell>, k: nat): (r: Option<Mark>)
    requires |board| == 9 && k <= |WinPatterns|
    decreases |WinPatterns| - k
  {
    if k == |WinPatterns| then None
    else
      var (a, b, c) := WinPatterns[k];
      if board[a].Some? && board[a] == board[b] && board[a] == board[c] then board[a]
      else CheckWinnerFrom(board, k + 1)
  }

  /** `checkWinner`: the mark of the first completed line in pattern order. */
  function CheckWinner(board: seq<Cell>): (r: Option<Mark>)
    requires |board| == 9
  {
    CheckWinnerFrom(board, 0)
  }

  /**
   * The scan from pattern `k` returns the owner of the first completed line
   * among patterns `k` onwards, and `None` when none of them is completed.
   */
  lemma {:induction false} CheckWinnerFromCorrect(board: seq<Cell>, k: nat)
    requires |board| == 9 && k <= |WinPatterns|
    decreases |WinPatterns| - k
    ensures CheckWinnerFrom(board, k).Some? ==>
      exists j :: k <= j < |WinPatterns| && LineHeldBy(board, j, CheckWinnerFrom(board, k).value) &&
        forall i :: k <= i < j ==> !LineCompleted(board, i)
    ensures CheckWinnerFrom(board, k).None? ==>
      forall j, m :: k <= j < |WinPatterns| ==> !LineHeldBy(board, j, m)
  {
    if k < |WinPatterns| {
      var (a, b, c) := WinPatterns[k];
      if board[a].Some? && board[a] == board[b] && board[a] == board[c] {
        assert LineHeldBy(board, k, board[a].value);
      } else {
        assert !LineCompleted(board, k);
        CheckWinnerFromCorrect(board, k + 1);
      }
    }
  }

  /**
   * A mark returned by `checkWinner` holds a whole line, and it is the owner
   * of the first completed line in pattern order; `None` is returned exactly
   * when neither mark holds any line.
   */
  lemma CheckWinnerCorrect(board: seq<Cell>)
    requires |board| == 9
    ensures CheckWinner(board).Some? ==> HasLine(board, CheckWinner(board).value)
    ensures CheckWinner(board).Some? ==>
      exists j :: 0 <= j < |WinPatterns| && LineHeldBy(board, j, CheckWinner(board).value) &&
        forall i :: 0 <= i < j ==> !LineCompleted(board, i)
    ensures CheckWinner(board).None? <==> !HasLine(board, X) && !HasLine(board, O)
  {
    var r := CheckWinner(board);
    CheckWinnerFromCorrect(board, 0);
    assert r.Some? ==> HasLine(board, r.value);
    assert r.None? || r.value == X || r.value == O;
  }

  /** The number of cells holding `m`. */
  function Count(board: seq<Cell>, m: Mark): (n: nat)
  {
    if board == [] then 0
    else (if board[0] == Some(m) then 1 else 0) + Count(board[1..], m)
  }

  /** Marking an empty cell with `m` adds one `m` and leaves the other mark's count alone. */
  lemma {:induction false} CountAfterMark(board: seq<Cell>, i: int, m: Mark)
    requires 0 <= i < |board| && board[i] == None
    ensures Count(board[i := Some(m)], m) == Count(board, m) + 1
    ensures Count(board[i := Some(m)], Other(m)) == Count(board, Other(m))
  {
    var marked := board[i := Some(m)];
    if i == 0 {
      assert marked[1..] == board[1..];
    } else {
      assert marked[1..] == board[1..][i - 1 := Some(m)];
      CountAfterMark(board[1..], i - 1, m);
    }
  }

  /**
   * Marking one empty cell with `m` cannot complete a line for the other
   * mark: every line the other mark holds afterwards it already held before.
   */
  lemma MarkCompletesOnlyOwnLines(board: seq<Cell>, i: Index, m: Mark)
    requires |board| == 9 && board[i] == None
    ensures forall k :: 0 <= k < |WinPatterns| && LineHeldBy(board[i := Some(m)], k, Other(m)) ==>
      LineHeldBy(board, k, Other(m))
    ensures HasLine(board[i := Some(m)], Other(m)) ==> HasLine(board, Other(m))
  {
    var marked := board[i := Some(m)];
    forall k | 0 <= k < |WinPatterns| && LineHeldBy(marked, k, Other(m))
      ensures LineHeldBy(board, k, Other(m))
    {
      var (a, b, c) := WinPatterns[k];
      assert a != i && b != i && c != i;
    }
  }
}
