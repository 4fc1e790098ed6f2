# Noughts and crosses: the authoritative server state

This project models the game server of a two-player noughts-and-crosses
game played through a browser. The server (`server/index.ts`) holds the
only real copy of the game: a board of nine cells, the mark whose turn it
is, the winner if there is one, and a flag that says the game is over.
Clients send two kinds of intent, a move onto a cell and a reset. The
server checks each move, applies it, and sends the whole new state to
every connected client.

The model has three modules and a module of example games:

- `Wrappers` (`wrappers.dfy`) has the `Option` type. The server's `null`
  becomes `None`: an empty cell, or no winner.
- `Board` (`board.dfy`) has the two marks, the eight winning lines in the
  server's scan order, and `CheckWinner`, a recursive first-match scan like
  the loop in `checkWinner`. It also has the lemmas that the scan is correct
  and that marking an empty cell changes the mark counts by one and can
  complete a line only for the mark just placed.
- `Server` (`server.dfy`) has the `GameState` record, the initial state,
  and the move as written (`NextState`). It also has the corrected move
  (`Move`), `Play`, which handles a sequence of moves in arrival order, and
  the invariant `Consistent` that every reachable state satisfies. The
  module-level `let gameState` becomes the class `Authority`. Its
  `HandleMove`, `ResetGame` and `HandleMessage` change `state` in place.
  Every accepted change is appended to the ghost log `broadcasts`, which
  stands for `broadcastGameState`.
- `Scenarios` (`scenarios.dfy`) plays the games that the rules force from
  process start: a top-row win, a move after the win, a draw, a move onto a
  marked cell, and a reset in the middle of a game.

The invariant `Consistent` says five things:

- the board has nine cells;
- the stored winner is what `checkWinner` finds;
- the game is over exactly when there is a winner or every cell is marked;
- X has made one move more than O exactly when it is O's turn, and the
  same number otherwise;
- the player to move never holds a completed line.

The initial state satisfies it, every move keeps it, and a reset restores
it. It follows that a winner is always the player who moved last and that
the two marks never both hold a line. So "first completed line wins" never
has to choose between X and O.

Out-of-range indices: the server never checks that `index` is an integer
from 0 to 8. An index outside the board that has not been written yet reads
as `undefined`, which the guard treats as an empty cell, so the move is
taken. None of the nine cells changes, but the turn still passes to the
other player. The model follows
the code in `NextState` and proves the consequence in
`OutOfRangeMoveSkipsTurn`. The corrected `Move`, which `Authority` uses,
ignores such an index. This is also what the protocol's `0-8` range
implies. See "## Findings".

## Model

| member | source | states |
|---|---|---|
| `Board.Other` | server/index.ts:49 | the player after `m` is the other mark |
| `Board.CheckWinnerFrom` | server/index.ts:30-37 | the loop over the patterns from pattern `k` on; no contract of its own, `Board.CheckWinnerFromCorrect` describes it |
| `Board.CheckWinner` | server/index.ts:23-38 | `checkWinner`; no contract of its own, `Board.CheckWinnerCorrect` describes it |
| `Board.IsFull` | server/index.ts:45 | the "every cell is non-null" test; a predicate, used by `Server.Consistent` and `Server.MoveCases` |
| `Board.CheckWinnerFromCorrect` | server/index.ts:30-37 | the scan from pattern `k` returns a mark only if that mark holds some line from `k` on, and every earlier line from `k` on is incomplete; it returns `None` only if no line from `k` on is held by either mark |
| `Board.CheckWinnerCorrect` | server/index.ts:23-38 | a mark returned by `checkWinner` holds a whole line and owns the first completed line in pattern order; `None` is returned exactly when neither mark holds any of the eight lines |
| `Board.CountAfterMark` | server/index.ts:42-43 | writing the mover's mark into an empty cell adds one to the mover's count and leaves the other mark's count unchanged |
| `Board.MarkCompletesOnlyOwnLines` | server/index.ts:43-44 | after one empty cell is marked with `m`, every line the other mark holds was already held before the move |
| `Server.Accepts` | server/index.ts:41 | the guard of `handleMove` on the nine cells; a predicate, `Server.MoveCases` proves a move changes the state exactly when it holds |
| `Server.NextState` | server/index.ts:40-56 | `handleMove` as written, on the nine cells; no contract of its own, `Server.OutOfRangeMoveSkipsTurn` shows its out-of-range behaviour and `Server.Move` uses it for indices 0..8 |
| `Server.Move` | server/index.ts:40-56 | the corrected move keeps the board at nine cells |
| `Server.MoveCases` | server/index.ts:40-56 | a move changes the state exactly when the game is running and the cell is empty; a taken move writes the mover's mark into that cell, leaves the other eight alone, passes the turn, and sets the winner to `checkWinner` of the new board and `gameOver` to "winner or board full" |
| `Server.MoveKeepsMarks` | server/index.ts:41 | a move never changes a marked cell, and a move in a finished game changes nothing |
| `Server.Play` | server/index.ts:82-89 | handling move intents one at a time in arrival order keeps the board at nine cells |
| `Server.PlayAppend` | server/index.ts:82-89 | handling two batches of moves one after the other gives the same state as handling their concatenation |
| `Server.InitialConsistent` | server/index.ts:16-21 | the initial state (nine empty cells, X to move, no winner, not over) satisfies the invariant |
| `Server.MovePreservesConsistent` | server/index.ts:40-56 | every move, taken or rejected, keeps the invariant |
| `Server.PlayPreservesConsistent` | server/index.ts:40-56 | every sequence of moves keeps the invariant |
| `Server.GameOverExactlyWhenDecided` | server/index.ts:44-45 | in every state reached from process start, `gameOver` holds exactly when X or O holds a line or every cell is marked |
| `Server.PlayKeepsMarks` | server/index.ts:41-43 | no sequence of moves removes or changes a mark already on the board |
| `Server.GameOverIsFinal` | server/index.ts:41 | once the game is over, no sequence of moves changes the state |
| `Server.WinnerMovedLast` | server/index.ts:44-49 | in a consistent state the winner is the player who moved last, and the player to move holds no line |
| `Server.OutOfRangeMoveSkipsTurn` | server/index.ts:41-49 | as written, move 9 on the initial state is taken: the board stays empty, the turn passes to O, and the resulting state breaks the invariant |
| `Server.OutOfRangeMoveIgnored` | server/index.ts:41 | the corrected move leaves the state unchanged for an index outside 0..8 |
| `Server.Authority.constructor` | server/index.ts:16-21 | at process start the state is the initial state and nothing has been broadcast |
| `Server.Authority.HandleMove` | server/index.ts:40-56 | a rejected move leaves the state and the broadcast log unchanged; a taken move writes the mover's mark into the cell, keeps the board at nine cells, passes the turn, recomputes winner and `gameOver`, and broadcasts the new state once; a win belongs to the mover; marked cells never change; the new state is `Move` of the old one; the invariant is kept |
| `Server.Authority.ResetGame` | server/index.ts:58-66 | whatever the prior state, the state becomes nine empty cells, X to move, no winner, not over, and it is broadcast |
| `Server.Authority.HandleMessage` | server/index.ts:82-89 | a move intent acts as `HandleMove` (broadcasting only when the move is taken), a reset intent acts as `ResetGame`, and any other intent changes nothing |
| `Scenarios.TopRowWin` | server/index.ts:40-56 | moves 0, 3, 1, 4, 2 from the initial state give board `[X,X,X,O,O,_,_,_,_]`, O to move, winner X and `gameOver` |
| `Scenarios.MoveAfterWinIgnored` | server/index.ts:41 | a move onto the empty cell 5 after X has won changes nothing |
| `Scenarios.Draw` | server/index.ts:40-56 | moves 0, 1, 2, 4, 3, 5, 7, 6, 8 from the initial state fill every cell without a line: winner `null`, `gameOver` true |
| `Scenarios.OccupiedCellIgnored` | server/index.ts:41 | a second move onto cell 0 leaves the state exactly as the first move left it |
| `Scenarios.ResetMidGame` | server/index.ts:58-66 | a client that moves twice, sends an unknown intent and then resets sees the initial state |

## Findings

| source | as written | input that shows it | evidently intended | confidence | as-written member | corrected member |
|---|---|---|---|---|---|---|
| server/index.ts:41-49 | the guard `!gameOver && !board[index]` takes any index whose cell reads as `undefined`, including 9 or -1, and the turn passes anyway | `{type: "move", index: 9}` on a fresh game: no cell is marked, yet O is to move | an index outside 0..8 is ignored, as for a marked cell | medium, not executed | `Server.NextState`, shown by `Server.OutOfRangeMoveSkipsTurn` | `Server.Move` with `Server.OutOfRangeMoveIgnored` and `Server.MovePreservesConsistent`, used by `Server.Authority.HandleMove` |

## Left out

- `Server.Authority.HandleMove`: for an index outside 0..8 it does nothing, where the server takes the move and passes the turn. The as-written behaviour is in `Server.NextState` and under "## Findings".
- `Server.NextState`: models only the nine cells 0..8. It does not model the slot outside them that a move at an out-of-range index writes (server/index.ts:43): an index of 9 or more lengthens the stored array, and a negative index adds a property that the copy at line 42 drops on the next accepted move. The server then rejects a repeat of that index, because the slot is no longer empty (line 41), while `NextState` takes it again and passes the turn once more. The longer array is also broadcast to the clients.
- `Board.CheckWinner`: requires a nine-cell board. After a move at an index of 9 or more the server passes it a longer array (server/index.ts:42-44), but `checkWinner` reads only indices 0..8 (lines 25-27, 31-32), so the winner does not depend on the extra slots. The "board full" test at line 45 also sees them, and they never hold `null`.
- `broadcastGameState` (server/index.ts:68-76): logging, JSON serialisation and sending to every open socket are I/O. The model keeps only the order of published states, in the ghost log `Server.Authority.broadcasts`.
- The initial send of the state to a client on connection (server/index.ts:78-80) and the close handler (server/index.ts:91-93) are transport I/O with no effect on the state.
- `JSON.parse` of incoming messages (server/index.ts:83) is left out, including the fault a malformed message raises. Indices that are not integers, such as `"3"` or `1.5`, are also left out. An intent is modelled as `MoveTo(index)` with an integer index, `Reset`, or `Unrecognised`.
- The Express/HTTP/WebSocket setup and the port configuration (server/index.ts:1-3, 12-14, 96-99) are library plumbing.
- All of `client/src/App.tsx`: its optimistic move repeats the server's move rule without detecting a win, and the next broadcast from the server replaces it wholesale.
