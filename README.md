# Chess rules engine in Dafny

This project models the rules engine of a small Unity chess game. It has four parts.

- **Board storage** (`Board`): an 8x8 array of optional piece references, with unchecked set, clear and get operations and a separate bounds test.
- **Turn coordinator** (`BoardManager`): it owns the board, the stack of committed moves, the side to move and the turn counter.
  - It commits moves: it records the move, clears the origin, overwrites the destination and flips the turn.
  - It places pieces during setup, clears the board and starts a new game.
- **Move generators**: one `GetMoves` per piece kind.
  - Bishop, rook and queen use the shared ray walk `Piece.GetSlidingMoves`.
  - Knight and king use fixed offset tables. The king adds castling through `CanCastle`.
  - The pawn has the one-step and two-step advances, the diagonal captures, and en passant, which it judges from the top of the move stack.
  - These are pseudo-legal versions of the moves in Article 3 of the FIDE Laws of Chess. Nothing filters out moves that leave the king in check.
- **Save encoder** (`FileManager.SaveGame`): the text that the game writes to its save file.

The model follows the code as written, not the chess rules the code approximates.

- A commit removes no pawn captured en passant. It does not move the rook when the king castles, and it sets no `hasMoved` flag.
- Castling checks neither the rook's colour nor attacked squares.
- Castling tests only the rook square and the squares between the king and the rook, and the castling destinations are files 6 and 2 whatever file the king is on. So an unmoved king standing on file 6 or 2 can be offered its own square (`PieceActions.MovesForShape`).

### Modelling decisions

- **Boards and pieces.**
  - A piece is a Dafny `class`.
    - Its `color`, `kind` and `hasMoved` are constants, because no code in the engine assigns them.
    - `hasMoved` is read by the castling test, but it is declared nowhere in the source, so the model fixes it when the piece is created.
    - `currentPosition` is a mutable field.
  - The board is an `array2<Piece?>`.
  - The array's contents are read as a value, `Grid` (`Board.Cells()`). Each generator is specified as a function of that value, and each method is proved equal to its function.
- **Undefined calls.**
  - `BoardManager.GetTurnCount` and `BoardManager.IsDoublePawnMove` are called by the pawn but not defined in the source.
  - `GetTurnCount` returns `turnCount`.
  - `IsDoublePawnMove` is an arbitrary predicate on moves, supplied when the `BoardManager` is created.
- **Turn bookkeeping.**
  - `BoardManager.Valid()` keeps `turnCount == |moves|`.
  - It also tracks a ghost count of commits since the last reset. The side to move is White exactly after an even number of them.
  - `NewGame` resets the side to move but not the counter or the stack.
- **The commit gate.** The drag-and-drop front end (`PieceInteraction.OnMouseDown`/`OnMouseUp`) commits a move only when:
  - the mover's side is to move;
  - the drop square is in the piece's `GetMoves()` list.

  These two conditions are the precondition of `PieceActions.SetPosition`.
- **New game setup.** `NewGame` takes as a parameter the list of placements that `BoardInitializer.InitializePieces` would make. Its `SetPositionOnly` call has the effect of `PlacePiece`.
- **Reading a save.** `LoadGame` is empty, so the game cannot read its own save file. The model defines its own reader, `FileManager.LoadText`, to state what the text determines: the side to move, and the colour and kind on every square.

## Model

| member | source | states |
|---|---|---|
| Data.Opponent | Assets/Scripts/BoardManager.cs:104-113 | flipping the turn always yields the other side |
| Boards.Updated | Assets/Scripts/Data/Board.cs:20-35 | a write to one square sets that square and leaves the other 63 unchanged |
| Boards.EmptyGrid | Assets/Scripts/Data/Board.cs:12 | every one of the 64 squares is empty |
| Boards.ClearIdempotent | Assets/Scripts/Data/Board.cs:31-35 | clearing a square twice leaves the same board as clearing it once |
| Boards.OverwriteSquare | Assets/Scripts/BoardManager.cs:64-65 | clearing the destination before writing the mover there makes no difference to the board |
| Boards.Board.constructor | Assets/Scripts/Data/Board.cs:12 | a new board is 8x8 with all 64 cells empty |
| Boards.Board.SetPosition | Assets/Scripts/Data/Board.cs:20-24 | requires an in-bounds square (the access is unchecked); afterwards that square holds the piece and no other square changes |
| Boards.Board.ClearPosition | Assets/Scripts/Data/Board.cs:31-35 | requires an in-bounds square; afterwards that square is empty and no other square changes |
| Boards.Board.GetPieceAtPosition | Assets/Scripts/Data/Board.cs:43-46 | a read that changes nothing and returns the occupant of the square |
| Boards.Board.IsMoveWithinBounds | Assets/Scripts/Data/Board.cs:54-64 | true exactly when 0 <= x <= 7 and 0 <= y <= 7, which are exactly the indices of the array |
| Pieces.Piece.constructor | Assets/Scripts/Piece.cs:9-14 | a new piece has the given colour and kind and the default position (0, 0) |
| Moves.NewMove | Assets/Scripts/Data/Move.cs:14-19 | the start is the second argument, the end is the first argument, and the piece is the third argument |
| Manager.TurnAfterParity | Assets/Scripts/BoardManager.cs:102-116 | starting from White, the side to move after n commits is White if and only if n is even |
| Manager.Committed | Assets/Scripts/BoardManager.cs:52-65 | after a commit the destination holds the mover, the origin is empty when it differs from the destination, and every other square is unchanged |
| Manager.CommitKeepsPiecesUnique | Assets/Scripts/BoardManager.cs:52-65 | if no piece stood on two squares before and the mover was on its origin, then afterwards no piece stands on two squares, the mover stands only on the destination, and a captured piece is gone from the board |
| Manager.PlaceAllAt | Assets/Scripts/BoardManager.cs:205-206 | after the setup pass each square holds the piece of the last placement aimed at it, or is unchanged when no placement targets it |
| Manager.BoardManager.constructor | Assets/Scripts/BoardManager.cs:26-32 | Awake gives an empty board, an empty move stack, a turn count of 0 and White to move |
| Manager.BoardManager.MovePiece | Assets/Scripts/BoardManager.cs:45-69 | pushes exactly one move, from the piece's square to the destination; the board becomes the commit of the piece; the side to move flips; the turn count grows by one; the stack height still equals the turn count |
| Manager.BoardManager.PlacePiece | Assets/Scripts/BoardManager.cs:77-83 | writes only the target square and leaves the stack, the turn and the count unchanged |
| Manager.BoardManager.GetPieceAtPosition | Assets/Scripts/BoardManager.cs:90-97 | returns the occupant of the square and changes nothing |
| Manager.BoardManager.NextTurn | Assets/Scripts/BoardManager.cs:102-117 | the side to move flips, the count grows by one, and the move stack is untouched |
| Manager.BoardManager.IsWithinBounds | Assets/Scripts/BoardManager.cs:133-138 | true exactly when the square is on the 8x8 board |
| Manager.BoardManager.GetCurrentTurn | Assets/Scripts/BoardManager.cs:218-221 | the side to move is White flipped once per commit since the last reset, so with `Manager.TurnAfterParity` it is White exactly after an even number of commits |
| Manager.BoardManager.GetTurnCount | Assets/Scripts/PieceTypes/Pawn.cs:72 | the turn count equals the height of the move stack |
| Manager.BoardManager.ClearBoardPositions | Assets/Scripts/BoardManager.cs:167-176 | afterwards all 64 squares are empty, and the manager's fields are unchanged |
| Manager.BoardManager.NewGame | Assets/Scripts/BoardManager.cs:195-212 | the board holds exactly the setup placements written over an empty board, White is to move, and the stack and the count are untouched |
| Targets.OffsetMovesSpec | Assets/Scripts/PieceTypes/Knight.cs:25-42 | a square is kept if and only if its offset is in the table and the square is on the board and not friendly; a table without duplicates gives a list without duplicates; there is at most one square per offset |
| Targets.ScanOffsets | Assets/Scripts/PieceTypes/Knight.cs:25-42 | the offset loop returns the kept squares in the order of the table |
| Sliding.SlidingMovesSpec | Assets/Scripts/Piece.cs:70-93 | the result is steps 1, 2, ..., n along the direction, in order and all on the board; step k is returned if and only if it is on the board, not friendly and all earlier steps are empty; all but the last are empty; the last is not friendly; at most 7 |
| Sliding.SlideMember | Assets/Scripts/Piece.cs:73-90 | along a unit direction, a square is returned if and only if it lies on that line from the piece and the walk reaches it |
| Sliding.SlideNoDuplicates | Assets/Scripts/Piece.cs:73-90 | along a unit direction no square is returned twice |
| Sliding.RaysSpec | Assets/Scripts/PieceTypes/Bishop.cs:18-21 | concatenated slides contain a square if and only if the square lies on a line in one of the directions and the walk reaches it; every square is on the board and not friendly; distinct directions never repeat a square |
| Sliding.RaysAppend | Assets/Scripts/PieceTypes/Queen.cs:19-28 | the slides of one direction list followed by another are the slides of the first list, then the slides of the second |
| Sliding.GetSlidingMoves | Assets/Scripts/Piece.cs:70-93 | the loop returns exactly the slide of the piece in the given direction |
| Bishops.BishopDirectionsAreDiagonals | Assets/Scripts/PieceTypes/Bishop.cs:18-21 | the four directions are distinct unit steps, and the direction towards a square is one of them if and only if the square differs from the piece in both file and rank |
| Bishops.BishopMovesSpec | Assets/Scripts/PieceTypes/Bishop.cs:14-23 | a square is returned if and only if it is a different square with abs(dx) == abs(dy) and the slide reaches it; each result is on the board and not friendly; no square appears twice |
| Bishops.GetMoves | Assets/Scripts/PieceTypes/Bishop.cs:14-23 | the result is the slides towards (1,1), (-1,-1), (1,-1) and (-1,1), concatenated in that order |
| Rooks.RookDirectionsAreOrthogonal | Assets/Scripts/PieceTypes/Rook.cs:18-21 | the four directions are distinct unit steps, and the direction towards a square is one of them if and only if the square shares exactly one of file and rank with the piece |
| Rooks.RookMovesSpec | Assets/Scripts/PieceTypes/Rook.cs:14-23 | a square is returned if and only if it shares exactly one coordinate with the piece and the slide reaches it; each result is on the board and not friendly; no square appears twice |
| Rooks.GetMoves | Assets/Scripts/PieceTypes/Rook.cs:14-23 | the result is the slides towards (1,0), (-1,0), (0,1) and (0,-1), concatenated in that order |
| Queens.RookOrBishop | Assets/Scripts/PieceTypes/Queen.cs:19-28 | a square is in the rook's or the bishop's list if and only if it is on a line through the piece that the slide reaches; no square is in both lists |
| Queens.QueenIsRookThenBishop | Assets/Scripts/PieceTypes/Queen.cs:19-28 | the queen's list is the rook's list followed by the bishop's list, for the same square and board |
| Queens.QueenMovesSpec | Assets/Scripts/PieceTypes/Queen.cs:14-30 | a square is returned if and only if it is on the piece's rank, file or a diagonal and the slide reaches it; each result is on the board and not friendly; no square appears twice |
| Queens.GetMoves | Assets/Scripts/PieceTypes/Queen.cs:14-30 | the result is the four orthogonal slides followed by the four diagonal slides, in the source's order |
| Knights.KnightOffsetsAreJumps | Assets/Scripts/PieceTypes/Knight.cs:19-23 | the table holds exactly the eight (1,2)/(2,1) jumps, each once |
| Knights.KnightMovesSpec | Assets/Scripts/PieceTypes/Knight.cs:14-44 | a square is returned if and only if it is a knight's jump away, on the board, and empty or enemy-occupied; no duplicates; at most 8 |
| Knights.GetMoves | Assets/Scripts/PieceTypes/Knight.cs:14-44 | the loop returns the knight's list, with the if-and-only-if, no duplicates and at most 8 |
| Kings.KingOffsetsAreNeighbours | Assets/Scripts/PieceTypes/King.cs:19-23 | the table holds exactly the eight vectors at king distance 1, each once |
| Kings.CanCastle | Assets/Scripts/PieceTypes/King.cs:70-89 | true if and only if the rook square holds an unmoved rook of either colour and every square strictly between king and rook is empty; the loop ends because the king is never on the rook's file |
| Kings.KingMovesSpec | Assets/Scripts/PieceTypes/King.cs:14-62 | a square is returned if and only if it is a neighbour that is on the board and not friendly, or (6, rank) or (2, rank) for an unmoved king whose castling test to the rook on file 7 or 0 passes; every result is on the board; at most 10 |
| Kings.CastlingSquares | Assets/Scripts/PieceTypes/King.cs:26-39 | an unmoved king gets (6, rank) when the kingside test passes, then (2, rank) when the queenside test passes; a king that has moved gets none |
| Kings.GetMoves | Assets/Scripts/PieceTypes/King.cs:14-62 | the result is the castling destinations, if the king has not moved, followed by the offset scan |
| Pawns.Forward | Assets/Scripts/PieceTypes/Pawn.cs:17-25 | the forward direction is +1 for White and -1 for Black |
| Pawns.SingleAdvanceSpec | Assets/Scripts/PieceTypes/Pawn.cs:47-53 | the one-step square is returned if and only if it is on the board and empty |
| Pawns.DoubleAdvanceSpec | Assets/Scripts/PieceTypes/Pawn.cs:37-46 | the two-step square is returned if and only if it is on the board, it and the one-step square are empty, and the pawn is White on rank 1 or Black on rank 6 |
| Pawns.CaptureSpec | Assets/Scripts/PieceTypes/Pawn.cs:56-86 | a forward diagonal is returned if and only if it is on the board and either holds an enemy piece or the last move was a double pawn move ending beside the pawn on that side |
| Pawns.EnPassantSpec | Assets/Scripts/PieceTypes/Pawn.cs:72-86 | the en-passant square is offered if and only if the stack is non-empty, the last move is a double pawn move ending one file away on the pawn's rank, and the square behind it is on the board |
| Pawns.PawnMovesShape | Assets/Scripts/PieceTypes/Pawn.cs:31-86 | every returned square is on the board and is either one rank ahead at most one file away, or two ranks ahead on the same file |
| Pawns.ForwardMoves | Assets/Scripts/PieceTypes/Pawn.cs:37-53 | the forward block yields the two-step advance, then the one-step advance |
| Pawns.CaptureMove | Assets/Scripts/PieceTypes/Pawn.cs:56-69 | one capture block yields the diagonal if it is on the board and holds an enemy piece |
| Pawns.EnPassantMove | Assets/Scripts/PieceTypes/Pawn.cs:72-86 | the en-passant block looks only at the top of the move stack and yields the en-passant square |
| Pawns.GetMoves | Assets/Scripts/PieceTypes/Pawn.cs:14-90 | the result is the pawn's list, in the source's order; the method modifies nothing |
| PieceActions.MovesForShape | Assets/Scripts/PieceTypes/King.cs:26-38 | every square any kind offers is on the board; a piece's own square is offered only by castling, to an unmoved king on file 6 or 2 |
| PieceActions.GetMoves | Assets/Scripts/Piece.cs:61 | the list is that of the piece's own kind, on the current board and history |
| PieceActions.SetInitialPosition | Assets/Scripts/Piece.cs:29-33 | the piece takes the square and is written there; the manager's fields, including the stack and the turn, are unchanged |
| PieceActions.SetPosition | Assets/Scripts/Piece.cs:41-46 | under the input gate, the recorded move starts at the piece's old square; afterwards the piece's position is the new square, the board is the commit of the move, the opponent is to move, the count grows by one, and a board on which no piece stood on two squares stays that way |
| FileManager.ParseFieldText | Assets/Scripts/FileManager.cs:46-63 | each square's text reads back as its colour and kind, or as empty |
| FileManager.FieldClean | Assets/Scripts/FileManager.cs:46-63 | no square's text contains a comma or a newline, so the separators delimit the fields and lines |
| FileManager.SplitTerminated | Assets/Scripts/FileManager.cs:41-65 | fields each followed by a separator, none containing it, split back into the same fields |
| FileManager.WriteRank | Assets/Scripts/FileManager.cs:41-64 | the inner loop writes the comma-terminated fields of the rank, from file 7 down to file 0 |
| FileManager.SaveGame | Assets/Scripts/FileManager.cs:23-70 | the nested descending loops write exactly the save text of the board and the side to move |
| FileManager.SaveTextShape | Assets/Scripts/FileManager.cs:29-67 | the text is nine lines; line i of the first eight holds the eight fields of rank 7 - i from file 7 down to file 0; the last line is "W" if and only if White is to move, and "B" if and only if Black is |
| FileManager.SaveTextLoads | Assets/Scripts/FileManager.cs:39-67 | reading the text back gives every square's colour and kind as laid out, and the side to move |
| FileManager.SaveTextDetermines | Assets/Scripts/FileManager.cs:39-67 | two positions that save to the same text have the same side to move and the same colour and kind on every square |

## Left out

- Unity presentation is not modelled:
  - camera and piece rotation in `NextTurn` and `NewGame`, `RotatePieces`, and `GetAllPieceObjects`, which only collects game objects for rotating and destroying;
  - `Destroy` of the captured piece's game object (on the board, the captured piece disappears when its square is overwritten);
  - `Debug.Log` and `PrintGameState`, which only log.
- Singleton wiring (`FindGameObjectWithTag`, `FindObjectOfType`, `GetComponent`) is not modelled. The manager and the board are passed to the operations as parameters.
- `BoardManager.GetColorTurn` is not modelled separately. It returns the same field as `GetCurrentTurn`.
- The flags `isCheck`, `isCheckmate`, `isStalemate` and `isDraw` are not modelled. They are never set, and there is no check or mate logic.
- Not modelled, because the code does none of them at commit time:
  - removing the pawn captured en passant;
  - moving the rook when the king castles;
  - updating `hasMoved`.
- `FileManager.SaveGame`: the file path and the `StreamWriter` are left out. The method returns the text it would write.
- `FileManager.LoadGame` has an empty body, so the model gives no round trip through it. `LoadText` is the model's own reader.
- Prefab instantiation and tile colouring (`BoardInitializer`) are left out. `InitializePieces` becomes the `setup` parameter of `NewGame`, and its `SetPositionOnly` call becomes `PlacePiece`.
- The editor data `StartPosition.cs` (prefab and position lists) is not part of this model.
- Pointer handling in `PieceInteraction` is not modelled: mouse drag, screen-to-world conversion, float rounding and highlight squares. Only its gate is kept, as the precondition of `PieceActions.SetPosition`.
- `Piece.GetType().Name` is modelled by the piece's `kind` and `KindName`, assuming each subclass is named after its kind.
- `BoardManager.IsDoublePawnMove` is an arbitrary predicate, because the source does not define it. The pawn's en-passant properties hold for every choice of it.
- `Pawns.GetMoves` is split into three helper methods, `ForwardMoves`, `CaptureMove` and `EnPassantMove`. Each builds its part of the list, and `GetMoves` appends the parts in the source's order. The resulting list is the same as the single method's, and the single local list is not kept as one variable.
