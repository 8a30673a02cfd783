/**
 * What a piece does on the board (Piece.cs): it asks its own kind for its
 * moves, is placed during setup, and commits a move through the board
 * manager before it updates the square it believes it stands on.
 *
 * The drag-and-drop front end (PieceInteraction.cs) only calls SetPosition
 * when the piece's side is to move and the drop square is among the piece's
 * moves; that gate is the precondition of SetPosition here.
 */
module PieceActions {
  import opened Data
  import opened Pieces
  import opened Boards
  import opened Moves
  import opened Targets
  import opened Sliding
  import opened Manager
  import Pawns
  import Knights
  import Bishops
  import Rooks
  import Queens
  import Kings

  /** The list the GetMoves override of a piece of kind `kind` returns. */
  function MovesFor(g: Grid, kind: PieceType, color: Color, hasMoved: bool, pos: Coord,
                    history: seq<Move>, isDouble: Move -> bool): seq<Coord>
    requires IsGrid(g) && InBounds(pos)
  {
    match kind
    case Pawn => Pawns.PawnMoves(g, color, pos, history, isDouble)
    case Knight => Knights.KnightMoves(g, color, pos)
    case Bishop => Bishops.BishopMoves(g, color, pos)
    case Rook => Rooks.RookMoves(g, color, pos)
    case Queen => Queens.QueenMoves(g, color, pos)
    case King => Kings.KingMoves(g, color, hasMoved, pos)
  }

  /**
   * Whatever the kind, every square offered is on the board, and it differs
   * from the piece's own square, except for a king's castling destination on
   * the king's own file (file 6 or 2), which the castling test never rules out.
   */
  lemma MovesForShape(g: Grid, kind: PieceType, color: Color, hasMoved: bool, pos: Coord,
                      history: seq<Move>, isDouble: Move -> bool)
    requires IsGrid(g) && InBounds(pos)
    ensures forall c :: c in MovesFor(g, kind, color, hasMoved, pos, history, isDouble) ==> InBounds(c)
    ensures pos in MovesFor(g, kind, color, hasMoved, pos, history, isDouble) ==>
      kind == King && !hasMoved && (pos.x == 6 || pos.x == 2)
  {
    match kind
    case Pawn => Pawns.PawnMovesShape(g, color, pos, history, isDouble);
    case Knight => Knights.KnightMovesSpec(g, color, pos);
    case Bishop => Bishops.BishopMovesSpec(g, color, pos);
    case Rook => Rooks.RookMovesSpec(g, color, pos);
    case Queen => Queens.QueenMovesSpec(g, color, pos);
    case King => Kings.KingMovesSpec(g, color, hasMoved, pos);
  }

  /** The moves of `piece` on the current board, given the current history. */
  ghost function LegalMoves(bm: BoardManager, piece: Piece): seq<Coord>
    reads bm, bm.gameBoard.board, piece
    requires bm.gameBoard.Valid() && InBounds(piece.currentPosition)
  {
    MovesFor(bm.Cells(), piece.kind, piece.color, piece.hasMoved, piece.currentPosition, bm.moves, bm.isDoublePawnMove)
  }

  /** Piece.GetMoves: the override of the piece's own kind. */
  method GetMoves(bm: BoardManager, piece: Piece) returns (moves: seq<Coord>)
    requires bm.Valid() && Kings.OnBoard(bm, piece)
    ensures moves == LegalMoves(bm, piece)
  {
    match piece.kind
    case Pawn => moves := Pawns.GetMoves(bm, piece);
    case Knight => moves := Knights.GetMoves(bm, piece);
    case Bishop => moves := Bishops.GetMoves(bm, piece);
    case Rook => moves := Rooks.GetMoves(bm, piece);
    case Queen => moves := Queens.GetMoves(bm, piece);
    case King => moves := Kings.GetMoves(bm, piece);
  }

  /**
   * Piece.SetInitialPosition: the piece takes `position` and is written
   * there; no move is recorded and the turn does not change.
   */
  method SetInitialPosition(bm: BoardManager, piece: Piece, position: Coord)
    requires bm.Valid() && InBounds(position)
    modifies piece, bm.gameBoard.board
    ensures bm.Valid() && unchanged(bm)
    ensures piece.currentPosition == position
    ensures bm.Cells() == Updated(old(bm.Cells()), position, piece)
    ensures Kings.OnBoard(bm, piece)
  {
    piece.currentPosition := position;
    bm.PlacePiece(position, piece);
  }

  /**
   * Piece.SetPosition: commits the move first, so the recorded move starts
   * at the old square, then updates the piece's own position. A piece that
   * stood on its square stands on its new one afterwards, and a board on
   * which no piece stood on two squares stays that way.
   */
  method SetPosition(bm: BoardManager, piece: Piece, position: Coord)
    requires bm.Valid() && Kings.OnBoard(bm, piece)
    requires piece.color == bm.GetCurrentTurn() && position in LegalMoves(bm, piece)
    // implied by the line above (MovesForShape); stated for the commit's postconditions
    requires InBounds(position)
    modifies bm, bm.gameBoard.board, piece
    ensures bm.Valid()
    ensures bm.moves == old(bm.moves) + [NewMove(position, old(piece.currentPosition), piece)]
    ensures piece.currentPosition == position
    ensures bm.Cells() == Committed(old(bm.Cells()), old(piece.currentPosition), position, piece)
    ensures Kings.OnBoard(bm, piece)
    ensures bm.currentTurn == Opponent(piece.color)
    ensures bm.turnCount == old(bm.turnCount) + 1
    ensures old(PiecesUnique(bm.Cells())) ==> PiecesUnique(bm.Cells())
  {
    ghost var before := bm.Cells();
    ghost var from := piece.currentPosition;
    if PiecesUnique(before) {
      CommitKeepsPiecesUnique(before, from, position, piece);
    }
    bm.MovePiece(position, piece);
    piece.currentPosition := position;
  }
}
