/**
 * King.GetMoves and King.CanCastle: the eight neighbouring squares, plus the
 * two castling destinations while the king has not moved. Castling looks only
 * at the rook square and the squares between king and rook: it checks neither
 * the rook's colour nor attacked squares, and never moves the rook.
 */
module Kings {
  import opened Data
  import opened Pieces
  import opened Boards
  import opened Targets
  import opened Manager

  /** The offset table, in the order the scan visits it. */
  const KingOffsets: seq<Coord> := [
    Coord(0, 1), Coord(1, 1), Coord(1, 0), Coord(1, -1),
    Coord(0, -1), Coord(-1, -1), Coord(-1, 0), Coord(-1, 1)
  ]

  /** The offset table holds exactly the vectors of king distance 1, each once. */
  lemma KingOffsetsAreNeighbours(from: Coord, to: Coord)
    ensures Offset(from, to) in KingOffsets <==> Distance(from, to) == 1
    ensures NoDuplicates(KingOffsets)
  {
  }

  /** The piece stands on the board at the square it believes it is on. */
  ghost predicate OnBoard(bm: BoardManager, piece: Piece)
    reads bm, bm.gameBoard.board, piece
    requires bm.gameBoard.Valid()
  {
    InBounds(piece.currentPosition) && bm.Cells()[piece.currentPosition.x][piece.currentPosition.y] == piece
  }

  /** Every square strictly between files `kingFile` and `rookFile` on `rank` is empty. */
  predicate PathClear(g: Grid, kingFile: int, rookFile: int, rank: int)
    requires IsGrid(g) && 0 <= kingFile <= 7 && 0 <= rookFile <= 7 && 0 <= rank <= 7
  {
    forall f :: 0 <= f <= 7 && (kingFile < f < rookFile || rookFile < f < kingFile) ==> At(g, Coord(f, rank)) == null
  }

  /**
   * CanCastle's answer: the square (rookFile, rank) holds a rook, of either
   * colour, that has not moved, and the path to it is clear.
   */
  predicate CastleAllowed(g: Grid, kingFile: int, rookFile: int, rank: int)
    requires IsGrid(g) && 0 <= kingFile <= 7 && 0 <= rookFile <= 7 && 0 <= rank <= 7
  {
    var rook := At(g, Coord(rookFile, rank));
    rook != null && rook.kind == Rook && !rook.hasMoved && PathClear(g, kingFile, rookFile, rank)
  }

  /**
   * King.CanCastle: checks the rook square, then walks from the king's file
   * towards the rook and gives up at the first occupied square.
   */
  method CanCastle(bm: BoardManager, king: Piece, rookFile: int, rank: int) returns (r: bool)
    requires bm.gameBoard.Valid() && OnBoard(bm, king) && king.kind == King
    requires rookFile == 0 || rookFile == 7
    requires rank == king.currentPosition.y
    ensures r == CastleAllowed(bm.Cells(), king.currentPosition.x, rookFile, rank)
  {
    ghost var g := bm.Cells();
    var kingFile := king.currentPosition.x;
    var rook := bm.GetPieceAtPosition(Coord(rookFile, rank));
    if rook != null && rook.kind == Rook && !rook.hasMoved {
      // the rook square does not hold the king, so the king's file differs from rookFile
      assert kingFile != rookFile;
      var direction := if rookFile == 7 then 1 else -1;
      var file := kingFile + direction;
      while file != rookFile
        invariant rookFile == 7 ==> kingFile < file <= 7
        invariant rookFile == 0 ==> 0 <= file < kingFile
        invariant forall f :: (kingFile < f < file || file < f < kingFile) ==> At(g, Coord(f, rank)) == null
        decreases if rookFile == 7 then rookFile - file else file - rookFile
      {
        if bm.GetPieceAtPosition(Coord(file, rank)) != null {
          return false;
        }
        file := file + direction;
      }
      return true;
    }
    return false;
  }

  /** The castling destinations King.GetMoves lists: (6, rank) first, then (2, rank). */
  function CastlingMoves(g: Grid, hasMoved: bool, pos: Coord): seq<Coord>
    requires IsGrid(g) && InBounds(pos)
  {
    if hasMoved then []
    else
      (if CastleAllowed(g, pos.x, 7, pos.y) then [Coord(6, pos.y)] else [])
      + (if CastleAllowed(g, pos.x, 0, pos.y) then [Coord(2, pos.y)] else [])
  }

  /** The squares King.GetMoves returns for a king of side `color` on `pos`. */
  function KingMoves(g: Grid, color: Color, hasMoved: bool, pos: Coord): seq<Coord>
    requires IsGrid(g) && InBounds(pos)
  {
    CastlingMoves(g, hasMoved, pos) + OffsetMoves(g, color, pos, KingOffsets)
  }

  /**
   * A square is a king move exactly when it is a neighbour that is on the
   * board and not friendly, or it is a castling destination whose castling
   * test passes while the king has not moved. Every result is on the board.
   */
  lemma KingMovesSpec(g: Grid, color: Color, hasMoved: bool, pos: Coord)
    requires IsGrid(g) && InBounds(pos)
    ensures forall c :: c in KingMoves(g, color, hasMoved, pos) <==>
      || (Distance(pos, c) == 1 && Open(g, color, c))
      || (!hasMoved && c == Coord(6, pos.y) && CastleAllowed(g, pos.x, 7, pos.y))
      || (!hasMoved && c == Coord(2, pos.y) && CastleAllowed(g, pos.x, 0, pos.y))
    ensures forall c :: c in KingMoves(g, color, hasMoved, pos) ==> InBounds(c)
    ensures |KingMoves(g, color, hasMoved, pos)| <= 10
  {
    OffsetMovesSpec(g, color, pos, KingOffsets);
    forall c
      ensures Offset(pos, c) in KingOffsets <==> Distance(pos, c) == 1
    {
      KingOffsetsAreNeighbours(pos, c);
    }
  }

  /** The castling part of King.GetMoves: kingside, then queenside, only while the king has not moved. */
  method CastlingSquares(bm: BoardManager, piece: Piece) returns (moves: seq<Coord>)
    requires bm.gameBoard.Valid() && OnBoard(bm, piece) && piece.kind == King
    ensures moves == CastlingMoves(bm.Cells(), piece.hasMoved, piece.currentPosition)
  {
    var pos := piece.currentPosition;
    moves := [];
    if !piece.hasMoved {
      var kingside := CanCastle(bm, piece, 7, pos.y);
      if kingside {
        moves := moves + [Coord(6, pos.y)];
      }
      var queenside := CanCastle(bm, piece, 0, pos.y);
      if queenside {
        moves := moves + [Coord(2, pos.y)];
      }
    }
  }

  /** King.GetMoves: castling destinations first, then the scan of the offset table. */
  method GetMoves(bm: BoardManager, piece: Piece) returns (moves: seq<Coord>)
    requires bm.gameBoard.Valid() && OnBoard(bm, piece) && piece.kind == King
    ensures moves == KingMoves(bm.Cells(), piece.color, piece.hasMoved, piece.currentPosition)
  {
    var castling := CastlingSquares(bm, piece);
    var regular := ScanOffsets(bm, piece, KingOffsets);
    moves := castling + regular;
  }
}
