/**
 * Pawn.GetMoves: the two-square advance from the home rank, the one-square
 * advance, the two diagonal captures, and en passant judged from the last
 * committed move alone.
 */
module Pawns {
  import opened Data
  import opened Pieces
  import opened Boards
  import opened Moves
  import opened Targets
  import opened Manager

  /** Ranks grow towards Black: White pawns advance by +1, Black pawns by -1. */
  function Forward(color: Color): (dir: int)
    ensures dir == 1 || dir == -1
    ensures dir == 1 <==> color == White
  {
    if color == White then 1 else -1
  }

  /** The rank from which a pawn of `color` may advance two squares. */
  predicate OnHomeRank(color: Color, pos: Coord) {
    (pos.y == 1 && color == White) || (pos.y == 6 && color == Black)
  }

  /** The two-square advance: both squares ahead empty, from the home rank. */
  function DoubleAdvance(g: Grid, color: Color, pos: Coord): seq<Coord>
    requires IsGrid(g) && InBounds(pos)
  {
    var oneAhead := Coord(pos.x, pos.y + Forward(color));
    var twoAhead := Coord(pos.x, pos.y + 2 * Forward(color));
    if InBounds(twoAhead) && At(g, twoAhead) == null && At(g, oneAhead) == null && OnHomeRank(color, pos)
    then [twoAhead] else []
  }

  /** The one-square advance onto an empty square. */
  function SingleAdvance(g: Grid, color: Color, pos: Coord): seq<Coord>
    requires IsGrid(g)
  {
    var oneAhead := Coord(pos.x, pos.y + Forward(color));
    if InBounds(oneAhead) && At(g, oneAhead) == null then [oneAhead] else []
  }

  /** The diagonal capture towards file offset `dx`, onto an enemy piece. */
  function Capture(g: Grid, color: Color, pos: Coord, dx: int): seq<Coord>
    requires IsGrid(g)
  {
    var take := Coord(pos.x + dx, pos.y + Forward(color));
    if InBounds(take) && Enemy(g, color, take) then [take] else []
  }

  /**
   * The last committed move was a two-square pawn advance that ended on the
   * square beside `pos` in file direction `dx`, on the same rank.
   */
  predicate EnPassantBeside(history: seq<Move>, isDouble: Move -> bool, pos: Coord, dx: int) {
    |history| > 0
    && isDouble(history[|history| - 1])
    && history[|history| - 1].endPosition == Coord(pos.x + dx, pos.y)
  }

  /** The en-passant destination: behind the last move's end square, in the mover's forward direction. */
  function EnPassantMoves(color: Color, pos: Coord, history: seq<Move>, isDouble: Move -> bool): seq<Coord> {
    if |history| > 0 then
      var last := history[|history| - 1];
      if isDouble(last)
         && (last.endPosition.x == pos.x + 1 || last.endPosition.x == pos.x - 1)
         && last.endPosition.y == pos.y
      then
        var target := Coord(last.endPosition.x, last.endPosition.y + Forward(color));
        if InBounds(target) then [target] else []
      else []
    else []
  }

  /** En passant offers at most the diagonal square beside which the last move ended. */
  lemma EnPassantSpec(color: Color, pos: Coord, history: seq<Move>, isDouble: Move -> bool, c: Coord)
    ensures c in EnPassantMoves(color, pos, history, isDouble) <==>
      InBounds(c) && c.y == pos.y + Forward(color)
      && ((c.x == pos.x + 1 && EnPassantBeside(history, isDouble, pos, 1))
          || (c.x == pos.x - 1 && EnPassantBeside(history, isDouble, pos, -1)))
  {
  }

  /**
   * The squares Pawn.GetMoves returns for a pawn of side `color` on `pos`,
   * given the move stack `history` (its top is the last element), in the
   * order the source adds them.
   */
  function PawnMoves(g: Grid, color: Color, pos: Coord, history: seq<Move>, isDouble: Move -> bool): seq<Coord>
    requires IsGrid(g) && InBounds(pos)
  {
    DoubleAdvance(g, color, pos) + SingleAdvance(g, color, pos)
    + Capture(g, color, pos, 1) + Capture(g, color, pos, -1)
    + EnPassantMoves(color, pos, history, isDouble)
  }

  /** The one-square advance is offered exactly when that square is on the board and empty. */
  lemma SingleAdvanceSpec(g: Grid, color: Color, pos: Coord, history: seq<Move>, isDouble: Move -> bool)
    requires IsGrid(g) && InBounds(pos)
    ensures var oneAhead := Coord(pos.x, pos.y + Forward(color));
      oneAhead in PawnMoves(g, color, pos, history, isDouble) <==> InBounds(oneAhead) && At(g, oneAhead) == null
  {
    var oneAhead := Coord(pos.x, pos.y + Forward(color));
    EnPassantSpec(color, pos, history, isDouble, oneAhead);
  }

  /** The two-square advance is offered exactly from the home rank with both squares ahead empty. */
  lemma DoubleAdvanceSpec(g: Grid, color: Color, pos: Coord, history: seq<Move>, isDouble: Move -> bool)
    requires IsGrid(g) && InBounds(pos)
    ensures var oneAhead, twoAhead := Coord(pos.x, pos.y + Forward(color)), Coord(pos.x, pos.y + 2 * Forward(color));
      twoAhead in PawnMoves(g, color, pos, history, isDouble) <==>
        InBounds(twoAhead) && At(g, twoAhead) == null && At(g, oneAhead) == null && OnHomeRank(color, pos)
  {
    var twoAhead := Coord(pos.x, pos.y + 2 * Forward(color));
    EnPassantSpec(color, pos, history, isDouble, twoAhead);
  }

  /**
   * A forward diagonal (file offset `dx` of 1 or -1) is offered exactly when
   * it is on the board and holds an enemy piece, or the last move gives an
   * en-passant chance on that side.
   */
  lemma CaptureSpec(g: Grid, color: Color, pos: Coord, history: seq<Move>, isDouble: Move -> bool, dx: int)
    requires IsGrid(g) && InBounds(pos) && (dx == 1 || dx == -1)
    ensures var take := Coord(pos.x + dx, pos.y + Forward(color));
      take in PawnMoves(g, color, pos, history, isDouble) <==>
        InBounds(take) && (Enemy(g, color, take) || EnPassantBeside(history, isDouble, pos, dx))
  {
    var take := Coord(pos.x + dx, pos.y + Forward(color));
    EnPassantSpec(color, pos, history, isDouble, take);
  }

  /**
   * Every square offered is on the board, and is either one rank ahead at
   * most one file away or two ranks ahead on the same file.
   */
  lemma PawnMovesShape(g: Grid, color: Color, pos: Coord, history: seq<Move>, isDouble: Move -> bool)
    requires IsGrid(g) && InBounds(pos)
    ensures forall c :: c in PawnMoves(g, color, pos, history, isDouble) ==>
      && InBounds(c)
      && ((c.y == pos.y + Forward(color) && Abs(c.x - pos.x) <= 1) || c == Coord(pos.x, pos.y + 2 * Forward(color)))
  {
    forall c | c in PawnMoves(g, color, pos, history, isDouble)
      ensures InBounds(c)
      ensures (c.y == pos.y + Forward(color) && Abs(c.x - pos.x) <= 1) || c == Coord(pos.x, pos.y + 2 * Forward(color))
    {
      EnPassantSpec(color, pos, history, isDouble, c);
    }
  }

  /** The forward block of Pawn.GetMoves: the two-square advance, then the one-square advance. */
  method ForwardMoves(bm: BoardManager, piece: Piece) returns (moves: seq<Coord>)
    requires bm.gameBoard.Valid() && InBounds(piece.currentPosition)
    ensures moves == DoubleAdvance(bm.Cells(), piece.color, piece.currentPosition)
      + SingleAdvance(bm.Cells(), piece.color, piece.currentPosition)
  {
    var pos := piece.currentPosition;
    var sideMult := 1;
    if piece.color == Black {
      sideMult := -1;
    }
    var oneAhead := Coord(pos.x, pos.y + 1 * sideMult);
    var twoAhead := Coord(pos.x, pos.y + 2 * sideMult);
    moves := [];
    if bm.IsWithinBounds(twoAhead) {
      if bm.GetPieceAtPosition(twoAhead) == null && bm.GetPieceAtPosition(oneAhead) == null {
        if (pos.y == 1 && piece.color == White) || (pos.y == 6 && piece.color == Black) {
          moves := moves + [twoAhead];
        }
      }
    }
    if bm.IsWithinBounds(oneAhead) {
      if bm.GetPieceAtPosition(oneAhead) == null {
        moves := moves + [oneAhead];
      }
    }
  }

  /** One capture block of Pawn.GetMoves: the forward diagonal towards file offset `dx`. */
  method CaptureMove(bm: BoardManager, piece: Piece, dx: int) returns (moves: seq<Coord>)
    requires bm.gameBoard.Valid()
    ensures moves == Capture(bm.Cells(), piece.color, piece.currentPosition, dx)
  {
    var pos := piece.currentPosition;
    var sideMult := 1;
    if piece.color == Black {
      sideMult := -1;
    }
    var takePosition := Coord(pos.x + dx, pos.y + 1 * sideMult);
    moves := [];
    if bm.IsWithinBounds(takePosition) {
      if bm.GetPieceAtPosition(takePosition) != null && bm.GetPieceAtPosition(takePosition).color != piece.color {
        moves := moves + [takePosition];
      }
    }
  }

  /** The en-passant block of Pawn.GetMoves: looks only at the top of the move stack. */
  method EnPassantMove(bm: BoardManager, piece: Piece) returns (moves: seq<Coord>)
    requires bm.Valid()
    ensures moves == EnPassantMoves(piece.color, piece.currentPosition, bm.moves, bm.isDoublePawnMove)
  {
    var pos := piece.currentPosition;
    var direction := if piece.color == White then 1 else -1;
    moves := [];
    if bm.GetTurnCount() > 0 {
      var lastMove := bm.moves[|bm.moves| - 1];
      if bm.IsDoublePawnMove(lastMove) {
        if lastMove.endPosition.x == pos.x + 1 || lastMove.endPosition.x == pos.x - 1 {
          if lastMove.endPosition.y == pos.y {
            var enPassantCapture := Coord(lastMove.endPosition.x, lastMove.endPosition.y + direction);
            if bm.IsWithinBounds(enPassantCapture) {
              moves := moves + [enPassantCapture];
            }
          }
        }
      }
    }
  }

  /**
   * Pawn.GetMoves: the forward block, the capture to file +1, the capture to
   * file -1, then en passant, each appending to the same list.
   */
  method GetMoves(bm: BoardManager, piece: Piece) returns (moves: seq<Coord>)
    requires bm.Valid() && InBounds(piece.currentPosition)
    ensures moves == PawnMoves(bm.Cells(), piece.color, piece.currentPosition, bm.moves, bm.isDoublePawnMove)
  {
    moves := ForwardMoves(bm, piece);
    var takes1 := CaptureMove(bm, piece, 1);
    moves := moves + takes1;
    var takes2 := CaptureMove(bm, piece, -1);
    moves := moves + takes2;
    var enPassant := EnPassantMove(bm, piece);
    moves := moves + enPassant;
  }
}
