/**
 * The turn coordinator (BoardManager.cs): owns the board, the stack of
 * committed moves, the side to move and the turn counter.
 *
 * The Unity side of the class (camera and piece rotation, destroying the
 * captured piece's game object, logging) has no counterpart here.
 */
module Manager {
  import opened Data
  import opened Pieces
  import opened Boards
  import opened Moves

  /** The side to move after `n` commits, starting with `start` to move. */
  function TurnAfter(start: Color, n: nat): Color {
    if n == 0 then start else Opponent(TurnAfter(start, n - 1))
  }

  /** Starting with White, the side to move is White exactly after an even number of commits. */
  lemma {:induction false} TurnAfterParity(n: nat)
    ensures TurnAfter(White, n) == White <==> n % 2 == 0
    ensures TurnAfter(White, n) == Black <==> n % 2 == 1
  {
    if n > 0 {
      TurnAfterParity(n - 1);
    }
  }

  /**
   * The board after a commit of `p` from `from` to `to`: the origin is
   * cleared, then the destination is overwritten with `p`.
   */
  function Committed(g: Grid, from: Coord, to: Coord, p: Piece): (h: Grid)
    requires IsGrid(g) && InBounds(from) && InBounds(to)
    ensures IsGrid(h)
    ensures At(h, to) == p
    ensures from != to ==> At(h, from) == null
    ensures forall c :: InBounds(c) && c != from && c != to ==> At(h, c) == At(g, c)
  {
    Updated(Updated(g, from, null), to, p)
  }

  /** No piece stands on two squares at once. */
  ghost predicate PiecesUnique(g: Grid)
    requires IsGrid(g)
  {
    forall c, d :: InBounds(c) && InBounds(d) && At(g, c) != null && At(g, c) == At(g, d) ==> c == d
  }

  /**
   * A commit of a piece that stands on its origin keeps every piece on at
   * most one square, leaves the mover on the destination only, and takes a
   * captured piece off the board altogether.
   */
  lemma CommitKeepsPiecesUnique(g: Grid, from: Coord, to: Coord, p: Piece)
    requires IsGrid(g) && InBounds(from) && InBounds(to)
    requires PiecesUnique(g) && At(g, from) == p
    ensures PiecesUnique(Committed(g, from, to, p))
    ensures forall c :: InBounds(c) && At(Committed(g, from, to, p), c) == p ==> c == to
    ensures At(g, to) != null && At(g, to) != p ==>
      forall c :: InBounds(c) ==> At(Committed(g, from, to, p), c) != At(g, to)
  {
  }

  /** Where the setup pass puts each piece: one (piece, square) pair per spawned piece. */
  datatype Placement = Placement(piece: Piece, position: Coord)

  predicate PlacementsInBounds(setup: seq<Placement>) {
    forall i :: 0 <= i < |setup| ==> InBounds(setup[i].position)
  }

  /** The board after writing each placement in order. */
  function PlaceAll(g: Grid, setup: seq<Placement>): (h: Grid)
    requires IsGrid(g) && PlacementsInBounds(setup)
    ensures IsGrid(h)
    decreases |setup|
  {
    if setup == [] then g
    else
      var last := setup[|setup| - 1];
      Updated(PlaceAll(g, setup[..|setup| - 1]), last.position, last.piece)
  }

  /** The index of the last placement that targets `c`, or -1 when none does. */
  function LastPlacementAt(setup: seq<Placement>, c: Coord): (k: int)
    ensures -1 <= k < |setup|
    ensures k >= 0 ==> setup[k].position == c
    ensures forall j :: k < j < |setup| ==> setup[j].position != c
    decreases |setup|
  {
    if setup == [] then -1
    else if setup[|setup| - 1].position == c then |setup| - 1
    else LastPlacementAt(setup[..|setup| - 1], c)
  }

  /**
   * After the setup pass a square holds the piece of the last placement that
   * targets it, and is untouched when no placement targets it.
   */
  lemma {:induction false} PlaceAllAt(g: Grid, setup: seq<Placement>, c: Coord)
    requires IsGrid(g) && PlacementsInBounds(setup) && InBounds(c)
    ensures var k := LastPlacementAt(setup, c);
      At(PlaceAll(g, setup), c) == if k < 0 then At(g, c) else setup[k].piece
    decreases |setup|
  {
    if setup != [] {
      var prefix := setup[..|setup| - 1];
      if setup[|setup| - 1].position != c {
        PlaceAllAt(g, prefix, c);
      }
    }
  }

  class BoardManager {
    const gameBoard: Board
    /**
     * The test "was this move a two-square pawn advance". The C# code calls
     * BoardManager.IsDoublePawnMove but does not define it, so it is a
     * parameter of the model.
     */
    const isDoublePawnMove: Move -> bool
    var turnCount: int
    var currentTurn: Color
    /** The stack of committed moves; its top is the last element. */
    var moves: seq<Move>
    /** Commits since the object was created or NewGame last ran. */
    ghost var commitsSinceReset: nat

    ghost predicate Valid()
      reads this
    {
      && gameBoard.Valid()
      && turnCount == |moves|
      && commitsSinceReset <= turnCount
      && currentTurn == TurnAfter(White, commitsSinceReset)
    }

    /** The board's contents as a value. */
    ghost function Cells(): (g: Grid)
      reads gameBoard.board
      requires gameBoard.Valid()
      ensures IsGrid(g)
    {
      gameBoard.Cells()
    }

    /** Awake: an empty board, no history, White to move. */
    constructor (isDoublePawnMove: Move -> bool)
      ensures Valid() && fresh(gameBoard) && fresh(gameBoard.board)
      ensures this.isDoublePawnMove == isDoublePawnMove
      ensures Cells() == EmptyGrid()
      ensures moves == [] && turnCount == 0 && currentTurn == White
      ensures commitsSinceReset == 0
    {
      gameBoard := new Board();
      this.isDoublePawnMove := isDoublePawnMove;
      turnCount := 0;
      currentTurn := White;
      moves := [];
      commitsSinceReset := 0;
    }

    /**
     * Commits `piece` to `newPosition`: records the move, clears the origin,
     * overwrites the destination (removing any piece there) and starts the
     * next turn. No en-passant capture, rook relocation or hasMoved update
     * happens here.
     */
    method MovePiece(newPosition: Coord, piece: Piece)
      requires Valid() && InBounds(piece.currentPosition) && InBounds(newPosition)
      modifies this, gameBoard.board
      ensures Valid()
      ensures moves == old(moves) + [NewMove(newPosition, piece.currentPosition, piece)]
      ensures Cells() == Committed(old(Cells()), piece.currentPosition, newPosition, piece)
      ensures currentTurn == Opponent(old(currentTurn))
      ensures turnCount == old(turnCount) + 1
      ensures commitsSinceReset == old(commitsSinceReset) + 1
    {
      var move := NewMove(newPosition, piece.currentPosition, piece);
      moves := moves + [move];

      gameBoard.ClearPosition(piece.currentPosition.x, piece.currentPosition.y);
      ghost var cleared := Cells();

      var x := newPosition.x;
      var y := newPosition.y;
      // Any piece at the destination is destroyed in the scene; on the board it
      // disappears when the square is overwritten below.
      gameBoard.ClearPosition(x, y);
      gameBoard.SetPosition(piece, x, y);
      OverwriteSquare(cleared, newPosition, null, piece);

      NextTurn();
    }

    /** Writes `piece` at `position` without recording a move or changing the turn; used for setup. */
    method PlacePiece(position: Coord, piece: Piece)
      requires Valid() && InBounds(position)
      modifies gameBoard.board
      ensures Valid()
      ensures Cells() == Updated(old(Cells()), position, piece)
      ensures unchanged(this)
    {
      var x := position.x;
      var y := position.y;
      gameBoard.SetPosition(piece, x, y);
    }

    /** The piece, if any, at `position`. */
    function GetPieceAtPosition(position: Coord): (p: Piece?)
      reads gameBoard.board
      requires gameBoard.Valid() && InBounds(position)
      ensures p == At(Cells(), position)
    {
      var x := position.x;
      var y := position.y;
      gameBoard.GetPieceAtPosition(x, y)
    }

    /** Hands the move to the other side and counts the turn. */
    method NextTurn()
      modifies this
      ensures currentTurn == Opponent(old(currentTurn))
      ensures turnCount == old(turnCount) + 1
      ensures commitsSinceReset == old(commitsSinceReset) + 1
      ensures moves == old(moves)
    {
      if currentTurn == White {
        currentTurn := Black;
      } else {
        currentTurn := White;
      }
      turnCount := turnCount + 1;
      commitsSinceReset := commitsSinceReset + 1;
    }

    /** The bounds test, delegated to the board. */
    function IsWithinBounds(move: Coord): (r: bool)
      ensures r <==> InBounds(move)
      ensures gameBoard.Valid() ==>
        (r <==> 0 <= move.x < gameBoard.board.Length0 && 0 <= move.y < gameBoard.board.Length1)
    {
      var x := move.x;
      var y := move.y;
      gameBoard.IsMoveWithinBounds(x, y)
    }

    /** The side to move: White exactly when an even number of commits happened since the last reset. */
    function GetCurrentTurn(): (c: Color)
      reads this
      requires Valid()
      ensures c == TurnAfter(White, commitsSinceReset)
    {
      currentTurn
    }

    /** The number of commits so far, which is the height of the move stack. */
    function GetTurnCount(): (n: int)
      reads this
      requires Valid()
      ensures n == |moves|
    {
      turnCount
    }

    /** The predicate the pawn's en-passant test applies to the last move. */
    predicate IsDoublePawnMove(move: Move)
      reads this
    {
      isDoublePawnMove(move)
    }

    /** Empties all 64 squares. */
    method ClearBoardPositions()
      requires Valid()
      modifies gameBoard.board
      ensures Valid()
      ensures Cells() == EmptyGrid()
      ensures unchanged(this)
    {
      for x := 0 to 8
        invariant forall c :: InBounds(c) && c.x < x ==> At(Cells(), c) == null
      {
        for y := 0 to 8
          invariant forall c :: InBounds(c) && (c.x < x || (c.x == x && c.y < y)) ==> At(Cells(), c) == null
        {
          gameBoard.ClearPosition(x, y);
        }
      }
      GridExtensionality(Cells(), EmptyGrid());
    }

    /**
     * Starts a new game: clears the board, lets the setup pass place the
     * pieces in `setup`, and gives the move to White. The move stack and the
     * turn counter are left as they were.
     */
    method NewGame(setup: seq<Placement>)
      requires Valid() && PlacementsInBounds(setup)
      modifies this, gameBoard.board
      ensures Valid()
      ensures Cells() == PlaceAll(EmptyGrid(), setup)
      ensures currentTurn == White && commitsSinceReset == 0
      ensures moves == old(moves) && turnCount == old(turnCount)
    {
      ClearBoardPositions();
      for i := 0 to |setup|
        invariant Valid() && unchanged(this)
        invariant Cells() == PlaceAll(EmptyGrid(), setup[..i])
      {
        assert setup[..i + 1][..i] == setup[..i];
        PlacePiece(setup[i].position, setup[i].piece);
      }
      assert setup[..|setup|] == setup;
      currentTurn := White;
      commitsSinceReset := 0;
    }
  }
}
