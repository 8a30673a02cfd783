/**
 * The save file (FileManager.SaveGame) as the text it produces: eight board
 * lines from rank 7 down to rank 0, each holding eight comma-terminated
 * fields from file 7 down to file 0, then a line with the side to move.
 *
 * The game has no reader for this text (LoadGame is empty), so the model
 * brings its own, LoadText, to state what the text determines: the colour and
 * kind on every square and the side to move.
 */
module FileManager {
  import opened Data
  import opened Pieces
  import opened Boards
  import opened Manager

  datatype Option<T> = None | Some(value: T)

  /** The name of the piece's C# subclass, which SaveGame writes. */
  function KindName(kind: PieceType): string {
    match kind
    case Pawn => "Pawn"
    case Knight => "Knight"
    case Bishop => "Bishop"
    case Rook => "Rook"
    case Queen => "Queen"
    case King => "King"
  }

  /** "W" for White, "B" for Black. */
  function ColorLetter(color: Color): string {
    if color == White then "W" else "B"
  }

  /** The text of one square, without its comma. */
  function FieldText(p: Piece?): string {
    if p == null then "empty" else ColorLetter(p.color) + " " + KindName(p.kind)
  }

  /** Every part followed by `sep`, in order. */
  function Terminated(parts: seq<string>, sep: char): string
    decreases |parts|
  {
    if parts == [] then [] else parts[0] + [sep] + Terminated(parts[1..], sep)
  }

  /** Writing one more part appends it and its separator. */
  lemma {:induction false} TerminatedSnoc(parts: seq<string>, p: string, sep: char)
    ensures Terminated(parts + [p], sep) == Terminated(parts, sep) + p + [sep]
    decreases |parts|
  {
    if parts != [] {
      assert (parts + [p])[1..] == parts[1..] + [p];
      TerminatedSnoc(parts[1..], p, sep);
    } else {
      assert (parts + [p])[1..] == [];
    }
  }

  /** The fields of rank `y`, from file 7 down to file 0. */
  function RowFields(g: Grid, y: int): seq<string>
    requires IsGrid(g) && 0 <= y <= 7
  {
    seq(8, i requires 0 <= i < 8 => FieldText(At(g, Coord(7 - i, y))))
  }

  /** The line of rank `y`, without its newline. */
  function RowText(g: Grid, y: int): string
    requires IsGrid(g) && 0 <= y <= 7
  {
    Terminated(RowFields(g, y), ',')
  }

  /** The board lines, from rank 7 down to rank 0. */
  function BoardLines(g: Grid): seq<string>
    requires IsGrid(g)
  {
    seq(8, i requires 0 <= i < 8 => RowText(g, 7 - i))
  }

  /** The whole file: the board lines, then the side to move, each ended by a newline. */
  function SaveText(g: Grid, turn: Color): string
    requires IsGrid(g)
  {
    Terminated(BoardLines(g) + [ColorLetter(turn)], '\n')
  }

  lemma SliceSnoc<T>(s: seq<T>, k: int)
    requires 0 <= k < |s|
    ensures s[..k + 1] == s[..k] + [s[k]]
  {
  }

  lemma SliceCons<T>(s: seq<T>, k: int)
    requires 0 <= k < |s|
    ensures s[k..] == [s[k]] + s[k + 1..]
  {
  }

  lemma SliceAll<T>(s: seq<T>)
    ensures s[..|s|] == s
  {
  }

  /** Field i of rank y's line is the text of file 7 - i. */
  lemma FieldAt(g: Grid, y: int, i: int)
    requires IsGrid(g) && 0 <= y <= 7 && 0 <= i < 8
    ensures RowFields(g, y)[i] == FieldText(At(g, Coord(7 - i, y)))
  {
  }

  /** Board line i is the line of rank 7 - i. */
  lemma LineAt(g: Grid, i: int)
    requires IsGrid(g) && 0 <= i < 8
    ensures BoardLines(g)[i] == RowText(g, 7 - i)
  {
  }

  /** Writing a part and its separator after terminated parts extends those parts. */
  lemma WritePart(parts: seq<string>, p: string, sep: char)
    ensures Terminated(parts, sep) + (p + [sep]) == Terminated(parts + [p], sep)
  {
    TerminatedSnoc(parts, p, sep);
  }

  /** The string SaveGame writes for a square is its field followed by a comma. */
  lemma FieldWritten(p: Piece?, color: string)
    requires p != null ==> color == ColorLetter(p.color)
    ensures p == null ==> "empty," == FieldText(p) + [',']
    ensures p != null ==> color + " " + KindName(p.kind) + "," == FieldText(p) + [',']
  {
  }

  /**
   * The inner loop of FileManager.SaveGame: the files of rank `y` from 7 down
   * to 0, one comma-terminated field per square.
   */
  method WriteRank(bm: BoardManager, y: int) returns (line: string)
    requires bm.gameBoard.Valid() && 0 <= y <= 7
    ensures line == RowText(bm.Cells(), y)
  {
    ghost var g := bm.Cells();
    ghost var fields := RowFields(g, y);
    line := [];
    var x := 7;
    while x >= 0
      invariant -1 <= x <= 7
      invariant line == Terminated(fields[..7 - x], ',')
    {
      var piece := bm.GetPieceAtPosition(Coord(x, y));
      var written: string;
      if piece == null {
        written := "empty,";
        FieldWritten(piece, "");
      } else {
        var color: string;
        if piece.color == White {
          color := "W";
        } else {
          color := "B";
        }
        written := color + " " + KindName(piece.kind) + ",";
        FieldWritten(piece, color);
      }
      FieldAt(g, y, 7 - x);
      assert written == fields[7 - x] + [','];
      SliceSnoc(fields, 7 - x);
      WritePart(fields[..7 - x], fields[7 - x], ',');
      line := line + written;
      x := x - 1;
    }
    SliceAll(fields);
  }

  /**
   * FileManager.SaveGame: walks the ranks from 7 down to 0, writing each
   * rank's fields and a newline, then the side to move.
   */
  method SaveGame(bm: BoardManager) returns (text: string)
    requires bm.Valid()
    ensures text == SaveText(bm.Cells(), bm.currentTurn)
  {
    ghost var lines := BoardLines(bm.Cells());
    var currentTurn: string;
    if bm.GetCurrentTurn() == White {
      currentTurn := "W";
    } else {
      currentTurn := "B";
    }
    text := [];
    var y := 7;
    while y >= 0
      invariant -1 <= y <= 7
      invariant text == Terminated(lines[..7 - y], '\n')
    {
      var row := WriteRank(bm, y);
      LineAt(bm.Cells(), 7 - y);
      SliceSnoc(lines, 7 - y);
      WritePart(lines[..7 - y], lines[7 - y], '\n');
      text := text + (row + "\n");
      y := y - 1;
    }
    SliceAll(lines);
    text := text + (currentTurn + "\n");
    WritePart(lines, currentTurn, '\n');
  }

  /** The first position of `sep` in `s`. */
  function IndexOf(s: string, sep: char): (i: nat)
    requires sep in s
    ensures i < |s| && s[i] == sep && sep !in s[..i]
  {
    if s[0] == sep then 0
    else
      var j := IndexOf(s[1..], sep);
      assert s[..j + 1] == [s[0]] + s[1..][..j];
      j + 1
  }

  /** A separator with none before it is the first one. */
  lemma IndexOfFirst(s: string, sep: char, n: nat)
    requires n < |s| && s[n] == sep && sep !in s[..n]
    ensures IndexOf(s, sep) == n
  {
  }

  /** The pieces of `s` that are each followed by `sep`; text after the last `sep` is dropped. */
  function Split(s: string, sep: char): seq<string>
    decreases |s|
  {
    if sep !in s then []
    else
      var i := IndexOf(s, sep);
      [s[..i]] + Split(s[i + 1..], sep)
  }

  /** Splitting a part without separators, a separator and more text gives the part first. */
  lemma SplitCons(p: string, sep: char, rest: string)
    requires sep !in p
    ensures Split(p + [sep] + rest, sep) == [p] + Split(rest, sep)
  {
    var s := p + [sep] + rest;
    var n := |p|;
    assert s[..n] == p;
    assert s[n + 1..] == rest;
    IndexOfFirst(s, sep, n);
  }

  /** Splitting separator-terminated parts that hold no separator gives the parts back. */
  lemma {:induction false} SplitTerminated(parts: seq<string>, sep: char)
    requires forall i :: 0 <= i < |parts| ==> sep !in parts[i]
    ensures Split(Terminated(parts, sep), sep) == parts
    decreases |parts|
  {
    if parts != [] {
      var s := Terminated(parts, sep);
      var rest := Terminated(parts[1..], sep);
      var n := |parts[0]|;
      SplitCons(parts[0], sep, rest);
      SplitTerminated(parts[1..], sep);
    }
  }

  /** What a field says about its square. */
  datatype SquareText = EmptySquare | Occupant(color: Color, kind: PieceType)

  /** What SaveGame records of a square's occupant: nothing, or its colour and kind. */
  function Describe(p: Piece?): SquareText {
    if p == null then EmptySquare else Occupant(p.color, p.kind)
  }

  function ParseColor(letter: string): Option<Color> {
    if letter == "W" then Some(White)
    else if letter == "B" then Some(Black)
    else None
  }

  function ParseKind(name: string): Option<PieceType> {
    if name == "Pawn" then Some(Pawn)
    else if name == "Knight" then Some(Knight)
    else if name == "Bishop" then Some(Bishop)
    else if name == "Rook" then Some(Rook)
    else if name == "Queen" then Some(Queen)
    else if name == "King" then Some(King)
    else None
  }

  /** Reads one field: "empty", or a colour letter, a space and a kind name. */
  function ParseField(field: string): Option<SquareText> {
    if field == "empty" then Some(EmptySquare)
    else if |field| >= 2 && field[1] == ' ' then
      match (ParseColor(field[..1]), ParseKind(field[2..]))
      case (Some(color), Some(kind)) => Some(Occupant(color, kind))
      case _ => None
    else None
  }

  /** A field reads back as the colour and kind it was written from. */
  lemma ParseFieldText(p: Piece?)
    ensures ParseField(FieldText(p)) == Some(Describe(p))
  {
    if p != null {
      var letter, name := ColorLetter(p.color), KindName(p.kind);
      var f := FieldText(p);
      assert f == letter + [' '] + name;
      assert f[1] == ' ' && "empty"[1] == 'm';
      assert f[..1] == letter;
      assert f[2..] == name;
      KindNameReads(p.kind);
    }
  }

  /** A kind name reads back as its kind and holds no separator. */
  lemma KindNameReads(kind: PieceType)
    ensures ParseKind(KindName(kind)) == Some(kind)
    ensures ',' !in KindName(kind) && '\n' !in KindName(kind)
  {
    match kind
    case Pawn =>
    case Knight =>
    case Bishop =>
    case Rook =>
    case Queen =>
    case King =>
  }


  /** Reads a list of fields, failing if any field is unreadable. */
  function ParseFields(fields: seq<string>): Option<seq<SquareText>>
    decreases |fields|
  {
    if fields == [] then Some([])
    else
      match (ParseField(fields[0]), ParseFields(fields[1..]))
      case (Some(square), Some(rest)) => Some([square] + rest)
      case _ => None
  }

  /** Reads board lines of eight fields each, failing on any other line. */
  function ParseRows(lines: seq<string>): Option<seq<seq<SquareText>>>
    decreases |lines|
  {
    if lines == [] then Some([])
    else
      match (ParseFields(Split(lines[0], ',')), ParseRows(lines[1..]))
      case (Some(row), Some(rest)) => if |row| == 8 then Some([row] + rest) else None
      case _ => None
  }

  /**
   * Reads a save file: eight board lines and a line with the side to move.
   * The board comes back as the file shows it: row i is rank 7 - i, and
   * entry j of a row is file 7 - j.
   */
  function LoadText(text: string): Option<(seq<seq<SquareText>>, Color)> {
    var lines := Split(text, '\n');
    if |lines| != 9 then None
    else
      match (ParseRows(lines[..8]), ParseColor(lines[8]))
      case (Some(rows), Some(turn)) => Some((rows, turn))
      case _ => None
  }

  /** Rank `y` as SaveGame lays it out: entry j is file 7 - j. */
  function RowPicture(g: Grid, y: int): seq<SquareText>
    requires IsGrid(g) && 0 <= y <= 7
  {
    seq(8, j requires 0 <= j < 8 => Describe(At(g, Coord(7 - j, y))))
  }

  /** The board as SaveGame lays it out: row i is rank 7 - i. */
  function Picture(g: Grid): seq<seq<SquareText>>
    requires IsGrid(g)
  {
    seq(8, i requires 0 <= i < 8 => RowPicture(g, 7 - i))
  }

  lemma {:induction false} ParseFieldsEach(fields: seq<string>, squares: seq<SquareText>)
    requires |fields| == |squares| && forall i :: 0 <= i < |fields| ==> ParseField(fields[i]) == Some(squares[i])
    ensures ParseFields(fields) == Some(squares)
    decreases |fields|
  {
    if fields != [] {
      ParseFieldsEach(fields[1..], squares[1..]);
      assert squares == [squares[0]] + squares[1..];
    }
  }

  /** No field holds a comma or a newline. */
  lemma FieldClean(p: Piece?)
    ensures ',' !in FieldText(p) && '\n' !in FieldText(p)
  {
    if p != null {
      KindNameReads(p.kind);
    }
  }

  /** No field of a rank holds a comma or a newline. */
  lemma RowFieldsClean(g: Grid, y: int)
    requires IsGrid(g) && 0 <= y <= 7
    ensures forall i :: 0 <= i < |RowFields(g, y)| ==> ',' !in RowFields(g, y)[i] && '\n' !in RowFields(g, y)[i]
  {
    forall i | 0 <= i < 8
      ensures ',' !in RowFields(g, y)[i] && '\n' !in RowFields(g, y)[i]
    {
      FieldAt(g, y, i);
      FieldClean(At(g, Coord(7 - i, y)));
    }
  }

  /** One board line splits into its eight fields. */
  lemma RowSplits(g: Grid, y: int)
    requires IsGrid(g) && 0 <= y <= 7
    ensures Split(RowText(g, y), ',') == RowFields(g, y)
  {
    RowFieldsClean(g, y);
    SplitTerminated(RowFields(g, y), ',');
  }

  /** No board line holds a newline. */
  lemma BoardLinesClean(g: Grid)
    requires IsGrid(g)
    ensures forall i :: 0 <= i < |BoardLines(g)| ==> '\n' !in BoardLines(g)[i]
  {
    forall i | 0 <= i < 8
      ensures '\n' !in BoardLines(g)[i]
    {
      LineAt(g, i);
      RowFieldsClean(g, 7 - i);
      NoSeparatorInTerminated(RowFields(g, 7 - i), ',', '\n');
    }
  }

  /** Board line `i` splits into the fields of rank 7 - i. */
  lemma LineSplits(g: Grid, i: int)
    requires IsGrid(g) && 0 <= i < 8
    ensures Split(BoardLines(g)[i], ',') == RowFields(g, 7 - i)
  {
    LineAt(g, i);
    RowSplits(g, 7 - i);
  }

  /** The fields of one board line read back as the rank's colours and kinds. */
  lemma RowParses(g: Grid, y: int)
    requires IsGrid(g) && 0 <= y <= 7
    ensures ParseFields(RowFields(g, y)) == Some(RowPicture(g, y))
  {
    var fields := RowFields(g, y);
    forall i | 0 <= i < 8
      ensures ParseField(fields[i]) == Some(RowPicture(g, y)[i])
    {
      ParseFieldText(At(g, Coord(7 - i, y)));
    }
    ParseFieldsEach(fields, RowPicture(g, y));
  }

  /** Terminating parts that avoid `c` with a separator other than `c` gives a text that avoids `c`. */
  lemma {:induction false} NoSeparatorInTerminated(parts: seq<string>, sep: char, c: char)
    requires sep != c && forall i :: 0 <= i < |parts| ==> c !in parts[i]
    ensures c !in Terminated(parts, sep)
    decreases |parts|
  {
    if parts != [] {
      NoSeparatorInTerminated(parts[1..], sep, c);
    }
  }

  /** Board line `i` reads back as the eight squares of rank 7 - i. */
  lemma LineParses(g: Grid, i: int)
    requires IsGrid(g) && 0 <= i < 8
    ensures ParseFields(Split(BoardLines(g)[i], ',')) == Some(RowPicture(g, 7 - i))
    ensures |RowPicture(g, 7 - i)| == 8
  {
    LineSplits(g, i);
    RowParses(g, 7 - i);
  }

  /** Board lines k and after read back as rows k and after of the picture. */
  lemma {:induction false} ParseRowsOfBoard(g: Grid, k: int)
    requires IsGrid(g) && 0 <= k <= 8
    ensures ParseRows(BoardLines(g)[k..]) == Some(Picture(g)[k..])
    decreases 8 - k
  {
    var lines := BoardLines(g)[k..];
    var rows := Picture(g)[k..];
    if k < 8 {
      var row := RowPicture(g, 7 - k);
      LineParses(g, k);
      assert lines[0] == BoardLines(g)[k];
      ParseRowsOfBoard(g, k + 1);
      assert lines[1..] == BoardLines(g)[k + 1..];
      assert rows == [row] + Picture(g)[k + 1..];
    } else {
      assert lines == [] && rows == [];
    }
  }

  /** The save text splits into the eight board lines and the side-to-move line. */
  lemma SaveLines(g: Grid, turn: Color)
    requires IsGrid(g)
    ensures Split(SaveText(g, turn), '\n') == BoardLines(g) + [ColorLetter(turn)]
  {
    var parts := BoardLines(g) + [ColorLetter(turn)];
    BoardLinesClean(g);
    assert forall i :: 0 <= i < |parts| ==> '\n' !in parts[i] by {
      assert '\n' !in ColorLetter(turn);
    }
    SplitTerminated(parts, '\n');
  }

  /**
   * The save text is nine lines: line i < 8 holds the eight fields of rank
   * 7 - i from file 7 down to file 0, and the last line is "W" exactly when
   * White is to move, "B" otherwise.
   */
  lemma SaveTextShape(g: Grid, turn: Color)
    requires IsGrid(g)
    ensures var lines := Split(SaveText(g, turn), '\n');
      && |lines| == 9
      && (lines[8] == "W" <==> turn == White)
      && (lines[8] == "B" <==> turn == Black)
      && forall i :: 0 <= i < 8 ==> Split(lines[i], ',') == RowFields(g, 7 - i)
  {
    SaveLines(g, turn);
    forall i | 0 <= i < 8
      ensures Split(BoardLines(g)[i], ',') == RowFields(g, 7 - i)
    {
      LineSplits(g, i);
    }
  }

  /** Reading the save text back gives the board's colours and kinds as laid out, and the side to move. */
  lemma SaveTextLoads(g: Grid, turn: Color)
    requires IsGrid(g)
    ensures LoadText(SaveText(g, turn)) == Some((Picture(g), turn))
  {
    var lines := BoardLines(g) + [ColorLetter(turn)];
    SaveLines(g, turn);
    assert lines[..8] == BoardLines(g);
    ParseRowsOfBoard(g, 0);
    assert BoardLines(g)[0..] == BoardLines(g);
    assert Picture(g)[0..] == Picture(g);
  }

  /** Row 7 - y, entry 7 - x of the picture describes square (x, y). */
  lemma PictureAt(g: Grid, c: Coord)
    requires IsGrid(g) && InBounds(c)
    ensures |Picture(g)| == 8 && |Picture(g)[7 - c.y]| == 8
    ensures Picture(g)[7 - c.y][7 - c.x] == Describe(At(g, c))
  {
    assert Picture(g)[7 - c.y] == RowPicture(g, c.y);
  }

  /** Two positions that save to the same text agree on the side to move and on every square's colour and kind. */
  lemma SaveTextDetermines(g: Grid, h: Grid, s: Color, t: Color)
    requires IsGrid(g) && IsGrid(h)
    requires SaveText(g, s) == SaveText(h, t)
    ensures s == t
    ensures forall c :: InBounds(c) ==> Describe(At(g, c)) == Describe(At(h, c))
  {
    SaveTextLoads(g, s);
    SaveTextLoads(h, t);
    SamePicture(g, h);
  }

  /** Two positions with the same picture agree on every square's colour and kind. */
  lemma SamePicture(g: Grid, h: Grid)
    requires IsGrid(g) && IsGrid(h) && Picture(g) == Picture(h)
    ensures forall c :: InBounds(c) ==> Describe(At(g, c)) == Describe(At(h, c))
  {
    forall c | InBounds(c)
      ensures Describe(At(g, c)) == Describe(At(h, c))
    {
      PictureAt(g, c);
      PictureAt(h, c);
    }
  }
}
