/**
 * The `Move` value of the chess engine: a start square, an end square, and
 * the contents of both squares read from the board when the move is built.
 * Also the pieces and squares of the board itself, the equality key
 * `moveID` and the coordinate notation ("e2e4").
 */
module Moves {

  datatype Color = White | Black

  datatype Kind = Pawn | Knight | Bishop | Rook | Queen | King

  /** A board cell: the engine's two-character code, "--" for Empty,
      otherwise a colour letter followed by a piece letter. */
  datatype Square = Empty | Piece(color: Color, kind: Kind)

  /** The board is stored top to bottom: row 0 is rank 8, row 7 is rank 1. */
  type Board = seq<seq<Square>>

  ghost predicate IsBoard(b: Board)
  {
    |b| == 8 && forall r :: 0 <= r < 8 ==> |b[r]| == 8
  }

  predicate OnBoard(r: int, c: int)
  {
    0 <= r <= 7 && 0 <= c <= 7
  }

  /** The colour whose pieces the side to move owns. */
  function SideColor(whiteToMove: bool): Color
  {
    if whiteToMove then White else Black
  }

  /** True when square `s` holds a piece of colour `col`. */
  predicate OwnedBy(s: Square, col: Color)
  {
    s.Piece? && s.color == col
  }

  datatype Move = Move(startRow: int, startCol: int, endRow: int, endCol: int,
                       pieceMoved: Square, pieceCaptured: Square)

  predicate MoveOnBoard(m: Move)
  {
    OnBoard(m.startRow, m.startCol) && OnBoard(m.endRow, m.endCol)
  }

  /** The move `m` was built on board `b`: it recorded what stood on its squares. */
  ghost predicate FromBoard(b: Board, m: Move)
    requires IsBoard(b) && MoveOnBoard(m)
  {
    m.pieceMoved == b[m.startRow][m.startCol] && m.pieceCaptured == b[m.endRow][m.endCol]
  }

  /** Python list indexing: a negative index counts from the end of the row
      (-1 is index 7); anything outside -8..7 raises IndexError. */
  function PyIndex(i: int): (k: int)
    requires -8 <= i <= 7
    ensures 0 <= k < 8
    ensures 0 <= i ==> k == i
    ensures i < 0 ==> k == i + 8
  {
    if i < 0 then i + 8 else i
  }

  /** `Move(startSq, endSq, board)`: records the coordinates as given and reads
      the moved and captured pieces from the board, with Python's indexing. */
  function NewMove(b: Board, sr: int, sc: int, er: int, ec: int): (m: Move)
    requires IsBoard(b)
    requires -8 <= sr <= 7 && -8 <= sc <= 7 && -8 <= er <= 7 && -8 <= ec <= 7
    ensures m.startRow == sr && m.startCol == sc && m.endRow == er && m.endCol == ec
    ensures MoveOnBoard(m) ==> FromBoard(b, m)
  {
    Move(sr, sc, er, ec, b[PyIndex(sr)][PyIndex(sc)], b[PyIndex(er)][PyIndex(ec)])
  }

  /** The equality key `moveID`: the four coordinates as the digits of a
      decimal number. On the board each digit is recovered from the key. */
  function MoveID(m: Move): (id: int)
    ensures MoveOnBoard(m) ==>
      && 0 <= id <= 7777
      && id / 1000 == m.startRow
      && (id / 100) % 10 == m.startCol
      && (id / 10) % 10 == m.endRow
      && id % 10 == m.endCol
  {
    var id := m.startRow * 1000 + m.startCol * 100 + m.endRow * 10 + m.endCol;
    if MoveOnBoard(m) then
      DecimalDigit(m.startRow * 100 + m.startCol * 10 + m.endRow, m.endCol);
      DecimalDigit(m.startRow * 10 + m.startCol, m.endRow);
      DecimalDigit(m.startRow, m.startCol);
      id
    else
      id
  }

  /** Appending a digit `d` to a number `n` in base ten. */
  lemma DecimalDigit(n: int, d: int)
    requires 0 <= d < 10
    ensures (n * 10 + d) / 10 == n && (n * 10 + d) % 10 == d
  {
  }

  /** `Move.__eq__`: two moves are equal when their keys are. */
  predicate SameMove(m: Move, other: Move)
  {
    MoveID(m) == MoveID(other)
  }

  /** On the board, two moves are equal exactly when their start and end
      squares coincide; the captured pieces play no part. */
  lemma SameMoveIffSameSquares(m: Move, other: Move)
    requires MoveOnBoard(m) && MoveOnBoard(other)
    ensures SameMove(m, other) <==>
      (m.startRow == other.startRow && m.startCol == other.startCol &&
       m.endRow == other.endRow && m.endCol == other.endCol)
  {
  }

  // The notation tables: ranks "1".."8" are rows 7..0, files "a".."h" are columns 0..7.
  const RanksToRows: map<char, int> :=
    map['1' := 7, '2' := 6, '3' := 5, '4' := 4, '5' := 3, '6' := 2, '7' := 1, '8' := 0]

  /** `rowsToRanks`, built in the source by inverting `rankstoRows`. */
  const RowsToRanks: map<int, char> :=
    map[7 := '1', 6 := '2', 5 := '3', 4 := '4', 3 := '5', 2 := '6', 1 := '7', 0 := '8']

  const FilesToCols: map<char, int> :=
    map['a' := 0, 'b' := 1, 'c' := 2, 'd' := 3, 'e' := 4, 'f' := 5, 'g' := 6, 'h' := 7]

  /** `colsToFiles`, built in the source by inverting `filesToCols`. */
  const ColsToFiles: map<int, char> :=
    map[0 := 'a', 1 := 'b', 2 := 'c', 3 := 'd', 4 := 'e', 5 := 'f', 6 := 'g', 7 := 'h']

  /** `rowsToRanks` is defined on exactly the rows 0..7 and is the inverse of `rankstoRows`. */
  lemma RankTableInverts()
    ensures forall r :: r in RowsToRanks <==> 0 <= r <= 7
    ensures forall r :: 0 <= r <= 7 ==> RowsToRanks[r] in RanksToRows && RanksToRows[RowsToRanks[r]] == r
    ensures forall k :: k in RanksToRows ==> k in RowsToRanks.Values && RowsToRanks[RanksToRows[k]] == k
  {
    forall r | 0 <= r <= 7
      ensures RowsToRanks[r] in RanksToRows && RanksToRows[RowsToRanks[r]] == r
    {
      if r < 4 {
        assert r == 0 || r == 1 || r == 2 || r == 3;
      } else {
        assert r == 4 || r == 5 || r == 6 || r == 7;
      }
    }
    forall k | k in RanksToRows
      ensures k in RowsToRanks.Values && RowsToRanks[RanksToRows[k]] == k
    {
      assert RowsToRanks[RanksToRows[k]] == k;
    }
  }

  /** `colsToFiles` is defined on exactly the columns 0..7 and is the inverse of `filesToCols`. */
  lemma FileTableInverts()
    ensures forall c :: c in ColsToFiles <==> 0 <= c <= 7
    ensures forall c :: 0 <= c <= 7 ==> ColsToFiles[c] in FilesToCols && FilesToCols[ColsToFiles[c]] == c
    ensures forall k :: k in FilesToCols ==> k in ColsToFiles.Values && ColsToFiles[FilesToCols[k]] == k
  {
    forall c | 0 <= c <= 7
      ensures ColsToFiles[c] in FilesToCols && FilesToCols[ColsToFiles[c]] == c
    {
      if c < 4 {
        assert c == 0 || c == 1 || c == 2 || c == 3;
      } else {
        assert c == 4 || c == 5 || c == 6 || c == 7;
      }
    }
    forall k | k in FilesToCols
      ensures k in ColsToFiles.Values && ColsToFiles[FilesToCols[k]] == k
    {
      assert ColsToFiles[FilesToCols[k]] == k;
    }
  }

  /** `getRankFile`: the file letter of column `c` followed by the rank digit of row `r`. */
  function RankFile(r: int, c: int): (s: string)
    requires OnBoard(r, c)
    ensures |s| == 2
    ensures s[0] as int == 'a' as int + c
    ensures s[1] as int == '8' as int - r
  {
    RankTableInverts();
    FileTableInverts();
    [ColsToFiles[c], RowsToRanks[r]]
  }

  /** `getChessNotation`: start square then end square, four characters. */
  function ChessNotation(m: Move): (s: string)
    requires MoveOnBoard(m)
    ensures |s| == 4
    ensures s[0] as int == 'a' as int + m.startCol && s[1] as int == '8' as int - m.startRow
    ensures s[2] as int == 'a' as int + m.endCol && s[3] as int == '8' as int - m.endRow
  {
    RankFile(m.startRow, m.startCol) + RankFile(m.endRow, m.endCol)
  }

  /** Reading a square name back through `rankstoRows` and `filesToCols`
      gives the row and column it was written from. */
  lemma RankFileRoundTrip(r: int, c: int)
    requires OnBoard(r, c)
    ensures RankFile(r, c)[0] in FilesToCols && FilesToCols[RankFile(r, c)[0]] == c
    ensures RankFile(r, c)[1] in RanksToRows && RanksToRows[RankFile(r, c)[1]] == r
  {
    RankTableInverts();
    FileTableInverts();
  }

  /** The pawn push from (6, 4) to (4, 4) is written "e2e4". */
  lemma NotationExample(b: Board)
    requires IsBoard(b)
    ensures ChessNotation(NewMove(b, 6, 4, 4, 4)) == "e2e4"
  {
    var s := ChessNotation(NewMove(b, 6, 4, 4, 4));
    assert s[0] == 'e' && s[1] == '2' && s[2] == 'e' && s[3] == '4';
  }
}
