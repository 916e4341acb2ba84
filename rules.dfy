/**
 * Pseudo-legal move generation as pure functions of the board: one
 * generator per piece, the dispatch on the piece letter, and the row-major
 * scan that concatenates the moves of every piece of the side to move.
 * The GameState methods that build these sequences in loops are proved
 * against these definitions.
 */
module Rules {
  import opened Moves

  // ---------------------------------------------------------------------
  // Pawns
  // ---------------------------------------------------------------------

  /** The row a pawn of the side to move advances by: white moves toward row 0. */
  function Forward(white: bool): int
  {
    if white then -1 else 1
  }

  /** The row from which a pawn may advance two squares. */
  function PawnHome(white: bool): int
  {
    if white then 6 else 1
  }

  /** `getPawnMoves`. The source reads the square ahead without checking that
      it is on the board; this definition adds that check, so a pawn on its
      last rank has no moves (see `PawnMovesAsWritten` for the code as it is). */
  function PawnMoves(b: Board, white: bool, r: int, c: int): seq<Move>
    requires IsBoard(b) && OnBoard(r, c)
  {
    var d := Forward(white);
    var enemy := SideColor(!white);
    var f := r + d;
    if !(0 <= f <= 7) then []
    else
      (if b[f][c] == Empty then
         [NewMove(b, r, c, f, c)] +
         (if r == PawnHome(white) && b[r + 2 * d][c] == Empty then [NewMove(b, r, c, r + 2 * d, c)] else [])
       else [])
      + (if c >= 1 && OwnedBy(b[f][c - 1], enemy) then [NewMove(b, r, c, f, c - 1)] else [])
      + (if c <= 6 && OwnedBy(b[f][c + 1], enemy) then [NewMove(b, r, c, f, c + 1)] else [])
  }

  /** The pawn rule stated square by square, independently of the order in
      which the generator lists the moves. */
  ghost predicate PawnStep(b: Board, white: bool, r: int, c: int, m: Move)
    requires IsBoard(b) && OnBoard(r, c)
  {
    var d := Forward(white);
    && MoveOnBoard(m) && m.startRow == r && m.startCol == c && FromBoard(b, m)
    && (
      // one step onto an empty square
      || (m.endRow == r + d && m.endCol == c && b[r + d][c] == Empty)
      // two steps from the home row, across an empty square onto an empty square
      || (m.endRow == r + 2 * d && m.endCol == c && r == PawnHome(white)
          && b[r + d][c] == Empty && b[r + 2 * d][c] == Empty)
      // one step diagonally onto a piece of the other side
      || (m.endRow == r + d && (m.endCol == c - 1 || m.endCol == c + 1)
          && OwnedBy(b[m.endRow][m.endCol], SideColor(!white))))
  }

  /** The moves of a pawn that advance straight ahead: one step onto an empty
      square, then two steps from the home row onto an empty square. */
  function PawnPushes(b: Board, white: bool, r: int, c: int): seq<Move>
    requires IsBoard(b) && OnBoard(r, c) && 0 <= r + Forward(white) <= 7
  {
    var d := Forward(white);
    if b[r + d][c] == Empty then
      [NewMove(b, r, c, r + d, c)] +
      (if r == PawnHome(white) && b[r + 2 * d][c] == Empty then [NewMove(b, r, c, r + 2 * d, c)] else [])
    else []
  }

  /** The capture of a pawn onto column `e`, when a piece of the other side stands there. */
  function PawnCapture(b: Board, white: bool, r: int, c: int, e: int): seq<Move>
    requires IsBoard(b) && OnBoard(r, c) && 0 <= r + Forward(white) <= 7
  {
    if 0 <= e <= 7 && OwnedBy(b[r + Forward(white)][e], SideColor(!white)) then [NewMove(b, r, c, r + Forward(white), e)] else []
  }

  /** The pawn generator is its pushes, then the capture to the left, then the
      capture to the right. */
  lemma PawnMovesParts(b: Board, white: bool, r: int, c: int)
    requires IsBoard(b) && OnBoard(r, c) && 0 <= r + Forward(white) <= 7
    ensures PawnMoves(b, white, r, c) ==
      PawnPushes(b, white, r, c) + PawnCapture(b, white, r, c, c - 1) + PawnCapture(b, white, r, c, c + 1)
  {
  }

  /** Every push is a pawn step. */
  lemma PawnPushesSound(b: Board, white: bool, r: int, c: int, m: Move)
    requires IsBoard(b) && OnBoard(r, c) && 0 <= r + Forward(white) <= 7
    requires m in PawnPushes(b, white, r, c)
    ensures PawnStep(b, white, r, c, m)
  {
    var d := Forward(white);
    if m != NewMove(b, r, c, r + d, c) {
      assert m == NewMove(b, r, c, r + 2 * d, c);
    }
  }

  /** Every capture is a pawn step. */
  lemma PawnCaptureSound(b: Board, white: bool, r: int, c: int, e: int, m: Move)
    requires IsBoard(b) && OnBoard(r, c) && 0 <= r + Forward(white) <= 7
    requires (e == c - 1 || e == c + 1) && m in PawnCapture(b, white, r, c, e)
    ensures PawnStep(b, white, r, c, m)
  {
    assert m == NewMove(b, r, c, r + Forward(white), e);
  }

  /** Every move the pawn generator lists is a pawn step. */
  lemma PawnMovesSound(b: Board, white: bool, r: int, c: int, m: Move)
    requires IsBoard(b) && OnBoard(r, c) && m in PawnMoves(b, white, r, c)
    ensures PawnStep(b, white, r, c, m)
  {
    PawnMovesParts(b, white, r, c);
    if m in PawnPushes(b, white, r, c) {
      PawnPushesSound(b, white, r, c, m);
    } else if m in PawnCapture(b, white, r, c, c - 1) {
      PawnCaptureSound(b, white, r, c, c - 1, m);
    } else {
      PawnCaptureSound(b, white, r, c, c + 1, m);
    }
  }

  /** Every straight pawn step is a push. */
  lemma PawnPushesComplete(b: Board, white: bool, r: int, c: int, m: Move)
    requires IsBoard(b) && OnBoard(r, c) && 0 <= r + Forward(white) <= 7
    requires PawnStep(b, white, r, c, m) && m.endCol == c
    ensures m in PawnPushes(b, white, r, c)
  {
    assert m == NewMove(b, r, c, m.endRow, c);
  }

  /** Every diagonal pawn step is a capture. */
  lemma PawnCaptureComplete(b: Board, white: bool, r: int, c: int, m: Move)
    requires IsBoard(b) && OnBoard(r, c) && 0 <= r + Forward(white) <= 7
    requires PawnStep(b, white, r, c, m) && m.endCol != c
    ensures m in PawnCapture(b, white, r, c, m.endCol)
  {
    assert m == NewMove(b, r, c, r + Forward(white), m.endCol);
  }

  /** Every pawn step is listed by the pawn generator. */
  lemma PawnMovesComplete(b: Board, white: bool, r: int, c: int, m: Move)
    requires IsBoard(b) && OnBoard(r, c) && PawnStep(b, white, r, c, m)
    ensures m in PawnMoves(b, white, r, c)
  {
    assert 0 <= r + Forward(white) <= 7;
    PawnMovesParts(b, white, r, c);
    if m.endCol == c {
      PawnPushesComplete(b, white, r, c, m);
    } else {
      PawnCaptureComplete(b, white, r, c, m);
    }
  }

  /** The pawn generator produces exactly the pawn steps. */
  lemma PawnMovesExactly(b: Board, white: bool, r: int, c: int, m: Move)
    requires IsBoard(b) && OnBoard(r, c)
    ensures m in PawnMoves(b, white, r, c) <==> PawnStep(b, white, r, c, m)
  {
    if m in PawnMoves(b, white, r, c) {
      PawnMovesSound(b, white, r, c, m);
    } else if PawnStep(b, white, r, c, m) {
      PawnMovesComplete(b, white, r, c, m);
    }
  }

  /** What the unguarded generator of the source does: a white pawn on row 0
      reads row -1, which Python takes as row 7, and builds a move whose end
      row is -1; a black pawn on row 7 reads row 8 and raises IndexError. */
  datatype Generated = Generated(moves: seq<Move>) | IndexError

  function PawnMovesAsWritten(b: Board, white: bool, r: int, c: int): Generated
    requires IsBoard(b) && OnBoard(r, c)
  {
    var d := Forward(white);
    var enemy := SideColor(!white);
    var f := r + d;
    if f > 7 then IndexError
    else
      var row := b[PyIndex(f)];
      Generated(
        (if row[c] == Empty then
           [NewMove(b, r, c, f, c)] +
           (if r == PawnHome(white) && b[r + 2 * d][c] == Empty then [NewMove(b, r, c, r + 2 * d, c)] else [])
         else [])
        + (if c >= 1 && OwnedBy(row[c - 1], enemy) then [NewMove(b, r, c, f, c - 1)] else [])
        + (if c <= 6 && OwnedBy(row[c + 1], enemy) then [NewMove(b, r, c, f, c + 1)] else []))
  }

  /** Away from the last rank the unguarded generator and the guarded one agree. */
  lemma PawnGuardOnlyAtLastRank(b: Board, white: bool, r: int, c: int)
    requires IsBoard(b) && OnBoard(r, c)
    requires 0 <= r + Forward(white) <= 7
    ensures PawnMovesAsWritten(b, white, r, c) == Generated(PawnMoves(b, white, r, c))
  {
  }

  /** A white pawn on row 0 with an empty square below it on row 7 is given a
      move to row -1, off the board; a black pawn on row 7 raises IndexError. */
  lemma PawnAsWrittenLeavesBoard(b: Board, c: int)
    requires IsBoard(b) && 0 <= c <= 7
    requires b[7][c] == Empty
    ensures PawnMovesAsWritten(b, true, 0, c).Generated?
    ensures exists m :: m in PawnMovesAsWritten(b, true, 0, c).moves && !MoveOnBoard(m) && m.endRow == -1
    ensures PawnMovesAsWritten(b, false, 7, c) == IndexError
  {
    var m := NewMove(b, 0, c, -1, c);
    assert m == PawnMovesAsWritten(b, true, 0, c).moves[0];
  }

  /** The guarded generator never leaves the board. */
  lemma PawnMovesOnBoard(b: Board, white: bool, r: int, c: int)
    requires IsBoard(b) && OnBoard(r, c)
    ensures forall m :: m in PawnMoves(b, white, r, c) ==> MoveOnBoard(m) && m.startRow == r && m.startCol == c
  {
    forall m | m in PawnMoves(b, white, r, c)
      ensures MoveOnBoard(m) && m.startRow == r && m.startCol == c
    {
      PawnMovesExactly(b, white, r, c, m);
    }
  }

  // ---------------------------------------------------------------------
  // Sliding pieces
  // ---------------------------------------------------------------------

  /** A step to one of the eight neighbouring squares. */
  predicate IsDirection(dr: int, dc: int)
  {
    -1 <= dr <= 1 && -1 <= dc <= 1 && !(dr == 0 && dc == 0)
  }

  /** How many squares lie between coordinate `x` and the board edge in direction `d`. */
  function Room(x: int, d: int): nat
    requires 0 <= x <= 7
  {
    if d > 0 then 7 - x else if d < 0 then x else 0
  }

  /** One ray of a rook or bishop standing on (sr, sc), continued from (r, c):
      step by (dr, dc) until the edge (no move), a piece of colour `col`
      (no move), or a piece of the other colour (a capture, then stop). */
  function Ray(b: Board, col: Color, sr: int, sc: int, r: int, c: int, dr: int, dc: int): seq<Move>
    requires IsBoard(b) && OnBoard(sr, sc) && OnBoard(r, c) && IsDirection(dr, dc)
    decreases Room(r, dr) + Room(c, dc)
  {
    var nr, nc := r + dr, c + dc;
    if !OnBoard(nr, nc) || OwnedBy(b[nr][nc], col) then []
    else [NewMove(b, sr, sc, nr, nc)] + (if b[nr][nc].Piece? then [] else Ray(b, col, sr, sc, nr, nc, dr, dc))
  }

  /** Every move of a ray starts on (sr, sc), ends on the board on a square
      not held by colour `col`, and records the board's contents. */
  lemma {:induction false} RayLandsFree(b: Board, col: Color, sr: int, sc: int, r: int, c: int, dr: int, dc: int)
    requires IsBoard(b) && OnBoard(sr, sc) && OnBoard(r, c) && IsDirection(dr, dc)
    ensures forall m :: m in Ray(b, col, sr, sc, r, c, dr, dc) ==>
      && MoveOnBoard(m) && m.startRow == sr && m.startCol == sc && FromBoard(b, m)
      && !OwnedBy(b[m.endRow][m.endCol], col)
    decreases Room(r, dr) + Room(c, dc)
  {
    var nr, nc := r + dr, c + dc;
    if OnBoard(nr, nc) && !OwnedBy(b[nr][nc], col) && !b[nr][nc].Piece? {
      RayLandsFree(b, col, sr, sc, nr, nc, dr, dc);
    }
  }

  /** The destinations of a ray are consecutive squares in direction
      (dr, dc), the first one next to (r, c). */
  lemma {:induction false} RayConsecutive(b: Board, col: Color, sr: int, sc: int, r: int, c: int, dr: int, dc: int)
    requires IsBoard(b) && OnBoard(sr, sc) && OnBoard(r, c) && IsDirection(dr, dc)
    ensures var ms := Ray(b, col, sr, sc, r, c, dr, dc);
      && (|ms| > 0 ==> ms[0].endRow == r + dr && ms[0].endCol == c + dc)
      && (forall k :: 0 <= k < |ms| - 1 ==>
            ms[k + 1].endRow == ms[k].endRow + dr && ms[k + 1].endCol == ms[k].endCol + dc)
    decreases Room(r, dr) + Room(c, dc)
  {
    var nr, nc := r + dr, c + dc;
    if OnBoard(nr, nc) && !OwnedBy(b[nr][nc], col) && !b[nr][nc].Piece? {
      RayConsecutive(b, col, sr, sc, nr, nc, dr, dc);
      var rest := Ray(b, col, sr, sc, nr, nc, dr, dc);
      var ms := Ray(b, col, sr, sc, r, c, dr, dc);
      assert ms == [NewMove(b, sr, sc, nr, nc)] + rest;
      forall k | 0 <= k < |ms| - 1
        ensures ms[k + 1].endRow == ms[k].endRow + dr && ms[k + 1].endCol == ms[k].endCol + dc
      {
        if k > 0 {
          assert ms[k] == rest[k - 1] && ms[k + 1] == rest[k];
        }
      }
    }
  }

  /** Every destination except the last is an empty square of the board. */
  ghost predicate ClearBeforeLast(b: Board, ms: seq<Move>)
    requires IsBoard(b)
  {
    forall k :: 0 <= k < |ms| - 1 ==> OnBoard(ms[k].endRow, ms[k].endCol) && b[ms[k].endRow][ms[k].endCol] == Empty
  }

  /** Every destination of a ray except the last is an empty square. */
  lemma {:induction false} RayClear(b: Board, col: Color, sr: int, sc: int, r: int, c: int, dr: int, dc: int)
    requires IsBoard(b) && OnBoard(sr, sc) && OnBoard(r, c) && IsDirection(dr, dc)
    ensures ClearBeforeLast(b, Ray(b, col, sr, sc, r, c, dr, dc))
    decreases Room(r, dr) + Room(c, dc)
  {
    var nr, nc := r + dr, c + dc;
    if OnBoard(nr, nc) && !OwnedBy(b[nr][nc], col) && !b[nr][nc].Piece? {
      RayClear(b, col, sr, sc, nr, nc, dr, dc);
      var rest := Ray(b, col, sr, sc, nr, nc, dr, dc);
      var ms := Ray(b, col, sr, sc, r, c, dr, dc);
      assert ms == [NewMove(b, sr, sc, nr, nc)] + rest;
      forall k | 0 <= k < |ms| - 1
        ensures OnBoard(ms[k].endRow, ms[k].endCol) && b[ms[k].endRow][ms[k].endCol] == Empty
      {
        if k > 0 {
          assert ms[k] == rest[k - 1];
        } else {
          assert ms[0] == NewMove(b, sr, sc, nr, nc);
        }
      }
    }
  }

  /** The moves `ms` that slide from (r, c) in direction (dr, dc) stop for a
      reason: with no move, the next square is off the board or held by colour
      `col`; otherwise the last square reached holds a piece (a capture) or
      the square after it is off the board or held by `col`. */
  ghost predicate Stopped(b: Board, col: Color, r: int, c: int, dr: int, dc: int, ms: seq<Move>)
    requires IsBoard(b)
  {
    && (ms == [] ==> !OnBoard(r + dr, c + dc) || OwnedBy(b[r + dr][c + dc], col))
    && (ms != [] ==>
          var lr, lc := ms[|ms| - 1].endRow, ms[|ms| - 1].endCol;
          OnBoard(lr, lc) &&
          (b[lr][lc].Piece? || !OnBoard(lr + dr, lc + dc) || OwnedBy(b[lr + dr][lc + dc], col)))
  }

  /** One more square in front of a slide that stopped keeps it stopped. */
  lemma StoppedPrepend(b: Board, col: Color, r: int, c: int, dr: int, dc: int, x: Move, rest: seq<Move>)
    requires IsBoard(b) && OnBoard(r + dr, c + dc) && x.endRow == r + dr && x.endCol == c + dc
    requires b[r + dr][c + dc] == Empty
    requires Stopped(b, col, r + dr, c + dc, dr, dc, rest)
    ensures Stopped(b, col, r, c, dr, dc, [x] + rest)
  {
    if rest != [] {
      assert ([x] + rest)[|[x] + rest| - 1] == rest[|rest| - 1];
    }
  }

  /** A ray stops only after a capture, at the board edge, or in front of a
      piece of colour `col`. */
  lemma {:induction false} RayStops(b: Board, col: Color, sr: int, sc: int, r: int, c: int, dr: int, dc: int)
    requires IsBoard(b) && OnBoard(sr, sc) && OnBoard(r, c) && IsDirection(dr, dc)
    ensures Stopped(b, col, r, c, dr, dc, Ray(b, col, sr, sc, r, c, dr, dc))
    decreases Room(r, dr) + Room(c, dc)
  {
    var nr, nc := r + dr, c + dc;
    var ms := Ray(b, col, sr, sc, r, c, dr, dc);
    if !OnBoard(nr, nc) || OwnedBy(b[nr][nc], col) {
      assert ms == [];
    } else if b[nr][nc].Piece? {
      assert ms == [NewMove(b, sr, sc, nr, nc)];
    } else {
      RayStops(b, col, sr, sc, nr, nc, dr, dc);
      StoppedPrepend(b, col, r, c, dr, dc, NewMove(b, sr, sc, nr, nc), Ray(b, col, sr, sc, nr, nc, dr, dc));
    }
  }

  /** `getRookMoves`: right, left, down, up. */
  function RookMoves(b: Board, r: int, c: int): seq<Move>
    requires IsBoard(b) && OnBoard(r, c) && b[r][c].Piece?
  {
    var col := b[r][c].color;
    Ray(b, col, r, c, r, c, 0, 1) + Ray(b, col, r, c, r, c, 0, -1)
    + Ray(b, col, r, c, r, c, 1, 0) + Ray(b, col, r, c, r, c, -1, 0)
  }

  /** `getBishopMoves`: up-right, down-right, down-left, up-left. */
  function BishopMoves(b: Board, r: int, c: int): seq<Move>
    requires IsBoard(b) && OnBoard(r, c) && b[r][c].Piece?
  {
    var col := b[r][c].color;
    Ray(b, col, r, c, r, c, -1, 1) + Ray(b, col, r, c, r, c, 1, 1)
    + Ray(b, col, r, c, r, c, 1, -1) + Ray(b, col, r, c, r, c, -1, -1)
  }

  /** `getQueenMoves`: the bishop's moves, then the rook's. */
  function QueenMoves(b: Board, r: int, c: int): seq<Move>
    requires IsBoard(b) && OnBoard(r, c) && b[r][c].Piece?
  {
    BishopMoves(b, r, c) + RookMoves(b, r, c)
  }

  // ---------------------------------------------------------------------
  // Fixed-offset pieces
  // ---------------------------------------------------------------------

  /** The king's loop over r in [-1, 0, 1] and c in [-1, 0, 1], in that order. */
  const KingOffsets: seq<(int, int)> :=
    [(-1, -1), (-1, 0), (-1, 1), (0, -1), (0, 0), (0, 1), (1, -1), (1, 0), (1, 1)]

  /** The knight's list of jumps, in the source's order. */
  const KnightOffsets: seq<(int, int)> :=
    [(-2, 1), (-1, 2), (1, 2), (2, 1), (-2, -1), (-1, -2), (1, -2), (2, -1)]

  /** The jump by `off` from (r, c) lands on the board, is not the null jump,
      and does not land on a piece of colour `col`. */
  predicate JumpOk(b: Board, col: Color, r: int, c: int, off: (int, int))
    requires IsBoard(b)
  {
    OnBoard(r + off.0, c + off.1) && off != (0, 0) && !OwnedBy(b[r + off.0][c + off.1], col)
  }

  /** The moves of a piece of colour `col` on (r, c) that jumps by each of `offs` in turn. */
  function Jumps(b: Board, col: Color, r: int, c: int, offs: seq<(int, int)>): seq<Move>
    requires IsBoard(b) && OnBoard(r, c)
  {
    if offs == [] then []
    else
      var off := offs[|offs| - 1];
      Jumps(b, col, r, c, offs[..|offs| - 1])
      + (if JumpOk(b, col, r, c, off) then [NewMove(b, r, c, r + off.0, c + off.1)] else [])
  }

  /** `getKingMoves`. */
  function KingMoves(b: Board, r: int, c: int): seq<Move>
    requires IsBoard(b) && OnBoard(r, c) && b[r][c].Piece?
  {
    Jumps(b, b[r][c].color, r, c, KingOffsets)
  }

  /** `getKnightMoves`. */
  function KnightMoves(b: Board, r: int, c: int): seq<Move>
    requires IsBoard(b) && OnBoard(r, c) && b[r][c].Piece?
  {
    Jumps(b, b[r][c].color, r, c, KnightOffsets)
  }

  /** A move of the piece on (r, c) built on `b`, landing on the board and
      not on a piece of the mover's own colour. */
  ghost predicate LandsFree(b: Board, r: int, c: int, m: Move)
    requires IsBoard(b) && OnBoard(r, c) && b[r][c].Piece?
  {
    && MoveOnBoard(m) && m.startRow == r && m.startCol == c && FromBoard(b, m)
    && !OwnedBy(b[m.endRow][m.endCol], b[r][c].color)
  }

  /** The squares a jump may land on from (r, c): on the board, not held by
      colour `col`, at a listed offset other than the null offset. */
  ghost predicate JumpTarget(b: Board, col: Color, r: int, c: int, offs: seq<(int, int)>, m: Move)
    requires IsBoard(b)
  {
    && MoveOnBoard(m) && m.startRow == r && m.startCol == c && FromBoard(b, m)
    && !OwnedBy(b[m.endRow][m.endCol], col)
    && (m.endRow - r, m.endCol - c) in offs && (m.endRow - r, m.endCol - c) != (0, 0)
  }

  /** Every jump lands on a jump target. */
  lemma {:induction false} JumpsSound(b: Board, col: Color, r: int, c: int, offs: seq<(int, int)>, m: Move)
    requires IsBoard(b) && OnBoard(r, c) && m in Jumps(b, col, r, c, offs)
    ensures JumpTarget(b, col, r, c, offs, m)
  {
    var n := |offs| - 1;
    var off := offs[n];
    assert offs == offs[..n] + [off];
    if m in Jumps(b, col, r, c, offs[..n]) {
      JumpsSound(b, col, r, c, offs[..n], m);
    } else {
      assert m == NewMove(b, r, c, r + off.0, c + off.1);
    }
  }

  /** Every jump target is among the jumps. */
  lemma {:induction false} JumpsComplete(b: Board, col: Color, r: int, c: int, offs: seq<(int, int)>, m: Move)
    requires IsBoard(b) && OnBoard(r, c) && JumpTarget(b, col, r, c, offs, m)
    ensures m in Jumps(b, col, r, c, offs)
  {
    var n := |offs| - 1;
    var off := offs[n];
    assert offs == offs[..n] + [off];
    if (m.endRow - r, m.endCol - c) == off {
      assert m == NewMove(b, r, c, r + off.0, c + off.1);
    } else {
      JumpsComplete(b, col, r, c, offs[..n], m);
    }
  }

  /** A jump lands exactly on the jump targets. */
  lemma JumpsExactly(b: Board, col: Color, r: int, c: int, offs: seq<(int, int)>, m: Move)
    requires IsBoard(b) && OnBoard(r, c)
    ensures m in Jumps(b, col, r, c, offs) <==> JumpTarget(b, col, r, c, offs, m)
  {
    if m in Jumps(b, col, r, c, offs) {
      JumpsSound(b, col, r, c, offs, m);
    } else if JumpTarget(b, col, r, c, offs, m) {
      JumpsComplete(b, col, r, c, offs, m);
    }
  }

  /** The king offsets are exactly the steps of at most one row and one column. */
  lemma KingOffsetsExactly(dr: int, dc: int)
    ensures (dr, dc) in KingOffsets <==> -1 <= dr <= 1 && -1 <= dc <= 1
  {
    if -1 <= dr <= 1 && -1 <= dc <= 1 {
      assert KingOffsets[(dr + 1) * 3 + (dc + 1)] == (dr, dc);
    }
  }

  /** King moves are exactly the free squares next to the king. */
  lemma KingMovesExactly(b: Board, r: int, c: int, m: Move)
    requires IsBoard(b) && OnBoard(r, c) && b[r][c].Piece?
    ensures m in KingMoves(b, r, c) <==>
      && LandsFree(b, r, c, m)
      && -1 <= m.endRow - r <= 1 && -1 <= m.endCol - c <= 1
      && !(m.endRow == r && m.endCol == c)
  {
    JumpsExactly(b, b[r][c].color, r, c, KingOffsets, m);
    KingOffsetsExactly(m.endRow - r, m.endCol - c);
  }

  /** The knight offsets are exactly the jumps of one row and two columns or
      two rows and one column. */
  lemma KnightOffsetsExactly(dr: int, dc: int)
    ensures (dr, dc) in KnightOffsets <==>
      ((dr == 1 || dr == -1) && (dc == 2 || dc == -2)) || ((dr == 2 || dr == -2) && (dc == 1 || dc == -1))
  {
    if ((dr == 1 || dr == -1) && (dc == 2 || dc == -2)) || ((dr == 2 || dr == -2) && (dc == 1 || dc == -1)) {
      var i :=
        if (dr, dc) == (-2, 1) then 0 else if (dr, dc) == (-1, 2) then 1
        else if (dr, dc) == (1, 2) then 2 else if (dr, dc) == (2, 1) then 3
        else if (dr, dc) == (-2, -1) then 4 else if (dr, dc) == (-1, -2) then 5
        else if (dr, dc) == (1, -2) then 6 else 7;
      assert KnightOffsets[i] == (dr, dc);
    }
  }

  /** Knight moves are exactly the free squares a knight's jump away. */
  lemma KnightMovesExactly(b: Board, r: int, c: int, m: Move)
    requires IsBoard(b) && OnBoard(r, c) && b[r][c].Piece?
    ensures m in KnightMoves(b, r, c) <==>
      && LandsFree(b, r, c, m)
      && var dr, dc := m.endRow - r, m.endCol - c;
         ((dr == 1 || dr == -1) && (dc == 2 || dc == -2)) || ((dr == 2 || dr == -2) && (dc == 1 || dc == -1))
  {
    JumpsExactly(b, b[r][c].color, r, c, KnightOffsets, m);
    KnightOffsetsExactly(m.endRow - r, m.endCol - c);
  }

  // ---------------------------------------------------------------------
  // Dispatch and the board scan
  // ---------------------------------------------------------------------

  /** The `moveFunctions` table: the generator chosen by the piece letter. */
  function PieceMoves(b: Board, white: bool, r: int, c: int): seq<Move>
    requires IsBoard(b) && OnBoard(r, c) && b[r][c].Piece?
  {
    match b[r][c].kind
    case Pawn => PawnMoves(b, white, r, c)
    case Rook => RookMoves(b, r, c)
    case Knight => KnightMoves(b, r, c)
    case Bishop => BishopMoves(b, r, c)
    case Queen => QueenMoves(b, r, c)
    case King => KingMoves(b, r, c)
  }

  /** What square (r, c) contributes to the scan: the moves of its piece when
      the piece belongs to the side to move, nothing otherwise. */
  function SquareMoves(b: Board, white: bool, r: int, c: int): seq<Move>
    requires IsBoard(b) && OnBoard(r, c)
  {
    if OwnedBy(b[r][c], SideColor(white)) then PieceMoves(b, white, r, c) else []
  }

  /** A table with one list of moves per square of the board. */
  ghost predicate IsTable(t: seq<seq<seq<Move>>>)
  {
    |t| == 8 && forall r :: 0 <= r < 8 ==> |t[r]| == 8
  }

  /** What every square contributes to the scan, as a table. */
  function Contributions(b: Board, white: bool): (t: seq<seq<seq<Move>>>)
    requires IsBoard(b)
    ensures IsTable(t)
    ensures forall r, c :: OnBoard(r, c) ==> t[r][c] == SquareMoves(b, white, r, c)
  {
    seq(8, r requires 0 <= r < 8 => seq(8, c requires 0 <= c < 8 => SquareMoves(b, white, r, c)))
  }

  /** A point of the row-by-row scan: (row, col) means every square before
      column `col` of row `row` has been visited; (8, 0) is the end. */
  predicate ScanPoint(row: int, col: int)
  {
    0 <= row <= 8 && 0 <= col <= 8 && (row < 8 || col == 0)
  }

  /** What the nested loops of `getAllPossibleMoves` have collected when they
      reach (row, col): the lists of the squares before (row, col), in order. */
  function ScanTo(t: seq<seq<seq<Move>>>, row: int, col: int): seq<Move>
    requires IsTable(t) && ScanPoint(row, col)
    // The table is part of the measure so that `ScanTo(t, 8, 0)` for a table
    // that is not a constant is unfolded one step at a time.
    decreases row, col, t
  {
    if col == 0 then (if row == 0 then [] else ScanTo(t, row - 1, 8))
    else ScanTo(t, row, col - 1) + t[row][col - 1]
  }

  /** `getAllPossibleMoves`: the pseudo-legal moves of the side to move. */
  function AllPossible(b: Board, white: bool): seq<Move>
    requires IsBoard(b)
  {
    ScanTo(Contributions(b, white), 8, 0)
  }

  /** The inner loop visits one more square. */
  lemma ScanToStep(t: seq<seq<seq<Move>>>, row: int, col: int)
    requires IsTable(t) && OnBoard(row, col)
    ensures ScanTo(t, row, col + 1) == ScanTo(t, row, col) + t[row][col]
  {
    assert col + 1 - 1 == col;
  }

  /** The end of a row is the start of the next one. */
  lemma ScanToRow(t: seq<seq<seq<Move>>>, row: int)
    requires IsTable(t) && 0 <= row < 8
    ensures ScanTo(t, row + 1, 0) == ScanTo(t, row, 8)
  {
    assert row + 1 - 1 == row;
  }

  /** The position of a move's start square in the row-major scan. */
  function StartIndex(m: Move): int
  {
    m.startRow * 8 + m.startCol
  }

  /** Every move a piece generates starts on the piece's square, ends on the
      board on a square not held by the mover's colour, and records the
      board's contents. */
  lemma PieceMovesLandFree(b: Board, white: bool, r: int, c: int)
    requires IsBoard(b) && OnBoard(r, c) && OwnedBy(b[r][c], SideColor(white))
    ensures forall m :: m in PieceMoves(b, white, r, c) ==> LandsFree(b, r, c, m)
  {
    match b[r][c].kind
    case Pawn =>
      forall m | m in PawnMoves(b, white, r, c) ensures LandsFree(b, r, c, m) {
        PawnMovesExactly(b, white, r, c, m);
      }
    case Rook =>
      RookLandsFree(b, r, c);
    case Bishop =>
      BishopLandsFree(b, r, c);
    case Queen =>
      RookLandsFree(b, r, c);
      BishopLandsFree(b, r, c);
    case King =>
      forall m | m in KingMoves(b, r, c) ensures LandsFree(b, r, c, m) {
        KingMovesExactly(b, r, c, m);
      }
    case Knight =>
      forall m | m in KnightMoves(b, r, c) ensures LandsFree(b, r, c, m) {
        KnightMovesExactly(b, r, c, m);
      }
  }

  /** The rook's four rays land free. */
  lemma RookLandsFree(b: Board, r: int, c: int)
    requires IsBoard(b) && OnBoard(r, c) && b[r][c].Piece?
    ensures forall m :: m in RookMoves(b, r, c) ==> LandsFree(b, r, c, m)
  {
    var col := b[r][c].color;
    RayLandsFree(b, col, r, c, r, c, 0, 1);
    RayLandsFree(b, col, r, c, r, c, 0, -1);
    RayLandsFree(b, col, r, c, r, c, 1, 0);
    RayLandsFree(b, col, r, c, r, c, -1, 0);
  }

  /** The bishop's four rays land free. */
  lemma BishopLandsFree(b: Board, r: int, c: int)
    requires IsBoard(b) && OnBoard(r, c) && b[r][c].Piece?
    ensures forall m :: m in BishopMoves(b, r, c) ==> LandsFree(b, r, c, m)
  {
    var col := b[r][c].color;
    RayLandsFree(b, col, r, c, r, c, -1, 1);
    RayLandsFree(b, col, r, c, r, c, 1, 1);
    RayLandsFree(b, col, r, c, r, c, 1, -1);
    RayLandsFree(b, col, r, c, r, c, -1, -1);
  }

  /** Two squares with the same scan position are the same square. */
  lemma SameStart(r: int, c: int, r2: int, c2: int)
    requires OnBoard(r, c) && OnBoard(r2, c2) && r * 8 + c == r2 * 8 + c2
    ensures r == r2 && c == c2
  {
  }

  /** Every move listed for a square starts on that square. */
  ghost predicate StartsOnSquare(t: seq<seq<seq<Move>>>)
    requires IsTable(t)
  {
    forall r, c, m :: OnBoard(r, c) && m in t[r][c] ==> m.startRow == r && m.startCol == c
  }

  /** Every move the scan has collected is listed for its start square, a
      square already visited. */
  lemma {:induction false} ScanToSound(t: seq<seq<seq<Move>>>, row: int, col: int, m: Move)
    requires IsTable(t) && StartsOnSquare(t) && ScanPoint(row, col)
    requires m in ScanTo(t, row, col)
    ensures OnBoard(m.startRow, m.startCol) && StartIndex(m) < row * 8 + col
    ensures m in t[m.startRow][m.startCol]
    decreases row, col
  {
    if col == 0 {
      ScanToSound(t, row - 1, 8, m);
    } else if m in ScanTo(t, row, col - 1) {
      ScanToSound(t, row, col - 1, m);
    } else {
      assert m in t[row][col - 1];
    }
  }

  /** Every move listed for a visited square has been collected. */
  lemma {:induction false} ScanToComplete(t: seq<seq<seq<Move>>>, row: int, col: int, m: Move)
    requires IsTable(t) && ScanPoint(row, col)
    requires OnBoard(m.startRow, m.startCol) && StartIndex(m) < row * 8 + col
    requires m in t[m.startRow][m.startCol]
    ensures m in ScanTo(t, row, col)
    decreases row, col
  {
    if col == 0 {
      ScanToComplete(t, row - 1, 8, m);
    } else if StartIndex(m) < row * 8 + col - 1 {
      ScanToComplete(t, row, col - 1, m);
    } else {
      SameStart(m.startRow, m.startCol, row, col - 1);
    }
  }

  /** Every move a square contributes is a move of the side to move's piece there. */
  lemma SquareMovesSound(b: Board, white: bool, r: int, c: int, m: Move)
    requires IsBoard(b) && OnBoard(r, c) && m in SquareMoves(b, white, r, c)
    ensures && MoveOnBoard(m) && FromBoard(b, m) && m.startRow == r && m.startCol == c
            && OwnedBy(b[r][c], SideColor(white))
            && !OwnedBy(b[m.endRow][m.endCol], SideColor(white))
            && m in PieceMoves(b, white, r, c)
  {
    PieceMovesLandFree(b, white, r, c);
    assert LandsFree(b, r, c, m);
  }

  /** Every move a square contributes starts on that square. */
  lemma SquareMovesStart(b: Board, white: bool, r: int, c: int)
    requires IsBoard(b) && OnBoard(r, c)
    ensures forall m :: m in SquareMoves(b, white, r, c) ==> m.startRow == r && m.startCol == c
  {
    forall m | m in SquareMoves(b, white, r, c) ensures m.startRow == r && m.startCol == c {
      SquareMovesSound(b, white, r, c, m);
    }
  }

  /** The moves of every square start on that square. */
  lemma ContributionsStart(b: Board, white: bool)
    requires IsBoard(b)
    ensures StartsOnSquare(Contributions(b, white))
  {
    var t := Contributions(b, white);
    forall r, c | OnBoard(r, c) ensures forall m: Move :: m in t[r][c] ==> m.startRow == r && m.startCol == c {
      SquareMovesStart(b, white, r, c);
    }
  }

  /** A pseudo-legal move starts on a square of the side to move, ends on the
      board on a square the side to move does not hold, records the board's
      contents, and was produced by the generator of the piece on its start
      square; conversely every move of every such generator is pseudo-legal. */
  lemma AllPossibleMembers(b: Board, white: bool, m: Move)
    requires IsBoard(b)
    ensures m in AllPossible(b, white) ==>
      && MoveOnBoard(m) && FromBoard(b, m)
      && OwnedBy(b[m.startRow][m.startCol], SideColor(white))
      && !OwnedBy(b[m.endRow][m.endCol], SideColor(white))
    ensures m in AllPossible(b, white) <==>
      && OnBoard(m.startRow, m.startCol)
      && OwnedBy(b[m.startRow][m.startCol], SideColor(white))
      && m in PieceMoves(b, white, m.startRow, m.startCol)
  {
    var t := Contributions(b, white);
    if m in AllPossible(b, white) {
      ContributionsStart(b, white);
      ScanToSound(t, 8, 0, m);
      SquareMovesSound(b, white, m.startRow, m.startCol, m);
    } else if OnBoard(m.startRow, m.startCol) && OwnedBy(b[m.startRow][m.startCol], SideColor(white))
      && m in PieceMoves(b, white, m.startRow, m.startCol) {
      assert m in t[m.startRow][m.startCol];
      ScanToComplete(t, 8, 0, m);
    }
  }

  /** Moves listed in row-major order of their start squares. */
  ghost predicate RowMajor(ms: seq<Move>)
  {
    forall i, j :: 0 <= i < j < |ms| ==> StartIndex(ms[i]) <= StartIndex(ms[j])
  }

  /** Appending moves of a later square keeps the row-major order. */
  lemma RowMajorConcat(a: seq<Move>, z: seq<Move>, k: int)
    requires RowMajor(a) && (forall m :: m in a ==> StartIndex(m) < k)
    requires forall m :: m in z ==> StartIndex(m) == k
    ensures RowMajor(a + z)
  {
    var ms := a + z;
    forall i, j | 0 <= i < j < |ms| ensures StartIndex(ms[i]) <= StartIndex(ms[j]) {
      if j < |a| {
        assert ms[i] == a[i] && ms[j] == a[j];
      } else if i < |a| {
        assert ms[i] == a[i] && ms[j] == z[j - |a|];
      } else {
        assert ms[i] == z[i - |a|] && ms[j] == z[j - |a|];
      }
    }
  }

  /** The scan lists moves in row-major order of their start squares. */
  lemma {:induction false} ScanToRowMajor(t: seq<seq<seq<Move>>>, row: int, col: int)
    requires IsTable(t) && StartsOnSquare(t) && ScanPoint(row, col)
    ensures RowMajor(ScanTo(t, row, col))
    decreases row, col
  {
    if col == 0 {
      if row > 0 {
        ScanToRowMajor(t, row - 1, 8);
      }
    } else {
      ScanToRowMajor(t, row, col - 1);
      var prev := ScanTo(t, row, col - 1);
      forall m | m in prev ensures StartIndex(m) < row * 8 + col - 1 {
        ScanToSound(t, row, col - 1, m);
      }
      RowMajorConcat(prev, t[row][col - 1], row * 8 + col - 1);
    }
  }

  /** `getAllPossibleMoves` lists its moves in row-major order of their start squares. */
  lemma AllPossibleRowMajor(b: Board, white: bool)
    requires IsBoard(b)
    ensures RowMajor(AllPossible(b, white))
  {
    ContributionsStart(b, white);
    ScanToRowMajor(Contributions(b, white), 8, 0);
  }
}
