/**
 * No two pseudo-legal moves share both their start and their end square.
 * The legality filter removes a rejected move with `list.remove`, which
 * deletes the first element equal to it by `moveID`; this fact is what
 * makes that the element at the current index.
 */
module Distinctness {
  import opened Moves
  import opened Rules

  predicate SameSquares(m: Move, other: Move)
  {
    m.startRow == other.startRow && m.startCol == other.startCol &&
    m.endRow == other.endRow && m.endCol == other.endCol
  }

  /** No two moves of the list have the same start and end squares. */
  ghost predicate DistinctSquares(ms: seq<Move>)
  {
    forall i, j :: 0 <= i < j < |ms| ==> !SameSquares(ms[i], ms[j])
  }

  /** No two moves of the list end on the same square. */
  ghost predicate DistinctEnds(ms: seq<Move>)
  {
    forall i, j :: 0 <= i < j < |ms| ==> ms[i].endRow != ms[j].endRow || ms[i].endCol != ms[j].endCol
  }

  /** No move of `a` ends where a move of `z` ends. */
  ghost predicate EndsApart(a: seq<Move>, z: seq<Move>)
  {
    forall m, o :: m in a && o in z ==> m.endRow != o.endRow || m.endCol != o.endCol
  }

  /** Joining two lists with distinct ends and no end in common. */
  lemma ConcatDistinctEnds(a: seq<Move>, z: seq<Move>)
    requires DistinctEnds(a) && DistinctEnds(z) && EndsApart(a, z)
    ensures DistinctEnds(a + z)
  {
    var ms := a + z;
    forall i, j | 0 <= i < j < |ms| ensures ms[i].endRow != ms[j].endRow || ms[i].endCol != ms[j].endCol {
      if j < |a| {
        assert ms[i] == a[i] && ms[j] == a[j];
      } else if i < |a| {
        assert ms[i] == a[i] && ms[j] == z[j - |a|];
        assert ms[i] in a && ms[j] in z;
      } else {
        assert ms[i] == z[i - |a|] && ms[j] == z[j - |a|];
      }
    }
  }

  function Sign(x: int): int
  {
    if x > 0 then 1 else if x < 0 then -1 else 0
  }

  /** `x` lies on the side `d` points to, or at zero; exactly zero when `d` is. */
  predicate Toward(x: int, d: int)
  {
    if d > 0 then x >= 0 else if d < 0 then x <= 0 else x == 0
  }

  /** Every move of the list ends, seen from (pr, pc), in one of the directions `dirs`. */
  ghost predicate HeadingIn(ms: seq<Move>, pr: int, pc: int, dirs: set<(int, int)>)
  {
    forall m :: m in ms ==> (Sign(m.endRow - pr), Sign(m.endCol - pc)) in dirs
  }

  /** Moves heading in disjoint sets of directions from one point end apart. */
  lemma HeadingsApart(a: seq<Move>, z: seq<Move>, pr: int, pc: int, da: set<(int, int)>, dz: set<(int, int)>)
    requires HeadingIn(a, pr, pc, da) && HeadingIn(z, pr, pc, dz) && da !! dz
    ensures EndsApart(a, z)
  {
    forall m, o | m in a && o in z ensures m.endRow != o.endRow || m.endCol != o.endCol {
      assert (Sign(m.endRow - pr), Sign(m.endCol - pc)) in da;
      assert (Sign(o.endRow - pr), Sign(o.endCol - pc)) in dz;
    }
  }

  /** Seen from a point behind (r, c), a ray keeps its direction. */
  lemma {:induction false} RayHeading(b: Board, col: Color, sr: int, sc: int, r: int, c: int, dr: int, dc: int, pr: int, pc: int)
    requires IsBoard(b) && OnBoard(sr, sc) && OnBoard(r, c) && IsDirection(dr, dc)
    requires Toward(r - pr, dr) && Toward(c - pc, dc)
    ensures HeadingIn(Ray(b, col, sr, sc, r, c, dr, dc), pr, pc, {(dr, dc)})
    decreases Room(r, dr) + Room(c, dc)
  {
    var nr, nc := r + dr, c + dc;
    if OnBoard(nr, nc) && !OwnedBy(b[nr][nc], col) && !b[nr][nc].Piece? {
      RayHeading(b, col, sr, sc, nr, nc, dr, dc, pr, pc);
    }
  }

  /** The squares of one ray are all different. */
  lemma {:induction false} RayDistinct(b: Board, col: Color, sr: int, sc: int, r: int, c: int, dr: int, dc: int)
    requires IsBoard(b) && OnBoard(sr, sc) && OnBoard(r, c) && IsDirection(dr, dc)
    ensures DistinctEnds(Ray(b, col, sr, sc, r, c, dr, dc))
    decreases Room(r, dr) + Room(c, dc)
  {
    var nr, nc := r + dr, c + dc;
    if OnBoard(nr, nc) && !OwnedBy(b[nr][nc], col) && !b[nr][nc].Piece? {
      RayDistinct(b, col, sr, sc, nr, nc, dr, dc);
      var rest := Ray(b, col, sr, sc, nr, nc, dr, dc);
      var first := [NewMove(b, sr, sc, nr, nc)];
      RayHeading(b, col, sr, sc, nr, nc, dr, dc, nr, nc);
      forall m, o | m in first && o in rest ensures m.endRow != o.endRow || m.endCol != o.endCol {
        assert (Sign(o.endRow - nr), Sign(o.endCol - nc)) == (dr, dc);
      }
      ConcatDistinctEnds(first, rest);
      assert Ray(b, col, sr, sc, r, c, dr, dc) == first + rest;
    }
  }

  /** Four rays from (r, c) in four different directions: their squares are all different. */
  lemma FourRays(b: Board, col: Color, r: int, c: int, d1: (int, int), d2: (int, int), d3: (int, int), d4: (int, int))
    requires IsBoard(b) && OnBoard(r, c)
    requires IsDirection(d1.0, d1.1) && IsDirection(d2.0, d2.1) && IsDirection(d3.0, d3.1) && IsDirection(d4.0, d4.1)
    requires d1 != d2 && d1 != d3 && d1 != d4 && d2 != d3 && d2 != d4 && d3 != d4
    ensures var ms := Ray(b, col, r, c, r, c, d1.0, d1.1) + Ray(b, col, r, c, r, c, d2.0, d2.1)
                    + Ray(b, col, r, c, r, c, d3.0, d3.1) + Ray(b, col, r, c, r, c, d4.0, d4.1);
      DistinctEnds(ms) && HeadingIn(ms, r, c, {d1, d2, d3, d4})
  {
    var r1, r2 := Ray(b, col, r, c, r, c, d1.0, d1.1), Ray(b, col, r, c, r, c, d2.0, d2.1);
    var r3, r4 := Ray(b, col, r, c, r, c, d3.0, d3.1), Ray(b, col, r, c, r, c, d4.0, d4.1);
    RayDistinct(b, col, r, c, r, c, d1.0, d1.1);
    RayDistinct(b, col, r, c, r, c, d2.0, d2.1);
    RayDistinct(b, col, r, c, r, c, d3.0, d3.1);
    RayDistinct(b, col, r, c, r, c, d4.0, d4.1);
    RayHeading(b, col, r, c, r, c, d1.0, d1.1, r, c);
    RayHeading(b, col, r, c, r, c, d2.0, d2.1, r, c);
    RayHeading(b, col, r, c, r, c, d3.0, d3.1, r, c);
    RayHeading(b, col, r, c, r, c, d4.0, d4.1, r, c);
    HeadingsApart(r1, r2, r, c, {d1}, {d2});
    ConcatDistinctEnds(r1, r2);
    assert HeadingIn(r1 + r2, r, c, {d1, d2});
    HeadingsApart(r1 + r2, r3, r, c, {d1, d2}, {d3});
    ConcatDistinctEnds(r1 + r2, r3);
    assert HeadingIn(r1 + r2 + r3, r, c, {d1, d2, d3});
    HeadingsApart(r1 + r2 + r3, r4, r, c, {d1, d2, d3}, {d4});
    ConcatDistinctEnds(r1 + r2 + r3, r4);
    assert HeadingIn(r1 + r2 + r3 + r4, r, c, {d1, d2, d3, d4});
  }

  /** Distinct offsets give distinct jumps. */
  lemma {:induction false} JumpsDistinct(b: Board, col: Color, r: int, c: int, offs: seq<(int, int)>)
    requires IsBoard(b) && OnBoard(r, c)
    requires forall i, j :: 0 <= i < j < |offs| ==> offs[i] != offs[j]
    ensures DistinctEnds(Jumps(b, col, r, c, offs))
  {
    if offs != [] {
      var n := |offs| - 1;
      var off := offs[n];
      var prefix := offs[..n];
      JumpsDistinct(b, col, r, c, prefix);
      var earlier := Jumps(b, col, r, c, prefix);
      var last := if JumpOk(b, col, r, c, off) then [NewMove(b, r, c, r + off.0, c + off.1)] else [];
      forall m, o | m in earlier && o in last ensures m.endRow != o.endRow || m.endCol != o.endCol {
        JumpsSound(b, col, r, c, prefix, m);
        var i :| 0 <= i < n && prefix[i] == (m.endRow - r, m.endCol - c);
        assert prefix[i] == offs[i] != offs[n];
      }
      ConcatDistinctEnds(earlier, last);
    }
  }

  /** The king's and the knight's offset lists repeat no offset. */
  lemma OffsetsDistinct()
    ensures forall i, j :: 0 <= i < j < |KingOffsets| ==> KingOffsets[i] != KingOffsets[j]
    ensures forall i, j :: 0 <= i < j < |KnightOffsets| ==> KnightOffsets[i] != KnightOffsets[j]
  {
    forall i, j | 0 <= i < j < |KingOffsets| ensures KingOffsets[i] != KingOffsets[j] {
      assert KingOffsets[i] == (i / 3 - 1, i % 3 - 1);
      assert KingOffsets[j] == (j / 3 - 1, j % 3 - 1);
    }
  }

  /** The moves of a pawn end on different squares. */
  lemma PawnMovesDistinct(b: Board, white: bool, r: int, c: int)
    requires IsBoard(b) && OnBoard(r, c)
    ensures DistinctEnds(PawnMoves(b, white, r, c))
  {
    var ms := PawnMoves(b, white, r, c);
    var f := r + Forward(white);
    forall i, j | 0 <= i < j < |ms| ensures ms[i].endRow != ms[j].endRow || ms[i].endCol != ms[j].endCol {
      assert ms[i] in ms && ms[j] in ms;
    }
  }

  /** The bishop rays and the rook rays of a queen head in different directions. */
  lemma QueenMovesDistinct(b: Board, r: int, c: int)
    requires IsBoard(b) && OnBoard(r, c) && b[r][c].Piece?
    ensures DistinctEnds(QueenMoves(b, r, c))
  {
    var col := b[r][c].color;
    FourRays(b, col, r, c, (0, 1), (0, -1), (1, 0), (-1, 0));
    FourRays(b, col, r, c, (-1, 1), (1, 1), (1, -1), (-1, -1));
    HeadingsApart(BishopMoves(b, r, c), RookMoves(b, r, c), r, c,
                  {(-1, 1), (1, 1), (1, -1), (-1, -1)}, {(0, 1), (0, -1), (1, 0), (-1, 0)});
    ConcatDistinctEnds(BishopMoves(b, r, c), RookMoves(b, r, c));
  }

  /** The moves of one piece end on different squares. */
  lemma PieceMovesDistinct(b: Board, white: bool, r: int, c: int)
    requires IsBoard(b) && OnBoard(r, c) && b[r][c].Piece?
    ensures DistinctEnds(PieceMoves(b, white, r, c))
  {
    var col := b[r][c].color;
    match b[r][c].kind
    case Pawn =>
      PawnMovesDistinct(b, white, r, c);
    case Rook =>
      FourRays(b, col, r, c, (0, 1), (0, -1), (1, 0), (-1, 0));
    case Bishop =>
      FourRays(b, col, r, c, (-1, 1), (1, 1), (1, -1), (-1, -1));
    case Queen =>
      QueenMovesDistinct(b, r, c);
    case King =>
      OffsetsDistinct();
      JumpsDistinct(b, col, r, c, KingOffsets);
    case Knight =>
      OffsetsDistinct();
      JumpsDistinct(b, col, r, c, KnightOffsets);
  }

  /** Appending the moves of a later square keeps the squares distinct. */
  lemma ConcatDistinctSquares(a: seq<Move>, z: seq<Move>, k: int)
    requires DistinctSquares(a) && DistinctEnds(z)
    requires forall m :: m in a ==> StartIndex(m) < k
    requires forall m :: m in z ==> StartIndex(m) == k
    ensures DistinctSquares(a + z)
  {
    var ms := a + z;
    forall i, j | 0 <= i < j < |ms| ensures !SameSquares(ms[i], ms[j]) {
      if j < |a| {
        assert ms[i] == a[i] && ms[j] == a[j];
      } else if i < |a| {
        assert ms[i] == a[i] && ms[j] == z[j - |a|];
        assert ms[i] in a && ms[j] in z;
      } else {
        assert ms[i] == z[i - |a|] && ms[j] == z[j - |a|];
      }
    }
  }

  /** A square contributes moves with distinct end squares. */
  lemma SquareMovesDistinct(b: Board, white: bool, r: int, c: int)
    requires IsBoard(b) && OnBoard(r, c)
    ensures DistinctEnds(SquareMoves(b, white, r, c))
  {
    if OwnedBy(b[r][c], SideColor(white)) {
      PieceMovesDistinct(b, white, r, c);
    }
  }

  /** No two moves the scan has collected share both their squares, when no
      two moves listed for one square end on the same square. */
  lemma {:induction false} ScanToDistinct(t: seq<seq<seq<Move>>>, row: int, col: int)
    requires IsTable(t) && StartsOnSquare(t) && ScanPoint(row, col)
    requires forall r, c :: OnBoard(r, c) ==> DistinctEnds(t[r][c])
    ensures DistinctSquares(ScanTo(t, row, col))
    decreases row, col
  {
    if col == 0 {
      if row > 0 {
        ScanToDistinct(t, row - 1, 8);
      }
    } else {
      ScanToDistinct(t, row, col - 1);
      var prev := ScanTo(t, row, col - 1);
      forall m | m in prev ensures StartIndex(m) < row * 8 + col - 1 {
        ScanToSound(t, row, col - 1, m);
      }
      ConcatDistinctSquares(prev, t[row][col - 1], row * 8 + col - 1);
    }
  }

  /** No two pseudo-legal moves have the same start and end squares. */
  lemma AllPossibleDistinct(b: Board, white: bool)
    requires IsBoard(b)
    ensures DistinctSquares(AllPossible(b, white))
  {
    var t := Contributions(b, white);
    ContributionsStart(b, white);
    forall r, c | OnBoard(r, c) ensures DistinctEnds(t[r][c]) {
      SquareMovesDistinct(b, white, r, c);
    }
    ScanToDistinct(t, 8, 0);
  }
}
