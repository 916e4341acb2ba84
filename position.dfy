/**
 * The state a GameState carries between calls, as a value: the board, the
 * side to move and the two cached king squares. Making and undoing a move,
 * the attack test, the check test and the legality filter are defined here
 * as functions; the GameState methods are proved to compute them.
 */
module Positions {
  import opened Moves
  import opened Rules
  import opened Distinctness

  datatype Position = Position(board: Board, whiteToMove: bool, whiteKing: (int, int), blackKing: (int, int))

  /** The board with square (r, c) replaced by `s`. */
  function SetSquare(b: Board, r: int, c: int, s: Square): (b': Board)
    requires IsBoard(b) && OnBoard(r, c)
    ensures IsBoard(b')
    ensures b'[r][c] == s
    ensures forall i, j :: OnBoard(i, j) && !(i == r && j == c) ==> b'[i][j] == b[i][j]
  {
    b[r := b[r][c := s]]
  }

  /** Two boards with the same contents on every square are the same board. */
  lemma BoardsEqual(b: Board, b': Board)
    requires IsBoard(b) && IsBoard(b')
    requires forall i, j :: OnBoard(i, j) ==> b[i][j] == b'[i][j]
    ensures b == b'
  {
    forall i | 0 <= i < 8 ensures b[i] == b'[i] {
      assert forall j :: 0 <= j < 8 ==> b[i][j] == b'[i][j];
    }
  }

  /** `makeMove`: empty the start square, put the moved piece on the end
      square, pass the turn, and follow the king if it was the king that moved. */
  function Play(p: Position, m: Move): (q: Position)
    requires IsBoard(p.board) && MoveOnBoard(m)
    ensures IsBoard(q.board)
    ensures q.board[m.endRow][m.endCol] == m.pieceMoved
    ensures !(m.startRow == m.endRow && m.startCol == m.endCol) ==> q.board[m.startRow][m.startCol] == Empty
    ensures forall i, j ::
      OnBoard(i, j) && !(i == m.startRow && j == m.startCol) && !(i == m.endRow && j == m.endCol) ==>
        q.board[i][j] == p.board[i][j]
    ensures q.whiteToMove == !p.whiteToMove
    ensures q.whiteKing == if m.pieceMoved == Piece(White, King) then (m.endRow, m.endCol) else p.whiteKing
    ensures q.blackKing == if m.pieceMoved == Piece(Black, King) then (m.endRow, m.endCol) else p.blackKing
  {
    var b := SetSquare(SetSquare(p.board, m.startRow, m.startCol, Empty), m.endRow, m.endCol, m.pieceMoved);
    Position(b, !p.whiteToMove,
      if m.pieceMoved == Piece(White, King) then (m.endRow, m.endCol) else p.whiteKing,
      if m.pieceMoved == Piece(Black, King) then (m.endRow, m.endCol) else p.blackKing)
  }

  /** `undoMove` for the logged move `m`: put the moved piece back on the
      start square and the captured contents back on the end square, give the
      turn back, and move the cached king square back if the king had moved. */
  function Retract(p: Position, m: Move): (q: Position)
    requires IsBoard(p.board) && MoveOnBoard(m)
    ensures IsBoard(q.board)
    ensures q.board[m.endRow][m.endCol] == m.pieceCaptured
    ensures !(m.startRow == m.endRow && m.startCol == m.endCol) ==> q.board[m.startRow][m.startCol] == m.pieceMoved
    ensures forall i, j ::
      OnBoard(i, j) && !(i == m.startRow && j == m.startCol) && !(i == m.endRow && j == m.endCol) ==>
        q.board[i][j] == p.board[i][j]
    ensures q.whiteToMove == !p.whiteToMove
    ensures q.whiteKing == if m.pieceMoved == Piece(White, King) then (m.startRow, m.startCol) else p.whiteKing
    ensures q.blackKing == if m.pieceMoved == Piece(Black, King) then (m.startRow, m.startCol) else p.blackKing
  {
    var b := SetSquare(SetSquare(p.board, m.startRow, m.startCol, m.pieceMoved), m.endRow, m.endCol, m.pieceCaptured);
    Position(b, !p.whiteToMove,
      if m.pieceMoved == Piece(White, King) then (m.startRow, m.startCol) else p.whiteKing,
      if m.pieceMoved == Piece(Black, King) then (m.startRow, m.startCol) else p.blackKing)
  }

  /** The cached king squares are right: any white king on the board stands
      on the cached white king square, and likewise for black. */
  ghost predicate KingsTracked(p: Position)
    requires IsBoard(p.board)
  {
    && (forall r, c :: OnBoard(r, c) && p.board[r][c] == Piece(White, King) ==> p.whiteKing == (r, c))
    && (forall r, c :: OnBoard(r, c) && p.board[r][c] == Piece(Black, King) ==> p.blackKing == (r, c))
  }

  /** Undoing a move right after making it restores the position, provided the
      move was built on the current board and the cached king squares are right. */
  lemma PlayThenRetract(p: Position, m: Move)
    requires IsBoard(p.board) && MoveOnBoard(m) && FromBoard(p.board, m) && KingsTracked(p)
    ensures Retract(Play(p, m), m) == p
  {
    var q := Retract(Play(p, m), m);
    BoardsEqual(q.board, p.board);
  }

  /** Making a move built on the current board keeps the cached king squares right. */
  lemma PlayKeepsKingsTracked(p: Position, m: Move)
    requires IsBoard(p.board) && MoveOnBoard(m) && FromBoard(p.board, m) && KingsTracked(p)
    ensures KingsTracked(Play(p, m))
  {
    var q := Play(p, m);
    forall r, c | OnBoard(r, c) && q.board[r][c] == Piece(White, King) ensures q.whiteKing == (r, c) {
      if !(r == m.endRow && c == m.endCol) && !(r == m.startRow && c == m.startCol) {
        assert p.board[r][c] == Piece(White, King);
      }
    }
    forall r, c | OnBoard(r, c) && q.board[r][c] == Piece(Black, King) ensures q.blackKing == (r, c) {
      if !(r == m.endRow && c == m.endCol) && !(r == m.startRow && c == m.startCol) {
        assert p.board[r][c] == Piece(Black, King);
      }
    }
  }

  /** `sqUnderAttack`: some pseudo-legal move of the side not to move ends on (r, c). */
  ghost predicate Attacked(p: Position, r: int, c: int)
    requires IsBoard(p.board)
  {
    EndsOn(AllPossible(p.board, !p.whiteToMove), r, c)
  }

  /** The search loop of `sqUnderAttack`: some move of `ms` ends on (r, c). */
  predicate EndsOn(ms: seq<Move>, r: int, c: int)
  {
    ms != [] && ((ms[0].endRow == r && ms[0].endCol == c) || EndsOn(ms[1..], r, c))
  }

  /** The search finds a move ending on (r, c) exactly when the list holds one. */
  lemma {:induction false} EndsOnExactly(ms: seq<Move>, r: int, c: int)
    ensures EndsOn(ms, r, c) <==> exists m :: m in ms && m.endRow == r && m.endCol == c
    decreases |ms|
  {
    if ms != [] {
      EndsOnExactly(ms[1..], r, c);
      assert ms == [ms[0]] + ms[1..];
    }
  }

  /** The cached king square of the side to move. */
  function OwnKing(p: Position): (int, int)
  {
    if p.whiteToMove then p.whiteKing else p.blackKing
  }

  /** `inCheck`: the cached square of the side to move's king is attacked. */
  ghost predicate InCheck(p: Position)
    requires IsBoard(p.board)
  {
    Attacked(p, OwnKing(p).0, OwnKing(p).1)
  }

  /** The position after `m` with the turn handed back to the mover, as the
      legality filter tests it. */
  function Tried(p: Position, m: Move): (q: Position)
    requires IsBoard(p.board) && MoveOnBoard(m)
    ensures IsBoard(q.board) && q.whiteToMove == p.whiteToMove
  {
    Play(p, m).(whiteToMove := p.whiteToMove)
  }

  /** Making `m` leaves the mover's king attacked. */
  ghost predicate SelfCheck(p: Position, m: Move)
    requires IsBoard(p.board) && MoveOnBoard(m)
  {
    InCheck(Tried(p, m))
  }

  /** The test the legality filter applies to each move: making it leaves the
      mover's king attacked. */
  ghost function LeavesInCheck(p: Position): Move -> bool
  {
    m => IsBoard(p.board) && MoveOnBoard(m) && SelfCheck(p, m)
  }

  /** The moves of `ms` that `bad` does not reject, in their order. */
  function Keep(ms: seq<Move>, bad: Move -> bool): seq<Move>
  {
    if ms == [] then []
    else (if bad(ms[0]) then [] else [ms[0]]) + Keep(ms[1..], bad)
  }

  /** Every pseudo-legal move lies on the board and was built on it. */
  lemma PseudoLegalOnBoard(b: Board, white: bool)
    requires IsBoard(b)
    ensures forall m :: m in AllPossible(b, white) ==> MoveOnBoard(m) && FromBoard(b, m)
  {
    forall m | m in AllPossible(b, white) ensures MoveOnBoard(m) && FromBoard(b, m) {
      AllPossibleMembers(b, white, m);
    }
  }

  /** `getValidMoves`: the pseudo-legal moves that do not leave the mover's king attacked. */
  ghost function LegalMoves(p: Position): seq<Move>
    requires IsBoard(p.board)
  {
    Keep(AllPossible(p.board, p.whiteToMove), LeavesInCheck(p))
  }

  /** `a` is `z` with some elements left out, the rest kept in order. */
  ghost predicate Subsequence(a: seq<Move>, z: seq<Move>)
    decreases |z|
  {
    if a == [] then true
    else if z == [] then false
    else (a[0] == z[0] && Subsequence(a[1..], z[1..])) || Subsequence(a, z[1..])
  }

  /** Leaving out the head of `z` keeps a subsequence of its tail a subsequence. */
  lemma SubsequenceDrop(a: seq<Move>, z: seq<Move>)
    requires z != [] && Subsequence(a, z[1..])
    ensures Subsequence(a, z)
  {
  }

  /** Keeping the head of `z` in front of a subsequence of its tail. */
  lemma SubsequenceKeep(a: seq<Move>, z: seq<Move>)
    requires z != [] && Subsequence(a, z[1..])
    ensures Subsequence([z[0]] + a, z)
  {
    assert ([z[0]] + a)[1..] == a;
  }

  /** The filter keeps the moves it keeps in their original order. */
  lemma {:induction false} KeepSubsequence(ms: seq<Move>, bad: Move -> bool)
    ensures Subsequence(Keep(ms, bad), ms)
    decreases |ms|
  {
    if ms != [] {
      KeepSubsequence(ms[1..], bad);
      var rest := Keep(ms[1..], bad);
      if bad(ms[0]) {
        assert Keep(ms, bad) == [] + rest == rest;
        SubsequenceDrop(rest, ms);
      } else {
        assert Keep(ms, bad) == [ms[0]] + rest;
        SubsequenceKeep(rest, ms);
      }
    }
  }

  /** The filter keeps exactly the moves of `ms` that `bad` does not reject. */
  lemma {:induction false} KeepMembers(ms: seq<Move>, bad: Move -> bool, m: Move)
    ensures m in Keep(ms, bad) <==> m in ms && !bad(m)
    decreases |ms|
  {
    if ms != [] {
      KeepMembers(ms[1..], bad, m);
      assert ms == [ms[0]] + ms[1..];
    }
  }

  /** The legal moves are the pseudo-legal moves, in the same order, with those
      left out after which a pseudo-legal move of the opponent ends on the
      mover's king square. */
  lemma LegalMovesExactly(p: Position, m: Move)
    requires IsBoard(p.board)
    ensures Subsequence(LegalMoves(p), AllPossible(p.board, p.whiteToMove))
    ensures m in LegalMoves(p) <==>
      && m in AllPossible(p.board, p.whiteToMove)
      && MoveOnBoard(m)
      && var q := Play(p, m);
         var king := if p.whiteToMove then q.whiteKing else q.blackKing;
         forall o :: o in AllPossible(q.board, !p.whiteToMove) ==> !(o.endRow == king.0 && o.endCol == king.1)
  {
    PseudoLegalOnBoard(p.board, p.whiteToMove);
    KeepSubsequence(AllPossible(p.board, p.whiteToMove), LeavesInCheck(p));
    KeepMembers(AllPossible(p.board, p.whiteToMove), LeavesInCheck(p), m);
    if MoveOnBoard(m) {
      var q := Play(p, m);
      var king := if p.whiteToMove then q.whiteKing else q.blackKing;
      EndsOnExactly(AllPossible(q.board, !p.whiteToMove), king.0, king.1);
    }
  }

  /** `list.remove(x)`: delete the first element equal to `x` by `moveID`.
      Python raises ValueError when there is none. */
  function RemoveFirst(ms: seq<Move>, x: Move): (r: seq<Move>)
    requires exists i :: 0 <= i < |ms| && SameMove(ms[i], x)
    ensures |r| == |ms| - 1
  {
    if SameMove(ms[0], x) then ms[1..]
    else
      assert exists i :: 0 <= i < |ms[1..]| && SameMove(ms[1..][i], x) by {
        var i :| 0 <= i < |ms| && SameMove(ms[i], x);
        assert i > 0 && ms[1..][i - 1] == ms[i];
      }
      [ms[0]] + RemoveFirst(ms[1..], x)
  }

  /** When no earlier element is equal to `ms[i]`, removing `ms[i]` by value
      removes exactly index `i`. */
  lemma {:induction false} RemoveFirstAt(ms: seq<Move>, i: int)
    requires 0 <= i < |ms|
    requires forall j :: 0 <= j < i ==> !SameMove(ms[j], ms[i])
    ensures RemoveFirst(ms, ms[i]) == ms[..i] + ms[i + 1..]
    decreases i
  {
    if i > 0 {
      var tail := ms[1..];
      assert tail[i - 1] == ms[i];
      forall j | 0 <= j < i - 1 ensures !SameMove(tail[j], tail[i - 1]) {
        assert tail[j] == ms[j + 1];
      }
      RemoveFirstAt(tail, i - 1);
      assert ms[..i] == [ms[0]] + tail[..i - 1];
      assert ms[i + 1..] == tail[i..];
    }
  }

  /** In a list with distinct start and end squares on the board, no element
      before index `i` equals `ms[i]` by `moveID`. */
  lemma NoEarlierTwin(ms: seq<Move>, i: int)
    requires DistinctSquares(ms)
    requires forall m :: m in ms ==> MoveOnBoard(m)
    requires 0 <= i < |ms|
    ensures forall j :: 0 <= j < i ==> !SameMove(ms[j], ms[i])
  {
    forall j | 0 <= j < i ensures !SameMove(ms[j], ms[i]) {
      SameMoveIffSameSquares(ms[j], ms[i]);
      assert !SameSquares(ms[j], ms[i]);
    }
  }
}
