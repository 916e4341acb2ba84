/**
 * The engine's mutable game state: an 8x8 board updated in place, the turn
 * flag, the move log, the cached king squares and the checkmate/stalemate
 * flags, with the methods that make and undo moves and generate moves.
 */
module Engine {
  import opened Moves
  import opened Rules
  import opened Distinctness
  import opened Positions

  /** The back-rank piece on column `c` of the starting position. */
  function BackRank(c: int): Kind
  {
    if c == 0 || c == 7 then Rook
    else if c == 1 || c == 6 then Knight
    else if c == 2 || c == 5 then Bishop
    else if c == 3 then Queen
    else King
  }

  /** The starting position: black on rows 0 and 1, white on rows 6 and 7. */
  function InitialSquare(r: int, c: int): Square
  {
    if r == 0 then Piece(Black, BackRank(c))
    else if r == 1 then Piece(Black, Pawn)
    else if r == 6 then Piece(White, Pawn)
    else if r == 7 then Piece(White, BackRank(c))
    else Empty
  }

  function InitialBoard(): (b: Board)
    ensures |b| == 8 && forall r :: 0 <= r < 8 ==> |b[r]| == 8
    ensures forall r, c :: OnBoard(r, c) ==> b[r][c] == InitialSquare(r, c)
  {
    seq(8, r => seq(8, c => InitialSquare(r, c)))
  }

  /** In the starting position each king stands where the cache says. */
  lemma InitialKingsTracked()
    ensures IsBoard(InitialBoard())
    ensures KingsTracked(Position(InitialBoard(), true, (7, 4), (0, 4)))
  {
  }

  /** Move `m` was made in position `p`, built on its board while the cached
      king squares were right, and led to position `next`. */
  ghost predicate ReplayStep(p: Position, m: Move, next: Position)
  {
    && IsBoard(p.board) && KingsTracked(p) && MoveOnBoard(m) && FromBoard(p.board, m)
    && Play(p, m) == next
  }

  /** The position after `ps[i]`: the next one recorded, or `now` after the last. */
  function After(ps: seq<Position>, now: Position, i: int): Position
    requires 0 <= i < |ps|
  {
    if i + 1 < |ps| then ps[i + 1] else now
  }

  /** `ps[i]` is the position in which `log[i]` was made, and making each move
      leads to the next position, the last one to `now`. */
  ghost predicate Replays(ps: seq<Position>, log: seq<Move>, now: Position)
  {
    && |ps| == |log|
    && forall i :: 0 <= i < |ps| ==> ReplayStep(ps[i], log[i], After(ps, now, i))
  }

  /** Making a move from the current position records that position in the history. */
  lemma ReplaysExtend(ps: seq<Position>, log: seq<Move>, now: Position, m: Move)
    requires Replays(ps, log, now)
    requires IsBoard(now.board) && KingsTracked(now) && MoveOnBoard(m) && FromBoard(now.board, m)
    ensures Replays(ps + [now], log + [m], Play(now, m))
  {
    var ps', log' := ps + [now], log + [m];
    forall i | 0 <= i < |ps'|
      ensures ReplayStep(ps'[i], log'[i], After(ps', Play(now, m), i))
    {
      if i < |ps| {
        assert ps'[i] == ps[i] && log'[i] == log[i];
        assert ReplayStep(ps[i], log[i], After(ps, now, i));
        assert After(ps', Play(now, m), i) == After(ps, now, i);
      } else {
        assert ps'[i] == now && log'[i] == m;
      }
    }
  }

  /** Undoing the last logged move returns to the position it was made in,
      whose king squares were right, and leaves a history that replays to it. */
  lemma UndoLast(ps: seq<Position>, log: seq<Move>, now: Position)
    requires Replays(ps, log, now) && |ps| > 0
    ensures MoveOnBoard(log[|log| - 1]) && IsBoard(now.board)
    ensures Retract(now, log[|log| - 1]) == ps[|ps| - 1]
    ensures IsBoard(ps[|ps| - 1].board) && KingsTracked(ps[|ps| - 1])
    ensures Replays(ps[..|ps| - 1], log[..|log| - 1], ps[|ps| - 1])
  {
    var n := |ps| - 1;
    var ps', log' := ps[..n], log[..n];
    assert ReplayStep(ps[n], log[n], After(ps, now, n));
    PlayThenRetract(ps[n], log[n]);
    forall i | 0 <= i < |ps'|
      ensures ReplayStep(ps'[i], log'[i], After(ps', ps[n], i))
    {
      assert ReplayStep(ps[i], log[i], After(ps, now, i));
    }
  }

  /** The ray from (r, c) goes on to the next square when that square is on
      the board and not held by `col`: a capture ends the ray there, an empty
      square lets it continue. Stated for a prefix `done` already collected. */
  lemma RayTake(b: Board, col: Color, sr: int, sc: int, r: int, c: int, dr: int, dc: int, done: seq<Move>, total: seq<Move>)
    requires IsBoard(b) && OnBoard(sr, sc) && OnBoard(r, c) && IsDirection(dr, dc)
    requires OnBoard(r + dr, c + dc) && !OwnedBy(b[r + dr][c + dc], col)
    requires done + Ray(b, col, sr, sc, r, c, dr, dc) == total
    ensures b[r + dr][c + dc].Piece? ==> done + [NewMove(b, sr, sc, r + dr, c + dc)] == total
    ensures b[r + dr][c + dc] == Empty ==>
      (done + [NewMove(b, sr, sc, r + dr, c + dc)]) + Ray(b, col, sr, sc, r + dr, c + dc, dr, dc) == total
  {
    if b[r + dr][c + dc].Piece? {
      RayCaptures(b, col, sr, sc, r, c, dr, dc);
    } else {
      RayContinues(b, col, sr, sc, r, c, dr, dc);
      var m := NewMove(b, sr, sc, r + dr, c + dc);
      assert done + ([m] + Ray(b, col, sr, sc, r + dr, c + dc, dr, dc)) == total;
    }
  }

  /** A ray whose next square holds a piece of the other colour is that one capture. */
  lemma RayCaptures(b: Board, col: Color, sr: int, sc: int, r: int, c: int, dr: int, dc: int)
    requires IsBoard(b) && OnBoard(sr, sc) && OnBoard(r, c) && IsDirection(dr, dc)
    requires OnBoard(r + dr, c + dc) && !OwnedBy(b[r + dr][c + dc], col) && b[r + dr][c + dc].Piece?
    ensures Ray(b, col, sr, sc, r, c, dr, dc) == [NewMove(b, sr, sc, r + dr, c + dc)]
  {
  }

  /** A ray whose next square is empty takes it and goes on from there. */
  lemma RayContinues(b: Board, col: Color, sr: int, sc: int, r: int, c: int, dr: int, dc: int)
    requires IsBoard(b) && OnBoard(sr, sc) && OnBoard(r, c) && IsDirection(dr, dc)
    requires OnBoard(r + dr, c + dc) && b[r + dr][c + dc] == Empty
    ensures Ray(b, col, sr, sc, r, c, dr, dc) ==
      [NewMove(b, sr, sc, r + dr, c + dc)] + Ray(b, col, sr, sc, r + dr, c + dc, dr, dc)
  {
  }

  /** A ray ends before a square held by `col` and at the edge of the board. */
  lemma RayBlocked(b: Board, col: Color, sr: int, sc: int, r: int, c: int, dr: int, dc: int, done: seq<Move>, total: seq<Move>)
    requires IsBoard(b) && OnBoard(sr, sc) && OnBoard(r, c) && IsDirection(dr, dc)
    requires !OnBoard(r + dr, c + dc) || OwnedBy(b[r + dr][c + dc], col)
    requires done + Ray(b, col, sr, sc, r, c, dr, dc) == total
    ensures done == total
  {
    assert Ray(b, col, sr, sc, r, c, dr, dc) == [];
  }

  /** Appending four lists one after another. */
  lemma AppendFour(acc: seq<Move>, w: seq<Move>, x: seq<Move>, y: seq<Move>, z: seq<Move>)
    ensures acc + (w + x + y + z) == acc + w + x + y + z
  {
  }

  /** The rook's moves appended to `acc` are its four rays appended one by one. */
  lemma RookOfRays(b: Board, row: int, col: int, acc: seq<Move>)
    requires IsBoard(b) && OnBoard(row, col) && b[row][col].Piece?
    ensures acc + RookMoves(b, row, col) ==
      acc + Ray(b, b[row][col].color, row, col, row, col, 0, 1) + Ray(b, b[row][col].color, row, col, row, col, 0, -1)
      + Ray(b, b[row][col].color, row, col, row, col, 1, 0) + Ray(b, b[row][col].color, row, col, row, col, -1, 0)
  {
    var c := b[row][col].color;
    AppendFour(acc, Ray(b, c, row, col, row, col, 0, 1), Ray(b, c, row, col, row, col, 0, -1),
      Ray(b, c, row, col, row, col, 1, 0), Ray(b, c, row, col, row, col, -1, 0));
  }

  /** The bishop's moves appended to `acc` are its four rays appended one by one. */
  lemma BishopOfRays(b: Board, row: int, col: int, acc: seq<Move>)
    requires IsBoard(b) && OnBoard(row, col) && b[row][col].Piece?
    ensures acc + BishopMoves(b, row, col) ==
      acc + Ray(b, b[row][col].color, row, col, row, col, -1, 1) + Ray(b, b[row][col].color, row, col, row, col, 1, 1)
      + Ray(b, b[row][col].color, row, col, row, col, 1, -1) + Ray(b, b[row][col].color, row, col, row, col, -1, -1)
  {
    var c := b[row][col].color;
    AppendFour(acc, Ray(b, c, row, col, row, col, -1, 1), Ray(b, c, row, col, row, col, 1, 1),
      Ray(b, c, row, col, row, col, 1, -1), Ray(b, c, row, col, row, col, -1, -1));
  }

  /** The queen's moves appended to `acc` are the bishop's, then the rook's. */
  lemma QueenOfParts(b: Board, row: int, col: int, acc: seq<Move>)
    requires IsBoard(b) && OnBoard(row, col) && b[row][col].Piece?
    ensures acc + QueenMoves(b, row, col) == acc + BishopMoves(b, row, col) + RookMoves(b, row, col)
  {
  }

  /** One step of the backward filter loop over `all`, at index n - 1: the
      move there is `all[n - 1]`; if `bad` rejects it, removing it by value
      removes exactly that index; either way the kept list then has the shape
      the loop keeps, one index further down. */
  lemma FilterStep(all: seq<Move>, bad: Move -> bool, n: int, kept: seq<Move>)
    requires (forall m :: m in all ==> MoveOnBoard(m)) && DistinctSquares(all)
    requires 0 < n <= |all| && kept == all[..n] + Keep(all[n..], bad)
    ensures n - 1 < |kept| && kept[n - 1] == all[n - 1]
    ensures bad(all[n - 1]) ==>
      && (exists j :: 0 <= j < |kept| && SameMove(kept[j], kept[n - 1]))
      && RemoveFirst(kept, kept[n - 1]) == all[..n - 1] + Keep(all[n - 1..], bad)
    ensures !bad(all[n - 1]) ==> kept == all[..n - 1] + Keep(all[n - 1..], bad)
  {
    var i := n - 1;
    var rest := Keep(all[n..], bad);
    assert kept[i] == all[i];
    assert all[i..][0] == all[i] && all[i..][1..] == all[n..];
    if bad(all[i]) {
      assert Keep(all[i..], bad) == [] + rest == rest;
      NoEarlierTwin(all, i);
      forall j | 0 <= j < i ensures !SameMove(kept[j], kept[i]) {
        assert kept[j] == all[j];
      }
      RemoveFirstAt(kept, i);
      assert kept[..i] == all[..i] && kept[i + 1..] == rest;
    } else {
      assert Keep(all[i..], bad) == [all[i]] + rest;
      assert all[..n] == all[..i] + [all[i]];
    }
  }

  class GameState {
    var board: array2<Square>
    var whiteToMove: bool
    var moveLog: seq<Move>
    var whiteKingLocation: (int, int)
    var blackKingLocation: (int, int)
    var checkmate: bool
    var stalemate: bool

    /** The contents of `board`, as a value. */
    ghost var cells: Board
    /** The position in which each move of `moveLog` was made. */
    ghost var history: seq<Position>

    /** `board` is an 8x8 array whose contents are `cells`. */
    ghost predicate BoardOk()
      reads this`board, this`cells, board
    {
      && board.Length0 == 8 && board.Length1 == 8 && IsBoard(cells)
      && forall r, c :: 0 <= r < 8 && 0 <= c < 8 ==> board[r, c] == cells[r][c]
    }

    /** The board, the turn and the cached king squares, as a value. */
    ghost function Pos(): Position
      reads this`cells, this`whiteToMove, this`whiteKingLocation, this`blackKingLocation
    {
      Position(cells, whiteToMove, whiteKingLocation, blackKingLocation)
    }

    /** The object invariant: the cached king squares are right, and undoing
        the logged moves one by one walks back through `history`. */
    ghost predicate Valid()
      reads this`board, this`cells, board, this`whiteToMove, this`whiteKingLocation, this`blackKingLocation
      reads this`moveLog, this`history
    {
      BoardOk() && KingsTracked(Pos()) && Replays(history, moveLog, Pos())
    }

    /** `__init__`: the standard starting position, white to move. */
    constructor ()
      ensures Valid() && fresh(board)
      ensures Pos() == Position(InitialBoard(), true, (7, 4), (0, 4))
      ensures moveLog == [] && history == []
      ensures !checkmate && !stalemate
    {
      board := new Square[8, 8]((r, c) => InitialSquare(r, c));
      cells := InitialBoard();
      whiteToMove := true;
      moveLog := [];
      whiteKingLocation := (7, 4);
      blackKingLocation := (0, 4);
      checkmate := false;
      stalemate := false;
      history := [];
      InitialKingsTracked();
    }

    /** `Move(startSq, endSq, self.board)` for squares on the board. */
    function MoveOn(sr: int, sc: int, er: int, ec: int): (m: Move)
      reads this, board
      requires BoardOk() && OnBoard(sr, sc) && OnBoard(er, ec)
      ensures m == NewMove(cells, sr, sc, er, ec)
    {
      Move(sr, sc, er, ec, board[sr, sc], board[er, ec])
    }

    /** `makeMove`. The caller passes a move built on the current board (the
        game loop only applies a move found among the valid moves). */
    method MakeMove(move: Move)
      requires Valid() && MoveOnBoard(move) && FromBoard(cells, move)
      modifies this, board
      ensures Valid() && board == old(board)
      ensures Pos() == Play(old(Pos()), move)
      ensures moveLog == old(moveLog) + [move]
      ensures history == old(history) + [old(Pos())]
      ensures checkmate == old(checkmate) && stalemate == old(stalemate)
    {
      ghost var before := Pos();
      PlaceMove(move);
      moveLog := moveLog + [move];
      history := history + [before];
      PlayKeepsKingsTracked(before, move);
      ReplaysExtend(old(history), old(moveLog), before, move);
    }

    /** The board part of `makeMove`: the start square is emptied, the moved
        piece is put on the end square, the turn passes and a king's cached
        square follows the king. */
    method PlaceMove(move: Move)
      requires BoardOk() && MoveOnBoard(move)
      modifies this`cells, board, this`whiteToMove, this`whiteKingLocation, this`blackKingLocation
      ensures BoardOk() && Pos() == Play(old(Pos()), move)
    {
      SetCell(move.startRow, move.startCol, Empty);
      SetCell(move.endRow, move.endCol, move.pieceMoved);
      whiteToMove := !whiteToMove;
      if move.pieceMoved == Piece(White, King) {
        whiteKingLocation := (move.endRow, move.endCol);
      } else if move.pieceMoved == Piece(Black, King) {
        blackKingLocation := (move.endRow, move.endCol);
      }
    }

    /** `undoMove`: nothing happens on an empty log; otherwise the last move
        is popped and reversed, which returns to the position it was made in. */
    method UndoMove()
      requires Valid()
      modifies this, board
      ensures Valid() && board == old(board)
      ensures old(moveLog) == [] ==> Pos() == old(Pos()) && moveLog == [] && history == []
      ensures old(moveLog) != [] ==>
        && moveLog == old(moveLog[..|moveLog| - 1])
        && Pos() == Retract(old(Pos()), old(moveLog[|moveLog| - 1]))
        && Pos() == old(history[|history| - 1])
        && history == old(history[..|history| - 1])
      ensures checkmate == old(checkmate) && stalemate == old(stalemate)
    {
      if |moveLog| != 0 {
        UndoLast(history, moveLog, Pos());
        var move := moveLog[|moveLog| - 1];
        moveLog := moveLog[..|moveLog| - 1];
        TakeBack(move);
        history := history[..|history| - 1];
      }
    }

    /** The board part of `undoMove`: the moved piece goes back to the start
        square, the captured piece to the end square, the turn passes back and
        a king's cached square follows the king. */
    method TakeBack(move: Move)
      requires BoardOk() && MoveOnBoard(move)
      modifies this`cells, board, this`whiteToMove, this`whiteKingLocation, this`blackKingLocation
      ensures BoardOk() && Pos() == Retract(old(Pos()), move)
    {
      SetCell(move.startRow, move.startCol, move.pieceMoved);
      SetCell(move.endRow, move.endCol, move.pieceCaptured);
      whiteToMove := !whiteToMove;
      if move.pieceMoved == Piece(White, King) {
        whiteKingLocation := (move.startRow, move.startCol);
      } else if move.pieceMoved == Piece(Black, King) {
        blackKingLocation := (move.startRow, move.startCol);
      }
    }

    /** One square of the board is overwritten. */
    method SetCell(r: int, c: int, s: Square)
      requires BoardOk() && OnBoard(r, c)
      modifies this`cells, board
      ensures BoardOk() && cells == SetSquare(old(cells), r, c, s)
    {
      board[r, c] := s;
      cells := SetSquare(cells, r, c, s);
    }

    /** `getValidMoves`: try every pseudo-legal move, drop those that leave the
        mover in check, restore the state, and set the end-of-game flags. */
    method GetValidMoves() returns (validMoves: seq<Move>)
      requires Valid()
      modifies this, board
      ensures Valid() && board == old(board)
      ensures Pos() == old(Pos()) && moveLog == old(moveLog) && history == old(history)
      ensures validMoves == LegalMoves(Pos())
      ensures validMoves != [] ==> !checkmate && !stalemate
      ensures validMoves == [] && Positions.InCheck(Pos()) ==> checkmate && stalemate == old(stalemate)
      ensures validMoves == [] && !Positions.InCheck(Pos()) ==> stalemate && checkmate == old(checkmate)
    {
      ghost var p := Pos();
      ghost var bad := LeavesInCheck(p);
      var possibleMoves := GetAllPossibleMoves();
      ghost var all := possibleMoves;
      PseudoLegalOnBoard(cells, whiteToMove);
      AllPossibleDistinct(cells, whiteToMove);
      var i := |possibleMoves|;
      while i > 0
        invariant 0 <= i <= |all|
        invariant Valid() && board == old(board)
        invariant Pos() == p && moveLog == old(moveLog) && history == old(history)
        invariant checkmate == old(checkmate) && stalemate == old(stalemate)
        invariant possibleMoves == all[..i] + Keep(all[i..], bad)
      {
        possibleMoves := FilterAt(p, all, i, possibleMoves);
        i := i - 1;
      }
      assert all[0..] == all;
      SetEndFlags(|possibleMoves| == 0);
      validMoves := possibleMoves;
    }

    /** One round of the loop of `getValidMoves`, at index i - 1 of the
        pseudo-legal moves `all`: the move there is tried, and removed from the
        list when it leaves the mover in check. */
    method FilterAt(ghost p: Position, ghost all: seq<Move>, i: int, moves: seq<Move>) returns (kept: seq<Move>)
      requires Valid() && Pos() == p
      requires forall m :: m in all ==> MoveOnBoard(m) && FromBoard(p.board, m)
      requires DistinctSquares(all)
      requires 0 < i <= |all| && moves == all[..i] + Keep(all[i..], LeavesInCheck(p))
      modifies this, board
      ensures Valid() && board == old(board)
      ensures Pos() == p && moveLog == old(moveLog) && history == old(history)
      ensures checkmate == old(checkmate) && stalemate == old(stalemate)
      ensures kept == all[..i - 1] + Keep(all[i - 1..], LeavesInCheck(p))
    {
      FilterStep(all, LeavesInCheck(p), i, moves);
      var check := TryMove(moves[i - 1]);
      kept := moves;
      if check {
        kept := RemoveFirst(moves, moves[i - 1]);
      }
    }

    /** The end of `getValidMoves`: with no move left, checkmate when the
        mover is in check and stalemate otherwise (the other flag is left as
        it was); with moves left, both flags are cleared. */
    method SetEndFlags(noMoves: bool)
      requires Valid()
      modifies this`checkmate, this`stalemate, this`whiteToMove
      ensures Valid() && whiteToMove == old(whiteToMove)
      ensures !noMoves ==> !checkmate && !stalemate
      ensures noMoves && Positions.InCheck(Pos()) ==> checkmate && stalemate == old(stalemate)
      ensures noMoves && !Positions.InCheck(Pos()) ==> stalemate && checkmate == old(checkmate)
    {
      if noMoves {
        var check := InCheck();
        if check {
          checkmate := true;
        } else {
          stalemate := true;
        }
      } else {
        checkmate := false;
        stalemate := false;
      }
    }

    /** One round of the legality filter: make the move, hand the turn back
        to the mover, ask whether its king is attacked, hand the turn on again
        and undo the move. */
    method TryMove(move: Move) returns (check: bool)
      requires Valid() && MoveOnBoard(move) && FromBoard(cells, move)
      modifies this, board
      ensures Valid() && board == old(board)
      ensures Pos() == old(Pos()) && moveLog == old(moveLog) && history == old(history)
      ensures checkmate == old(checkmate) && stalemate == old(stalemate)
      ensures check == SelfCheck(old(Pos()), move)
    {
      check := MakeAndTest(move);
      assert moveLog[..|moveLog| - 1] == old(moveLog) && history[..|history| - 1] == old(history);
      assert history[|history| - 1] == old(Pos());
      UndoMove();
    }

    /** The first half of one round of the legality filter: make the move,
        then ask whether it left the mover's king attacked. */
    method MakeAndTest(move: Move) returns (check: bool)
      requires Valid() && MoveOnBoard(move) && FromBoard(cells, move)
      modifies this, board
      ensures Valid() && board == old(board)
      ensures Pos() == Play(old(Pos()), move)
      ensures moveLog == old(moveLog) + [move] && history == old(history) + [old(Pos())]
      ensures checkmate == old(checkmate) && stalemate == old(stalemate)
      ensures check == SelfCheck(old(Pos()), move)
    {
      MakeMove(move);
      check := MoverInCheck();
    }

    /** The middle of one round of the legality filter: hand the turn back to
        the side that just moved, ask whether its king is attacked, and hand
        the turn on again. */
    method MoverInCheck() returns (check: bool)
      requires BoardOk()
      modifies this`whiteToMove
      ensures whiteToMove == old(whiteToMove)
      ensures check == Positions.InCheck(Pos().(whiteToMove := !whiteToMove))
    {
      whiteToMove := !whiteToMove;
      check := InCheck();
      whiteToMove := !whiteToMove;
    }

    /** `inCheck`: whether the king of the side to move is attacked. */
    method InCheck() returns (check: bool)
      requires BoardOk()
      modifies this`whiteToMove
      ensures whiteToMove == old(whiteToMove)
      ensures check == Positions.InCheck(Pos())
    {
      if whiteToMove {
        check := SqUnderAttack(whiteKingLocation.0, whiteKingLocation.1);
      } else {
        check := SqUnderAttack(blackKingLocation.0, blackKingLocation.1);
      }
    }

    /** `sqUnderAttack`: hand the turn to the opponent, generate its moves,
        hand the turn back, and look for one ending on (row, col). */
    method SqUnderAttack(row: int, col: int) returns (attacked: bool)
      requires BoardOk()
      modifies this`whiteToMove
      ensures whiteToMove == old(whiteToMove)
      ensures attacked == Attacked(Pos(), row, col)
    {
      whiteToMove := !whiteToMove;
      var oppMoves := GetAllPossibleMoves();
      whiteToMove := !whiteToMove;
      for i := 0 to |oppMoves|
        invariant EndsOn(oppMoves[i..], row, col) == EndsOn(oppMoves, row, col)
      {
        if oppMoves[i].endRow == row && oppMoves[i].endCol == col {
          return true;
        }
        assert oppMoves[i..][1..] == oppMoves[i + 1..];
      }
      return false;
    }

    /** `getAllPossibleMoves`: scan the board row by row and hand every piece
        of the side to move to its generator. */
    method GetAllPossibleMoves() returns (possibleMoves: seq<Move>)
      requires BoardOk()
      ensures possibleMoves == AllPossible(cells, whiteToMove)
    {
      ghost var t := Contributions(cells, whiteToMove);
      possibleMoves := [];
      for row := 0 to 8
        invariant possibleMoves == ScanTo(t, row, 0)
      {
        for col := 0 to 8
          invariant possibleMoves == ScanTo(t, row, col)
        {
          ScanToStep(t, row, col);
          possibleMoves := CollectSquare(row, col, possibleMoves);
        }
        ScanToRow(t, row);
      }
    }

    /** The body of the scan: the square's generator runs when the piece on
        it belongs to the side to move. */
    method CollectSquare(row: int, col: int, acc: seq<Move>) returns (moves: seq<Move>)
      requires BoardOk() && OnBoard(row, col)
      ensures moves == acc + SquareMoves(cells, whiteToMove, row, col)
    {
      var square := board[row, col];
      if square.Piece? && square.color == SideColor(whiteToMove) {
        moves := MoveFunction(row, col, acc);
      } else {
        moves := acc;
        assert moves + [] == moves;
      }
    }

    /** `self.moveFunctions[piece](row, col, possibleMoves)`: the generator
        chosen by the letter of the piece on (row, col). */
    method MoveFunction(row: int, col: int, acc: seq<Move>) returns (moves: seq<Move>)
      requires BoardOk() && OnBoard(row, col) && cells[row][col].Piece?
      ensures moves == acc + PieceMoves(cells, whiteToMove, row, col)
    {
      match board[row, col].kind
      case Pawn => moves := GetPawnMoves(row, col, acc);
      case Rook => moves := GetRookMoves(row, col, acc);
      case Knight => moves := GetKnightMoves(row, col, acc);
      case Bishop => moves := GetBishopMoves(row, col, acc);
      case Queen => moves := GetQueenMoves(row, col, acc);
      case King => moves := GetKingMoves(row, col, acc);
    }

    /** `getPawnMoves`, with the square ahead checked to be on the board. */
    method GetPawnMoves(row: int, col: int, acc: seq<Move>) returns (moves: seq<Move>)
      requires BoardOk() && OnBoard(row, col)
      ensures moves == acc + PawnMoves(cells, whiteToMove, row, col)
    {
      var d := if whiteToMove then -1 else 1;
      var ahead := row + d;
      if !(0 <= ahead <= 7) {
        return acc;
      }
      var advances := PawnAdvances(row, col);
      var captureLeft := PawnCaptureOn(row, col, col - 1);
      var captureRight := PawnCaptureOn(row, col, col + 1);
      PawnMovesParts(cells, whiteToMove, row, col);
      moves := acc + (advances + captureLeft + captureRight);
    }

    /** The straight advances of the pawn on (row, col): one square onto an
        empty square, and from the home row two squares onto an empty square. */
    method PawnAdvances(row: int, col: int) returns (advances: seq<Move>)
      requires BoardOk() && OnBoard(row, col) && 0 <= row + Forward(whiteToMove) <= 7
      ensures advances == PawnPushes(cells, whiteToMove, row, col)
    {
      var d := if whiteToMove then -1 else 1;
      var home := if whiteToMove then 6 else 1;
      advances := [];
      if board[row + d, col] == Empty {
        advances := [MoveOn(row, col, row + d, col)];
        if row == home && board[row + 2 * d, col] == Empty {
          advances := advances + [MoveOn(row, col, row + 2 * d, col)];
        }
      }
    }

    /** The diagonal capture of the pawn on (row, col) onto column `e`, when
        that column exists and holds a piece of the other side. */
    method PawnCaptureOn(row: int, col: int, e: int) returns (captures: seq<Move>)
      requires BoardOk() && OnBoard(row, col) && 0 <= row + Forward(whiteToMove) <= 7
      requires e == col - 1 || e == col + 1
      ensures captures == PawnCapture(cells, whiteToMove, row, col, e)
    {
      var ahead := row + (if whiteToMove then -1 else 1);
      var enemy := if whiteToMove then Black else White;
      captures := [];
      if 0 <= e <= 7 && board[ahead, e].Piece? && board[ahead, e].color == enemy {
        captures := [MoveOn(row, col, ahead, e)];
      }
    }

    /** `getRookMoves`: right, left, down, up. */
    method GetRookMoves(row: int, col: int, acc: seq<Move>) returns (moves: seq<Move>)
      requires BoardOk() && OnBoard(row, col) && cells[row][col].Piece?
      ensures moves == acc + RookMoves(cells, row, col)
    {
      var colour := board[row, col].color;
      moves := SlideRight(row, col, colour, acc);
      moves := SlideLeft(row, col, colour, moves);
      moves := SlideDown(row, col, colour, moves);
      moves := SlideUp(row, col, colour, moves);
      RookOfRays(cells, row, col, acc);
    }

    /** `getBishopMoves`: up-right, down-right, down-left, up-left. */
    method GetBishopMoves(row: int, col: int, acc: seq<Move>) returns (moves: seq<Move>)
      requires BoardOk() && OnBoard(row, col) && cells[row][col].Piece?
      ensures moves == acc + BishopMoves(cells, row, col)
    {
      var colour := board[row, col].color;
      moves := SlideUpRight(row, col, colour, acc);
      moves := SlideDownRight(row, col, colour, moves);
      moves := SlideDownLeft(row, col, colour, moves);
      moves := SlideUpLeft(row, col, colour, moves);
      BishopOfRays(cells, row, col, acc);
    }

    /** The "move right" loop of `getRookMoves`: step along the row until the
        last column, stop before a piece of `colour`, stop after a capture. */
    method SlideRight(row: int, col: int, colour: Color, acc: seq<Move>) returns (moves: seq<Move>)
      requires BoardOk() && OnBoard(row, col)
      ensures moves == acc + Ray(cells, colour, row, col, row, col, 0, 1)
    {
      ghost var total := acc + Ray(cells, colour, row, col, row, col, 0, 1);
      moves := acc;
      var rCol := col;
      while rCol != 7
        invariant col <= rCol <= 7
        invariant moves + Ray(cells, colour, row, col, row, rCol, 0, 1) == total
        decreases 7 - rCol
      {
        rCol := rCol + 1;
        if board[row, rCol].Piece? && board[row, rCol].color == colour {
          RayBlocked(cells, colour, row, col, row, rCol - 1, 0, 1, moves, total);
          return;
        }
        RayTake(cells, colour, row, col, row, rCol - 1, 0, 1, moves, total);
        moves := moves + [MoveOn(row, col, row, rCol)];
        if board[row, rCol] != Empty {
          return;
        }
      }
      RayBlocked(cells, colour, row, col, row, rCol, 0, 1, moves, total);
    }

    /** The "move left" loop of `getRookMoves`. */
    method SlideLeft(row: int, col: int, colour: Color, acc: seq<Move>) returns (moves: seq<Move>)
      requires BoardOk() && OnBoard(row, col)
      ensures moves == acc + Ray(cells, colour, row, col, row, col, 0, -1)
    {
      ghost var total := acc + Ray(cells, colour, row, col, row, col, 0, -1);
      moves := acc;
      var lCol := col;
      while lCol != 0
        invariant 0 <= lCol <= col
        invariant moves + Ray(cells, colour, row, col, row, lCol, 0, -1) == total
        decreases lCol
      {
        lCol := lCol - 1;
        if board[row, lCol].Piece? && board[row, lCol].color == colour {
          RayBlocked(cells, colour, row, col, row, lCol + 1, 0, -1, moves, total);
          return;
        }
        RayTake(cells, colour, row, col, row, lCol + 1, 0, -1, moves, total);
        moves := moves + [MoveOn(row, col, row, lCol)];
        if board[row, lCol] != Empty {
          return;
        }
      }
      RayBlocked(cells, colour, row, col, row, lCol, 0, -1, moves, total);
    }

    /** The "move down" loop of `getRookMoves`. */
    method SlideDown(row: int, col: int, colour: Color, acc: seq<Move>) returns (moves: seq<Move>)
      requires BoardOk() && OnBoard(row, col)
      ensures moves == acc + Ray(cells, colour, row, col, row, col, 1, 0)
    {
      ghost var total := acc + Ray(cells, colour, row, col, row, col, 1, 0);
      moves := acc;
      var dRow := row;
      while dRow != 7
        invariant row <= dRow <= 7
        invariant moves + Ray(cells, colour, row, col, dRow, col, 1, 0) == total
        decreases 7 - dRow
      {
        dRow := dRow + 1;
        if board[dRow, col].Piece? && board[dRow, col].color == colour {
          RayBlocked(cells, colour, row, col, dRow - 1, col, 1, 0, moves, total);
          return;
        }
        RayTake(cells, colour, row, col, dRow - 1, col, 1, 0, moves, total);
        moves := moves + [MoveOn(row, col, dRow, col)];
        if board[dRow, col] != Empty {
          return;
        }
      }
      RayBlocked(cells, colour, row, col, dRow, col, 1, 0, moves, total);
    }

    /** The "move up" loop of `getRookMoves`. */
    method SlideUp(row: int, col: int, colour: Color, acc: seq<Move>) returns (moves: seq<Move>)
      requires BoardOk() && OnBoard(row, col)
      ensures moves == acc + Ray(cells, colour, row, col, row, col, -1, 0)
    {
      ghost var total := acc + Ray(cells, colour, row, col, row, col, -1, 0);
      moves := acc;
      var uRow := row;
      while uRow != 0
        invariant 0 <= uRow <= row
        invariant moves + Ray(cells, colour, row, col, uRow, col, -1, 0) == total
        decreases uRow
      {
        uRow := uRow - 1;
        if board[uRow, col].Piece? && board[uRow, col].color == colour {
          RayBlocked(cells, colour, row, col, uRow + 1, col, -1, 0, moves, total);
          return;
        }
        RayTake(cells, colour, row, col, uRow + 1, col, -1, 0, moves, total);
        moves := moves + [MoveOn(row, col, uRow, col)];
        if board[uRow, col] != Empty {
          return;
        }
      }
      RayBlocked(cells, colour, row, col, uRow, col, -1, 0, moves, total);
    }

    /** The "move up-right" loop of `getBishopMoves`. */
    method SlideUpRight(row: int, col: int, colour: Color, acc: seq<Move>) returns (moves: seq<Move>)
      requires BoardOk() && OnBoard(row, col)
      ensures moves == acc + Ray(cells, colour, row, col, row, col, -1, 1)
    {
      ghost var total := acc + Ray(cells, colour, row, col, row, col, -1, 1);
      moves := acc;
      var uRow, rCol := row, col;
      while uRow != 0 && rCol != 7
        invariant 0 <= uRow <= row && col <= rCol <= 7
        invariant moves + Ray(cells, colour, row, col, uRow, rCol, -1, 1) == total
        decreases uRow
      {
        uRow, rCol := uRow - 1, rCol + 1;
        if board[uRow, rCol].Piece? && board[uRow, rCol].color == colour {
          RayBlocked(cells, colour, row, col, uRow + 1, rCol - 1, -1, 1, moves, total);
          return;
        }
        RayTake(cells, colour, row, col, uRow + 1, rCol - 1, -1, 1, moves, total);
        moves := moves + [MoveOn(row, col, uRow, rCol)];
        if board[uRow, rCol] != Empty {
          return;
        }
      }
      RayBlocked(cells, colour, row, col, uRow, rCol, -1, 1, moves, total);
    }

    /** The "move down-right" loop of `getBishopMoves`. */
    method SlideDownRight(row: int, col: int, colour: Color, acc: seq<Move>) returns (moves: seq<Move>)
      requires BoardOk() && OnBoard(row, col)
      ensures moves == acc + Ray(cells, colour, row, col, row, col, 1, 1)
    {
      ghost var total := acc + Ray(cells, colour, row, col, row, col, 1, 1);
      moves := acc;
      var dRow, rCol := row, col;
      while dRow != 7 && rCol != 7
        invariant row <= dRow <= 7 && col <= rCol <= 7
        invariant moves + Ray(cells, colour, row, col, dRow, rCol, 1, 1) == total
        decreases 7 - dRow
      {
        dRow, rCol := dRow + 1, rCol + 1;
        if board[dRow, rCol].Piece? && board[dRow, rCol].color == colour {
          RayBlocked(cells, colour, row, col, dRow - 1, rCol - 1, 1, 1, moves, total);
          return;
        }
        RayTake(cells, colour, row, col, dRow - 1, rCol - 1, 1, 1, moves, total);
        moves := moves + [MoveOn(row, col, dRow, rCol)];
        if board[dRow, rCol] != Empty {
          return;
        }
      }
      RayBlocked(cells, colour, row, col, dRow, rCol, 1, 1, moves, total);
    }

    /** The "move down-left" loop of `getBishopMoves`. */
    method SlideDownLeft(row: int, col: int, colour: Color, acc: seq<Move>) returns (moves: seq<Move>)
      requires BoardOk() && OnBoard(row, col)
      ensures moves == acc + Ray(cells, colour, row, col, row, col, 1, -1)
    {
      ghost var total := acc + Ray(cells, colour, row, col, row, col, 1, -1);
      moves := acc;
      var dRow, lCol := row, col;
      while dRow != 7 && lCol != 0
        invariant row <= dRow <= 7 && 0 <= lCol <= col
        invariant moves + Ray(cells, colour, row, col, dRow, lCol, 1, -1) == total
        decreases 7 - dRow
      {
        dRow, lCol := dRow + 1, lCol - 1;
        if board[dRow, lCol].Piece? && board[dRow, lCol].color == colour {
          RayBlocked(cells, colour, row, col, dRow - 1, lCol + 1, 1, -1, moves, total);
          return;
        }
        RayTake(cells, colour, row, col, dRow - 1, lCol + 1, 1, -1, moves, total);
        moves := moves + [MoveOn(row, col, dRow, lCol)];
        if board[dRow, lCol] != Empty {
          return;
        }
      }
      RayBlocked(cells, colour, row, col, dRow, lCol, 1, -1, moves, total);
    }

    /** The "move up-left" loop of `getBishopMoves`. */
    method SlideUpLeft(row: int, col: int, colour: Color, acc: seq<Move>) returns (moves: seq<Move>)
      requires BoardOk() && OnBoard(row, col)
      ensures moves == acc + Ray(cells, colour, row, col, row, col, -1, -1)
    {
      ghost var total := acc + Ray(cells, colour, row, col, row, col, -1, -1);
      moves := acc;
      var uRow, lCol := row, col;
      while uRow != 0 && lCol != 0
        invariant 0 <= uRow <= row && 0 <= lCol <= col
        invariant moves + Ray(cells, colour, row, col, uRow, lCol, -1, -1) == total
        decreases uRow
      {
        uRow, lCol := uRow - 1, lCol - 1;
        if board[uRow, lCol].Piece? && board[uRow, lCol].color == colour {
          RayBlocked(cells, colour, row, col, uRow + 1, lCol + 1, -1, -1, moves, total);
          return;
        }
        RayTake(cells, colour, row, col, uRow + 1, lCol + 1, -1, -1, moves, total);
        moves := moves + [MoveOn(row, col, uRow, lCol)];
        if board[uRow, lCol] != Empty {
          return;
        }
      }
      RayBlocked(cells, colour, row, col, uRow, lCol, -1, -1, moves, total);
    }

    /** `getQueenMoves`: the bishop's moves, then the rook's. */
    method GetQueenMoves(row: int, col: int, acc: seq<Move>) returns (moves: seq<Move>)
      requires BoardOk() && OnBoard(row, col) && cells[row][col].Piece?
      ensures moves == acc + QueenMoves(cells, row, col)
    {
      moves := GetBishopMoves(row, col, acc);
      moves := GetRookMoves(row, col, moves);
      QueenOfParts(cells, row, col, acc);
    }

    /** The loop of `getKingMoves` / `getKnightMoves` over a list of offsets. */
    method JumpMoves(row: int, col: int, offsets: seq<(int, int)>, acc: seq<Move>) returns (moves: seq<Move>)
      requires BoardOk() && OnBoard(row, col) && cells[row][col].Piece?
      ensures moves == acc + Jumps(cells, cells[row][col].color, row, col, offsets)
    {
      var colour := board[row, col].color;
      moves := acc;
      for i := 0 to |offsets|
        invariant moves == acc + Jumps(cells, colour, row, col, offsets[..i])
      {
        var (r, c) := offsets[i];
        assert offsets[..i + 1][..i] == offsets[..i];
        if 0 <= row + r <= 7 && 0 <= col + c <= 7 && !(r == 0 && c == 0)
          && !(board[row + r, col + c].Piece? && board[row + r, col + c].color == colour) {
          moves := moves + [MoveOn(row, col, row + r, col + c)];
        }
      }
      assert offsets[..|offsets|] == offsets;
    }

    /** `getKingMoves`. */
    method GetKingMoves(row: int, col: int, acc: seq<Move>) returns (moves: seq<Move>)
      requires BoardOk() && OnBoard(row, col) && cells[row][col].Piece?
      ensures moves == acc + KingMoves(cells, row, col)
    {
      moves := JumpMoves(row, col, KingOffsets, acc);
    }

    /** `getKnightMoves`. */
    method GetKnightMoves(row: int, col: int, acc: seq<Move>) returns (moves: seq<Move>)
      requires BoardOk() && OnBoard(row, col) && cells[row][col].Piece?
      ensures moves == acc + KnightMoves(cells, row, col)
    {
      moves := JumpMoves(row, col, KnightOffsets, acc);
    }
  }
}
