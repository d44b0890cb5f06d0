/** The board engine of backend/utils/gameLogic.js: win detection, the winning line, full
    boards, available and valid moves, move application, coordinates and the list of all
    winning lines, on a square board of `size` by `size` cells stored row by row. */
module BoardEngine {
  import opened Wrappers
  import opened Lists

  datatype Symbol = X | O

  /** A cell holds the empty string or a player's symbol. */
  datatype Cell = Empty | Mark(sym: Symbol)

  type Board = seq<Cell>

  /** The other player: `symbol === "X" ? "O" : "X"`. */
  function Other(s: Symbol): (t: Symbol)
    ensures t != s
  {
    if s == X then O else X
  }

  /** `new Array(size * size).fill("")`. */
  function EmptyBoard(size: nat): (b: Board)
    ensures |b| == size * size
    ensures forall i :: 0 <= i < |b| ==> b[i] == Empty
  {
    seq(size * size, _ => Empty)
  }

  /** What a read `board[k]` sees when it is only tested for truthiness: an index off the
      board reads as `undefined`, which counts as empty, like "". */
  function At(board: Board, k: int): Cell {
    if 0 <= k < |board| then board[k] else Empty
  }

  // ---------------------------------------------------------------------------------------
  // Lines

  /** The four kinds of line the engine scans. */
  datatype LineKind = RowLine(r: int) | ColumnLine(c: int) | MainDiagonalLine | AntiDiagonalLine

  /** The index of the i-th cell of a line, written as the engine computes it. */
  function CellIndex(size: nat, kind: LineKind, i: int): int {
    match kind
    case RowLine(r) => r * size + i
    case ColumnLine(c) => i * size + c
    case MainDiagonalLine => i * size + i
    case AntiDiagonalLine => i * size + (size - 1 - i)
  }

  /** The `size` indices of a line. */
  function Line(size: nat, kind: LineKind): (line: seq<int>)
    ensures |line| == size
    ensures forall i :: 0 <= i < size ==> line[i] == CellIndex(size, kind, i)
  {
    seq(size, i => CellIndex(size, kind, i))
  }

  /** The kind of the j-th line in scan order: all rows, then all columns, then the main
      diagonal, then the anti-diagonal. */
  function KindAt(size: nat, j: int): LineKind {
    if j < size then RowLine(j)
    else if j < 2 * size then ColumnLine(j - size)
    else if j == 2 * size then MainDiagonalLine
    else AntiDiagonalLine
  }

  /** Every line that can win, in scan order. */
  function WinningLines(size: nat): (lines: seq<seq<int>>)
    ensures |lines| == 2 * size + 2
    ensures forall j :: 0 <= j < |lines| ==> lines[j] == Line(size, KindAt(size, j))
  {
    seq(2 * size + 2, j => Line(size, KindAt(size, j)))
  }

  /** A line wins when its first cell is non-empty and every cell of it equals the first. */
  predicate Complete(board: Board, line: seq<int>) {
    |line| > 0 && At(board, line[0]) != Empty
    && forall i :: 0 <= i < |line| ==> At(board, line[i]) == At(board, line[0])
  }

  /** The symbol that fills the whole line, if one does. */
  function LineOwner(board: Board, line: seq<int>): Option<Symbol> {
    if Complete(board, line) then Some(At(board, line[0]).sym) else None
  }

  /** Index of the first complete line among lines[k..]. */
  function FirstCompleteFrom(board: Board, lines: seq<seq<int>>, k: nat): (r: Option<nat>)
    ensures r.Some? ==> k <= r.value < |lines| && Complete(board, lines[r.value])
    ensures r.Some? ==> forall j :: k <= j < r.value ==> !Complete(board, lines[j])
    ensures r.None? ==> forall j :: k <= j < |lines| ==> !Complete(board, lines[j])
    decreases |lines| - k
  {
    if k >= |lines| then None
    else if Complete(board, lines[k]) then Some(k)
    else FirstCompleteFrom(board, lines, k + 1)
  }

  /** Index of the first complete line of the board, in scan order. */
  function FirstComplete(board: Board, size: nat): Option<nat> {
    FirstCompleteFrom(board, WinningLines(size), 0)
  }

  /** The value checkWinner computes. */
  function Winner(board: Board, size: nat): Option<Symbol> {
    match FirstComplete(board, size)
    case None => None
    case Some(j) => LineOwner(board, WinningLines(size)[j])
  }

  /** The value getWinningCombination computes. */
  function WinningCombination(board: Board, size: nat): seq<int> {
    match FirstComplete(board, size)
    case None => []
    case Some(j) => WinningLines(size)[j]
  }

  // ---------------------------------------------------------------------------------------
  // The scanning loops

  /** One line of the scan: read its first cell, skip the line when that cell is empty,
      count the cells equal to it up to the first that differs, and report the symbol when
      the count reaches `size`. */
  method ScanLine(board: Board, size: nat, kind: LineKind) returns (owner: Option<Symbol>)
    ensures owner == LineOwner(board, Line(size, kind))
  {
    ghost var line := Line(size, kind);
    var currentPlayer := At(board, CellIndex(size, kind, 0));
    if currentPlayer == Empty {
      return None;
    }
    var count := 1;
    var i := 1;
    while i < size
      invariant 1 <= i && (size > 0 ==> i <= size)
      invariant count == i
      invariant forall k :: 0 <= k < i && k < size ==> At(board, line[k]) == currentPlayer
    {
      if At(board, CellIndex(size, kind, i)) == currentPlayer {
        count := count + 1;
      } else {
        assert At(board, line[i]) != At(board, line[0]);
        break;
      }
      i := i + 1;
    }
    if count == size {
      owner := Some(currentPlayer.sym);
    } else {
      owner := None;
    }
  }

  /** The scan has passed the first j lines in scan order without finding a complete one. */
  predicate SearchedTo(board: Board, size: nat, j: nat) {
    FirstComplete(board, size) == FirstCompleteFrom(board, WinningLines(size), j)
  }

  /** One step of either scan: the j-th line in scan order decides the result when it is
      complete, and otherwise the search moves on to the next line. */
  lemma ScanStep(board: Board, size: nat, j: nat, kind: LineKind, owner: Option<Symbol>)
    requires j < 2 * size + 2 && kind == KindAt(size, j)
    requires SearchedTo(board, size, j) && owner == LineOwner(board, Line(size, kind))
    ensures owner.Some? ==> Winner(board, size) == owner && WinningCombination(board, size) == Line(size, kind)
    ensures owner.None? ==> SearchedTo(board, size, j + 1)
    ensures owner.None? && j + 1 == 2 * size + 2 ==> Winner(board, size).None? && WinningCombination(board, size) == []
  {
    var lines := WinningLines(size);
    assert lines[j] == Line(size, kind);
  }

  /** checkWinner (gameLogic.js:9-87): rows, then columns, then the two diagonals; the
      first complete line decides. */
  method CheckWinner(board: Board, size: nat) returns (winner: Option<Symbol>)
    ensures winner == Winner(board, size)
  {
    var row := 0;
    while row < size
      invariant 0 <= row <= size
      invariant SearchedTo(board, size, row)
    {
      winner := ScanLine(board, size, RowLine(row));
      ScanStep(board, size, row, RowLine(row), winner);
      if winner.Some? {
        return;
      }
      row := row + 1;
    }
    var col := 0;
    ghost var j := size;
    while col < size
      invariant 0 <= col <= size && j == size + col
      invariant SearchedTo(board, size, j)
    {
      winner := ScanLine(board, size, ColumnLine(col));
      ScanStep(board, size, j, ColumnLine(col), winner);
      if winner.Some? {
        return;
      }
      col := col + 1;
      j := j + 1;
    }
    winner := ScanLine(board, size, MainDiagonalLine);
    ScanStep(board, size, 2 * size, MainDiagonalLine, winner);
    if winner.Some? {
      return;
    }
    winner := ScanLine(board, size, AntiDiagonalLine);
    ScanStep(board, size, 2 * size + 1, AntiDiagonalLine, winner);
  }

  /** getWinningCombination (gameLogic.js:95-173): the same scan, returning the indices of
      the first complete line, or [] when there is none. */
  method GetWinningCombination(board: Board, size: nat) returns (combination: seq<int>)
    ensures combination == WinningCombination(board, size)
  {
    var row := 0;
    while row < size
      invariant 0 <= row <= size
      invariant SearchedTo(board, size, row)
    {
      var owner := ScanLine(board, size, RowLine(row));
      ScanStep(board, size, row, RowLine(row), owner);
      if owner.Some? {
        return Line(size, RowLine(row));
      }
      row := row + 1;
    }
    var col := 0;
    ghost var j := size;
    while col < size
      invariant 0 <= col <= size && j == size + col
      invariant SearchedTo(board, size, j)
    {
      var owner := ScanLine(board, size, ColumnLine(col));
      ScanStep(board, size, j, ColumnLine(col), owner);
      if owner.Some? {
        return Line(size, ColumnLine(col));
      }
      col := col + 1;
      j := j + 1;
    }
    var owner := ScanLine(board, size, MainDiagonalLine);
    ScanStep(board, size, 2 * size, MainDiagonalLine, owner);
    if owner.Some? {
      return Line(size, MainDiagonalLine);
    }
    owner := ScanLine(board, size, AntiDiagonalLine);
    ScanStep(board, size, 2 * size + 1, AntiDiagonalLine, owner);
    if owner.Some? {
      return Line(size, AntiDiagonalLine);
    }
    return [];
  }

  // ---------------------------------------------------------------------------------------
  // What checkWinner and getWinningCombination mean

  /** Every cell of the line holds `s`. */
  predicate FilledWith(board: Board, line: seq<int>, s: Symbol) {
    forall i :: 0 <= i < |line| ==> At(board, line[i]) == Mark(s)
  }

  /** checkWinner reports `s` only when some row, column or diagonal is `size` copies of
      `s`, and the first complete line in scan order is that one. */
  lemma WinnerHasFilledLine(board: Board, size: nat, s: Symbol)
    requires Winner(board, size) == Some(s)
    ensures FirstComplete(board, size).Some?
    ensures var j := FirstComplete(board, size).value;
      j < 2 * size + 2 && |WinningLines(size)[j]| == size && size > 0
      && FilledWith(board, WinningLines(size)[j], s)
      && forall k :: 0 <= k < j ==> !Complete(board, WinningLines(size)[k])
  {
    var j := FirstComplete(board, size).value;
    var line := WinningLines(size)[j];
    assert LineOwner(board, line) == Some(s);
    forall i | 0 <= i < |line| ensures At(board, line[i]) == Mark(s) {
      assert At(board, line[i]) == At(board, line[0]);
    }
  }

  /** checkWinner reports null exactly when no line is complete, and reports some symbol
      whenever a line is filled with one symbol. */
  lemma NoWinnerIffNoCompleteLine(board: Board, size: nat)
    ensures Winner(board, size).None? <==>
      forall j :: 0 <= j < |WinningLines(size)| ==> !Complete(board, WinningLines(size)[j])
  {
    match FirstComplete(board, size)
    case None =>
    case Some(j) =>
      assert Complete(board, WinningLines(size)[j]);
  }

  /** A line filled with one symbol is a win for some symbol. */
  lemma FilledLineWins(board: Board, size: nat, j: nat, s: Symbol)
    requires j < |WinningLines(size)| && size > 0
    requires FilledWith(board, WinningLines(size)[j], s)
    ensures Winner(board, size).Some?
  {
    var line := WinningLines(size)[j];
    assert |line| == size;
    assert Complete(board, line);
    NoWinnerIffNoCompleteLine(board, size);
  }

  /** getWinningCombination is non-empty exactly when checkWinner reports a winner; the
      line then has `size` cells that all hold the winner, and it is the first complete
      line in scan order. */
  lemma CombinationMatchesWinner(board: Board, size: nat)
    ensures |WinningCombination(board, size)| > 0 <==> Winner(board, size).Some?
    ensures Winner(board, size).Some? ==>
      var combination := WinningCombination(board, size);
      |combination| == size
      && FilledWith(board, combination, Winner(board, size).value)
      && combination == WinningLines(size)[FirstComplete(board, size).value]
  {
    match FirstComplete(board, size)
    case None =>
    case Some(j) =>
      var line := WinningLines(size)[j];
      assert Complete(board, line);
      WinnerHasFilledLine(board, size, At(board, line[0]).sym);
  }

  /** A board with no mark has no winner. */
  lemma EmptyBoardHasNoWinner(board: Board, size: nat)
    requires forall i :: 0 <= i < |board| ==> board[i] == Empty
    ensures Winner(board, size) == None
    ensures WinningCombination(board, size) == []
  {
    var lines := WinningLines(size);
    forall j | 0 <= j < |lines| ensures !Complete(board, lines[j]) {
      if |lines[j]| > 0 {
        assert At(board, lines[j][0]) == Empty;
      }
    }
    NoWinnerIffNoCompleteLine(board, size);
  }

  /** Writing `s` into one cell of a board that has no winner can make only `s` win: the
      new complete line must run through the written cell. */
  lemma OnlyMoverCanWin(board: Board, size: nat, position: nat, s: Symbol)
    requires Winner(board, size) == None
    requires position < |board|
    ensures Winner(board[position := Mark(s)], size) in {None, Some(s)}
  {
    var after := board[position := Mark(s)];
    match FirstComplete(after, size)
    case None =>
    case Some(j) =>
      var line := WinningLines(size)[j];
      assert Complete(after, line);
      NoWinnerIffNoCompleteLine(board, size);
      if forall i :: 0 <= i < |line| ==> line[i] != position {
        assert forall i :: 0 <= i < |line| ==> At(board, line[i]) == At(after, line[i]);
        assert false;
      } else {
        var i :| 0 <= i < |line| && line[i] == position;
        assert At(after, line[i]) == Mark(s);
        assert At(after, line[0]) == Mark(s);
      }
  }

  // ---------------------------------------------------------------------------------------
  // Full boards, available moves, valid moves and move application

  /** isBoardFull (gameLogic.js:180-182): no cell is "". */
  predicate IsBoardFull(board: Board) {
    forall i :: 0 <= i < |board| ==> board[i] != Empty
  }

  /** The empty indices below n, in increasing order. */
  function EmptyIndicesBelow(board: Board, n: nat): seq<int>
    requires n <= |board|
  {
    if n == 0 then []
    else EmptyIndicesBelow(board, n - 1) + (if board[n - 1] == Empty then [n - 1] else [])
  }

  /** The value getAvailableMoves computes. */
  function AvailableMoves(board: Board): seq<int> {
    EmptyIndicesBelow(board, |board|)
  }

  lemma {:induction false} EmptyIndicesBelowExact(board: Board, n: nat)
    requires n <= |board|
    ensures forall a, b :: 0 <= a < b < |EmptyIndicesBelow(board, n)| ==>
      EmptyIndicesBelow(board, n)[a] < EmptyIndicesBelow(board, n)[b]
    ensures forall k :: 0 <= k < |EmptyIndicesBelow(board, n)| ==>
      0 <= EmptyIndicesBelow(board, n)[k] < n && board[EmptyIndicesBelow(board, n)[k]] == Empty
    ensures forall i :: 0 <= i < n && board[i] == Empty ==> i in EmptyIndicesBelow(board, n)
  {
    if n > 0 {
      EmptyIndicesBelowExact(board, n - 1);
      var r0 := EmptyIndicesBelow(board, n - 1);
      var tail := if board[n - 1] == Empty then [n - 1] else [];
      var r := r0 + tail;
      assert EmptyIndicesBelow(board, n) == r;
      forall k | 0 <= k < |r| ensures 0 <= r[k] < n && board[r[k]] == Empty {
        if k < |r0| {
          assert r[k] == r0[k];
        } else {
          assert r[k] == tail[k - |r0|];
        }
      }
      forall a, b | 0 <= a < b < |r| ensures r[a] < r[b] {
        if b < |r0| {
          assert r[a] == r0[a] && r[b] == r0[b];
        } else {
          assert r[a] == r0[a];
        }
      }
    }
  }

  /** getAvailableMoves lists exactly the empty indices, each once, in increasing order. */
  lemma AvailableMovesExact(board: Board)
    ensures var moves := AvailableMoves(board);
      (forall a, b :: 0 <= a < b < |moves| ==> moves[a] < moves[b])
      && (forall i :: i in moves <==> 0 <= i < |board| && board[i] == Empty)
  {
    EmptyIndicesBelowExact(board, |board|);
  }

  lemma {:induction false} AllEmptyIndicesBelow(board: Board, n: nat)
    requires n <= |board|
    requires forall i :: 0 <= i < |board| ==> board[i] == Empty
    ensures |EmptyIndicesBelow(board, n)| == n
  {
    if n > 0 {
      AllEmptyIndicesBelow(board, n - 1);
    }
  }

  /** On a board with no mark every cell is an available move. */
  lemma AllEmptyAvailable(board: Board)
    requires forall i :: 0 <= i < |board| ==> board[i] == Empty
    ensures |AvailableMoves(board)| == |board|
  {
    AllEmptyIndicesBelow(board, |board|);
  }

  /** getAvailableMoves (gameLogic.js:189-197). */
  method GetAvailableMoves(board: Board) returns (availableMoves: seq<int>)
    ensures availableMoves == AvailableMoves(board)
  {
    availableMoves := [];
    var i := 0;
    while i < |board|
      invariant 0 <= i <= |board|
      invariant availableMoves == EmptyIndicesBelow(board, i)
    {
      if board[i] == Empty {
        availableMoves := availableMoves + [i];
      }
      i := i + 1;
    }
  }

  /** A board is full exactly when no move is available. */
  lemma FullIffNoAvailableMoves(board: Board)
    ensures IsBoardFull(board) <==> AvailableMoves(board) == []
  {
    AvailableMovesExact(board);
    var moves := AvailableMoves(board);
    if !IsBoardFull(board) {
      var i :| 0 <= i < |board| && board[i] == Empty;
      assert i in moves;
    }
    if moves != [] {
      assert moves[0] in moves;
    }
  }

  /** isValidMove (gameLogic.js:205-207). */
  predicate IsValidMove(board: Board, position: int) {
    0 <= position < |board| && board[position] == Empty
  }

  /** A move is valid exactly when getAvailableMoves lists it. */
  lemma ValidIffAvailable(board: Board, position: int)
    ensures IsValidMove(board, position) <==> position in AvailableMoves(board)
  {
    AvailableMovesExact(board);
  }

  /** makeMove (gameLogic.js:216-224): an invalid position throws "Invalid move"; a valid
      one yields a copy of the board with `player` written at `position` and every other
      cell as it was. */
  function MakeMove(board: Board, position: int, player: Symbol): (r: Result<Board, string>)
    ensures r.Failure? <==> !IsValidMove(board, position)
    ensures r.Failure? ==> r.error == "Invalid move"
    ensures r.Success? ==> |r.value| == |board| && r.value[position] == Mark(player)
    ensures r.Success? ==> forall i :: 0 <= i < |board| && i != position ==> r.value[i] == board[i]
  {
    if !IsValidMove(board, position) then Failure("Invalid move")
    else Success(board[position := Mark(player)])
  }

  lemma {:induction false} EmptyIndicesAfterWrite(board: Board, position: nat, s: Symbol, n: nat)
    requires position < |board| && board[position] == Empty && n <= |board|
    ensures EmptyIndicesBelow(board[position := Mark(s)], n) == Without(EmptyIndicesBelow(board, n), position)
  {
    if n > 0 {
      EmptyIndicesAfterWrite(board, position, s, n - 1);
      WithoutAppend(EmptyIndicesBelow(board, n - 1), if board[n - 1] == Empty then [n - 1] else [], position);
    }
  }

  lemma {:induction false} WithoutAppend(a: seq<int>, b: seq<int>, x: int)
    ensures Without(a + b, x) == Without(a, x) + Without(b, x)
  {
    if |a| > 0 {
      assert (a + b)[1..] == a[1..] + b;
      WithoutAppend(a[1..], b, x);
    } else {
      assert a + b == b;
    }
  }

  /** A valid move takes exactly its position out of the available moves. */
  lemma MoveConsumesPosition(board: Board, position: int, player: Symbol)
    requires IsValidMove(board, position)
    ensures AvailableMoves(MakeMove(board, position, player).value)
      == Without(AvailableMoves(board), position)
    ensures |AvailableMoves(MakeMove(board, position, player).value)| == |AvailableMoves(board)| - 1
  {
    EmptyIndicesAfterWrite(board, position, player, |board|);
    AvailableMovesExact(board);
    CountWithoutMember(AvailableMoves(board), position);
  }

  lemma {:induction false} CountWithoutMember(s: seq<int>, x: int)
    requires x in s
    requires forall a, b :: 0 <= a < b < |s| ==> s[a] < s[b]
    ensures |Without(s, x)| == |s| - 1
  {
    if s[0] == x {
      assert x !in s[1..];
      WithoutAbsent(s[1..], x);
    } else {
      CountWithoutMember(s[1..], x);
    }
  }

  lemma {:induction false} WithoutAbsent(s: seq<int>, x: int)
    requires x !in s
    ensures Without(s, x) == s
  {
    if |s| > 0 {
      WithoutAbsent(s[1..], x);
    }
  }

  // ---------------------------------------------------------------------------------------
  // getGameState

  datatype BoardStatus = BoardPlaying | BoardFinished | BoardDraw

  datatype GameState = GameState(
    status: BoardStatus,
    winner: Option<Symbol>,
    isFull: bool,
    availableMoves: seq<int>,
    winningCombination: seq<int>)

  /** getGameState (gameLogic.js:232-251). */
  method GetGameState(board: Board, size: nat) returns (state: GameState)
    ensures state.winner == Winner(board, size)
    ensures state.isFull == IsBoardFull(board)
    ensures state.availableMoves == AvailableMoves(board)
    ensures state.status == BoardFinished <==> state.winner.Some?
    ensures state.status == BoardDraw <==> state.winner.None? && state.isFull
    ensures state.status == BoardPlaying <==> state.winner.None? && state.availableMoves != []
    ensures state.winningCombination == WinningCombination(board, size)
    ensures state.winner.None? ==> state.winningCombination == []
  {
    var winner := CheckWinner(board, size);
    var isFull := IsBoardFull(board);
    var availableMoves := GetAvailableMoves(board);
    FullIffNoAvailableMoves(board);
    var status := BoardPlaying;
    if winner.Some? {
      status := BoardFinished;
    } else if isFull {
      status := BoardDraw;
    }
    var combination := [];
    if winner.Some? {
      combination := GetWinningCombination(board, size);
    }
    CombinationMatchesWinner(board, size);
    state := GameState(status, winner, isFull, availableMoves, combination);
  }

  // ---------------------------------------------------------------------------------------
  // Coordinates

  datatype Coords = Coords(row: int, col: int)

  /** JavaScript's `a % b`: the remainder takes the sign of the dividend. */
  function JsRemainder(a: int, b: int): (r: int)
    requires b > 0
    ensures a >= 0 ==> 0 <= r < b && r == a % b
    ensures a < 0 ==> -b < r <= 0 && r == -((-a) % b)
  {
    if a >= 0 then a % b else -((-a) % b)
  }

  /** positionToCoords (gameLogic.js:372-377): `Math.floor(position / size)` and
      `position % size`. */
  function PositionToCoords(position: int, size: nat): (c: Coords)
    requires size > 0
    ensures position >= 0 ==> c.row * size + c.col == position && 0 <= c.col < size && c.row >= 0
    ensures position < 0 ==> c.row < 0 && 0 < c.col + size && c.col <= 0
  {
    Coords(position / size, JsRemainder(position, size))
  }

  /** coordsToPosition (gameLogic.js:386-388). */
  function CoordsToPosition(row: int, col: int, size: nat): (p: int)
    ensures 0 <= row < size && 0 <= col < size ==> 0 <= p < size * size
  {
    var p := row * size + col;
    assert 0 <= row < size && 0 <= col < size ==> 0 <= p < size * size by {
      if 0 <= row < size && 0 <= col < size {
        CellOnBoard(row, col, size);
      }
    }
    p
  }

  /** a * b grows with a. */
  lemma {:induction false} MulMonotone(a: nat, b: nat, size: nat)
    requires a <= b
    ensures a * size <= b * size
    decreases b - a
  {
    if a < b {
      MulMonotone(a + 1, b, size);
      assert (a + 1) * size == a * size + size;
    }
  }

  /** A cell on the board has an index on the board. */
  lemma CellOnBoard(row: nat, col: nat, size: nat)
    requires row < size && col < size
    ensures row * size + col < size * size
  {
    MulMonotone(row, size - 1, size);
    assert (size - 1) * size == size * size - size;
  }

  /** q * size + r with 0 <= r < size determines q and r. */
  lemma DivModUnique(p: int, size: nat, q: int, r: int)
    requires size > 0 && 0 <= r < size && p == q * size + r
    ensures p / size == q && p % size == r
  {
    var q', r' := p / size, p % size;
    assert q' * size + r' == q * size + r;
    if q' > q {
      MulMonotone(1, q' - q, size);
    } else if q' < q {
      MulMonotone(1, q - q', size);
    }
  }

  /** A negative multiple of size is at most minus size, and a multiple of at least size
      copies is at least size * size. */
  lemma QuotientRange(q: int, size: nat)
    requires size > 0
    ensures q < 0 ==> q * size + size <= 0
    ensures q >= size ==> q * size >= size * size
  {
    if q < 0 {
      MulMonotone(1, -q, size);
      assert (-q) * size == -(q * size);
    } else if q >= size {
      MulMonotone(size, q, size);
    }
  }

  /** For every index on the board, the two conversions are inverse and the coordinates
      lie on the board. */
  lemma CoordsRoundTrip(position: int, size: nat)
    requires size > 0 && 0 <= position < size * size
    ensures var c := PositionToCoords(position, size);
      CoordsToPosition(c.row, c.col, size) == position
      && 0 <= c.row < size && 0 <= c.col < size
  {
    var q, r := position / size, position % size;
    assert position == q * size + r && 0 <= r < size;
    QuotientRange(q, size);
    assert 0 <= q < size;
  }

  /** And the other way round, for every cell of the board. */
  lemma PositionRoundTrip(row: int, col: int, size: nat)
    requires 0 <= row < size && 0 <= col < size
    ensures 0 <= CoordsToPosition(row, col, size) < size * size
    ensures PositionToCoords(CoordsToPosition(row, col, size), size) == Coords(row, col)
  {
    CellOnBoard(row, col, size);
    DivModUnique(CoordsToPosition(row, col, size), size, row, col);
  }

  // ---------------------------------------------------------------------------------------
  // generateWinningCombinations

  /** generateWinningCombinations (gameLogic.js:395-431). */
  method GenerateWinningCombinations(size: nat) returns (combinations: seq<seq<int>>)
    ensures combinations == WinningLines(size)
  {
    combinations := [];
    var row := 0;
    while row < size
      invariant 0 <= row <= size
      invariant |combinations| == row
      invariant forall j :: 0 <= j < row ==> combinations[j] == Line(size, KindAt(size, j))
    {
      var combination := [];
      var col := 0;
      while col < size
        invariant 0 <= col <= size
        invariant |combination| == col
        invariant forall i :: 0 <= i < col ==> combination[i] == CellIndex(size, RowLine(row), i)
      {
        combination := combination + [row * size + col];
        col := col + 1;
      }
      assert combination == Line(size, KindAt(size, row));
      combinations := combinations + [combination];
      row := row + 1;
    }
    var col := 0;
    while col < size
      invariant 0 <= col <= size
      invariant |combinations| == size + col
      invariant forall j :: 0 <= j < size + col ==> combinations[j] == Line(size, KindAt(size, j))
    {
      var combination := [];
      var row := 0;
      while row < size
        invariant 0 <= row <= size
        invariant |combination| == row
        invariant forall i :: 0 <= i < row ==> combination[i] == CellIndex(size, ColumnLine(col), i)
      {
        combination := combination + [row * size + col];
        row := row + 1;
      }
      assert combination == Line(size, KindAt(size, size + col));
      combinations := combinations + [combination];
      col := col + 1;
    }
    var mainDiagonal := [];
    var i := 0;
    while i < size
      invariant 0 <= i <= size
      invariant |mainDiagonal| == i
      invariant forall k :: 0 <= k < i ==> mainDiagonal[k] == CellIndex(size, MainDiagonalLine, k)
    {
      mainDiagonal := mainDiagonal + [i * size + i];
      i := i + 1;
    }
    assert mainDiagonal == Line(size, KindAt(size, 2 * size));
    combinations := combinations + [mainDiagonal];
    var antiDiagonal := [];
    i := 0;
    while i < size
      invariant 0 <= i <= size
      invariant |antiDiagonal| == i
      invariant forall k :: 0 <= k < i ==> antiDiagonal[k] == CellIndex(size, AntiDiagonalLine, k)
    {
      antiDiagonal := antiDiagonal + [i * size + (size - 1 - i)];
      i := i + 1;
    }
    assert antiDiagonal == Line(size, KindAt(size, 2 * size + 1));
    combinations := combinations + [antiDiagonal];
  }

  /** The i-th cell of the j-th line in scan order lies on the board. */
  lemma LineCellOnBoard(size: nat, j: nat, i: nat)
    requires j < 2 * size + 2 && i < size
    ensures 0 <= CellIndex(size, KindAt(size, j), i) < size * size
  {
    match KindAt(size, j)
    case RowLine(r) => CellOnBoard(r, i, size);
    case ColumnLine(c) => CellOnBoard(i, c, size);
    case MainDiagonalLine => CellOnBoard(i, i, size);
    case AntiDiagonalLine => CellOnBoard(i, size - 1 - i, size);
  }

  /** There are 2 * size + 2 winning lines, each of `size` indices on the board. */
  lemma WinningLinesOnBoard(size: nat)
    ensures forall j, i :: (0 <= j < |WinningLines(size)| && 0 <= i < |WinningLines(size)[j]|
                            ==> 0 <= WinningLines(size)[j][i] < size * size)
  {
    var lines := WinningLines(size);
    forall j, i | 0 <= j < |lines| && 0 <= i < |lines[j]|
      ensures 0 <= lines[j][i] < size * size
    {
      assert lines[j][i] == CellIndex(size, KindAt(size, j), i);
      LineCellOnBoard(size, j, i);
    }
  }
}
