/** The persisted game document of backend/models/Game.js: its schema enums and
    defaults, and the two methods that update a document in place. */
module GameDocument {
  import opened Wrappers
  import opened BoardEngine

  /** gameStatus: 'waiting' | 'playing' | 'finished'. */
  datatype GameStatus = Waiting | Playing | Finished

  /** winner: 'X' | 'O' | 'draw' | null. */
  datatype Outcome = NoWinner | WonBy(symbol: Symbol) | Draw

  /** One entry of `moves`; the timestamp is left out. */
  datatype MoveRecord = MoveRecord(player: Symbol, position: int)

  /** One entry of `players`; a guest is stored with a null userId. */
  datatype StoredPlayer = StoredPlayer(userId: Option<string>, username: string, symbol: Symbol, isGuest: bool)

  /** A document as a route reads it from the collection. */
  datatype GameRecord = GameRecord(
    roomId: string,
    players: seq<StoredPlayer>,
    boardSize: nat,
    board: Board,
    currentPlayer: Symbol,
    gameStatus: GameStatus,
    winner: Outcome,
    winningCombination: seq<int>,
    moves: seq<MoveRecord>,
    isPrivate: bool)

  /** The `enum: [3, 4, 5]` validator on boardSize, which `save` enforces. */
  predicate ValidBoardSize(n: int) {
    n == 3 || n == 4 || n == 5
  }

  /** A board, move log and turn that agree: the board has boardSize² cells, every
      recorded move holds its mark on the board, the empty cells and the moves together
      account for every cell, and it is X's turn exactly after an even number of moves. */
  predicate ConsistentState(boardSize: nat, board: Board, moves: seq<MoveRecord>, currentPlayer: Symbol) {
    |board| == boardSize * boardSize
    && |moves| + |AvailableMoves(board)| == |board|
    && (currentPlayer == X <==> |moves| % 2 == 0)
    && forall k :: 0 <= k < |moves| ==>
         0 <= moves[k].position < |board| && board[moves[k].position] == Mark(moves[k].player)
  }

  /** An accepted move keeps a consistent document consistent. */
  lemma MoveKeepsConsistent(boardSize: nat, board: Board, moves: seq<MoveRecord>, position: int, player: Symbol)
    requires ConsistentState(boardSize, board, moves, player) && IsValidMove(board, position)
    ensures ConsistentState(boardSize, board[position := Mark(player)], moves + [MoveRecord(player, position)], Other(player))
  {
    var board' := board[position := Mark(player)];
    var moves' := moves + [MoveRecord(player, position)];
    assert MakeMove(board, position, player).value == board';
    MoveConsumesPosition(board, position, player);
    assert |moves'| + |AvailableMoves(board')| == |board'|;
    MovesStayOnBoard(board, moves, position, player);
  }

  /** The recorded moves keep their marks when an empty cell is written, and the new move's
      mark is there too. */
  lemma MovesStayOnBoard(board: Board, moves: seq<MoveRecord>, position: int, player: Symbol)
    requires IsValidMove(board, position)
    requires forall k :: 0 <= k < |moves| ==>
      0 <= moves[k].position < |board| && board[moves[k].position] == Mark(moves[k].player)
    ensures var board', moves' := board[position := Mark(player)], moves + [MoveRecord(player, position)];
      forall k :: 0 <= k < |moves'| ==>
        0 <= moves'[k].position < |board'| && board'[moves'[k].position] == Mark(moves'[k].player)
  {
    var board', moves' := board[position := Mark(player)], moves + [MoveRecord(player, position)];
    forall k | 0 <= k < |moves'|
      ensures 0 <= moves'[k].position < |board'| && board'[moves'[k].position] == Mark(moves'[k].player)
    {
      if k < |moves| {
        assert moves'[k] == moves[k];
        assert moves[k].position != position;
      }
    }
  }

  class Game {
    var roomId: string
    var players: seq<StoredPlayer>
    var boardSize: nat
    var board: Board
    var currentPlayer: Symbol
    var gameStatus: GameStatus
    var winner: Outcome
    var winningCombination: seq<int>
    var moves: seq<MoveRecord>
    var isPrivate: bool

    /** `new Game({...})` with the given fields; the rest take the schema defaults
        (currentPlayer 'X', gameStatus 'waiting', winner null, empty arrays). */
    constructor (roomId: string, players: seq<StoredPlayer>, boardSize: nat, isPrivate: bool)
      ensures this.roomId == roomId && this.players == players
      ensures this.boardSize == boardSize && this.isPrivate == isPrivate
      ensures board == [] && moves == [] && winningCombination == []
      ensures currentPlayer == X && gameStatus == Waiting && winner == NoWinner
    {
      this.roomId := roomId;
      this.players := players;
      this.boardSize := boardSize;
      this.isPrivate := isPrivate;
      board := [];
      moves := [];
      winningCombination := [];
      currentPlayer := X;
      gameStatus := Waiting;
      winner := NoWinner;
    }

    /** The document's board, move log and turn agree (see ConsistentState). */
    predicate Consistent()
      reads this
    {
      ConsistentState(boardSize, board, moves, currentPlayer)
    }

    /** initializeBoard (Game.js:69-72): boardSize² empty cells. */
    method InitializeBoard()
      modifies this
      ensures board == EmptyBoard(boardSize)
      ensures roomId == old(roomId) && players == old(players) && boardSize == old(boardSize)
      ensures currentPlayer == old(currentPlayer) && gameStatus == old(gameStatus)
      ensures winner == old(winner) && winningCombination == old(winningCombination)
      ensures moves == old(moves) && isPrivate == old(isPrivate)
      ensures moves == [] && currentPlayer == X ==> Consistent()
    {
      board := EmptyBoard(boardSize);
      AllEmptyAvailable(board);
    }

    /** makeMove (Game.js:74-86): accepted exactly when the cell holds '' and it is
        `player`'s turn; an accepted move writes the mark, logs the move and passes the
        turn; a refused one changes nothing. */
    method MakeMove(position: int, player: Symbol) returns (ok: bool)
      modifies this
      ensures ok <==> IsValidMove(old(board), position) && old(currentPlayer) == player
      ensures ok ==> (board == old(board)[position := Mark(player)]
                      && moves == old(moves) + [MoveRecord(player, position)]
                      && currentPlayer == Other(player))
      ensures !ok ==> board == old(board) && moves == old(moves) && currentPlayer == old(currentPlayer)
      ensures roomId == old(roomId) && players == old(players) && boardSize == old(boardSize)
      ensures gameStatus == old(gameStatus) && winner == old(winner)
      ensures winningCombination == old(winningCombination) && isPrivate == old(isPrivate)
      ensures old(Consistent()) ==> Consistent()
    {
      if IsValidMove(board, position) && currentPlayer == player {
        if Consistent() {
          MoveKeepsConsistent(boardSize, board, moves, position, player);
        }
        board := board[position := Mark(player)];
        moves := moves + [MoveRecord(player, position)];
        currentPlayer := if player == X then O else X;
        return true;
      }
      return false;
    }
  }
}
