/** The in-memory room and matchmaking state of backend/socket/gameSocket.js: the
    `activeGames` map (with its insertion order, which the disconnect handler iterates),
    the `matchmakingQueue` array, and the registered users' statistics records that the
    handlers update. Every socket handler is one method; what it emits is returned as a
    sequence of events. */
module RoomCoordinator {
  import opened Wrappers
  import opened Lists
  import opened BoardEngine
  import opened GameDocument
  import opened PlayerStats

  type RoomId = string
  type SocketId = string

  /** What a socket carries after `authenticate` or `authenticate_guest`: userId is None
      (`undefined`) until the socket authenticates. */
  datatype Session = Session(socketId: SocketId, userId: Option<string>, username: string, isGuest: bool)

  /** A player's userId as the handlers hold it: undefined, null (a guest read back from
      the database), a string set from a socket, or an ObjectId read back from the
      database. */
  datatype UserRef = Undefined | Null | Id(value: string) | StoredId(value: string)

  datatype Player = Player(
    userId: UserRef,
    username: string,
    symbol: Symbol,
    socketId: Option<SocketId>,
    isGuest: bool,
    disconnected: bool)

  /** One entry of `activeGames`; rematchRequests None means the property is unset. */
  datatype Room = Room(
    roomId: RoomId,
    boardSize: nat,
    isPrivate: bool,
    players: seq<Player>,
    board: Board,
    currentPlayer: Symbol,
    status: GameStatus,
    winner: Outcome,
    winningCombination: seq<int>,
    moves: seq<MoveRecord>,
    forfeitedBy: Option<UserRef>,
    rematchRequests: Option<set<string>>)

  /** One entry of `matchmakingQueue`. */
  datatype Ticket = Ticket(socketId: SocketId, userId: Option<string>, username: string, boardSize: nat, isGuest: bool)

  /** What a handler emits, to the caller or to the room. */
  datatype Event =
    | Error(message: string)
    | RoomCreated(roomId: RoomId, room: Room)
    | RoomJoined(roomId: RoomId, room: Room)
    | PlayerReconnected(username: string)
    | GameStarted(room: Room)
    | PlayerJoined(username: string, playersCount: nat)
    | MoveMade(room: Room, symbol: Symbol, position: int, username: string)
    | GameFinished(winner: Outcome, winningCombination: Option<seq<int>>)
    | MatchFound(roomId: RoomId, room: Room)
    | Queued(queuePosition: nat)
    | MatchmakingCancelled
    | ReconnectedToGame(room: Room)
    | GameForfeited(forfeitedBy: string, winnerSymbol: Symbol)
    | RematchStarted(roomId: RoomId, room: Room)
    | RematchRequested(requesterId: UserRef, requesterName: string, responder: Option<Player>)
    | RematchAccepted(accepterId: Option<string>, accepterName: string)
    | RematchDeclined(declinerId: Option<string>, declinerName: string)

  // ---------------------------------------------------------------------------------------
  // Identities

  function RefOf(userId: Option<string>): UserRef {
    match userId
    case None => Undefined
    case Some(v) => Id(v)
  }

  /** `p.userId === socket.userId` as written: undefined equals undefined and strings
      compare by value, but null and an ObjectId object are never strictly equal to the
      socket's value. */
  predicate StrictlyEqual(r: UserRef, userId: Option<string>) {
    match r
    case Undefined => userId.None?
    case Null => false
    case Id(v) => userId == Some(v)
    case StoredId(_) => false
  }

  /** The seat lookup as written in join_room, make_move and reconnect_game. */
  function FindUserAsWritten(players: seq<Player>, userId: Option<string>): Option<nat> {
    FirstIndex(players, (p: Player) => StrictlyEqual(p.userId, userId))
  }

  /** The comparison the handlers evidently intend: a stored ObjectId names the user whose
      id string it holds. */
  predicate SameUser(r: UserRef, userId: Option<string>) {
    match r
    case Undefined => userId.None?
    case Null => false
    case Id(v) => userId == Some(v)
    case StoredId(v) => userId == Some(v)
  }

  /** The two comparisons differ only on ids read back from the database. */
  lemma SameUserExtendsStrictlyEqual(r: UserRef, userId: Option<string>)
    ensures StrictlyEqual(r, userId) ==> SameUser(r, userId)
    ensures !r.StoredId? ==> (StrictlyEqual(r, userId) <==> SameUser(r, userId))
  {
  }

  /** The property name a userId becomes in `rematchRequests[userId]`. */
  function Key(r: UserRef): string {
    match r
    case Undefined => "undefined"
    case Null => "null"
    case Id(v) => v
    case StoredId(v) => v
  }

  /** `player.userId && !player.isGuest`: the player whose statistics are kept. */
  predicate Registered(p: Player) {
    ((p.userId.Id? && p.userId.value != "") || p.userId.StoredId?) && !p.isGuest
  }

  /** `forfeitedBy === player.userId` where forfeitedBy is the userId of players[j]. */
  predicate SameRefAt(players: seq<Player>, i: nat, j: nat)
    requires i < |players| && j < |players|
  {
    i == j || (players[i].userId == players[j].userId && !players[i].userId.StoredId?)
  }

  /** The seat lookup the handlers intend: `findIndex` with the comparison of SameUser,
      under which a restored seat is found (RestoredSeatFound). */
  function FindUser(players: seq<Player>, userId: Option<string>): Option<nat> {
    FirstIndex(players, (p: Player) => SameUser(p.userId, userId))
  }

  /** `players.findIndex(p => p.socketId === socket.id)`. */
  function FindSocket(players: seq<Player>, socketId: SocketId): Option<nat> {
    FirstIndex(players, (p: Player) => p.socketId == Some(socketId))
  }

  /** `players.find(p => p.socketId !== socket.id)`. */
  function FindOtherSocket(players: seq<Player>, socketId: SocketId): Option<nat> {
    FirstIndex(players, (p: Player) => p.socketId != Some(socketId))
  }

  /** On seats that were never read back from the database, the lookup as written and
      the intended one find the same seat. */
  lemma {:induction false} LookupsAgreeInMemory(players: seq<Player>, userId: Option<string>)
    requires forall k :: 0 <= k < |players| ==> !players[k].userId.StoredId?
    ensures FindUserAsWritten(players, userId) == FindUser(players, userId)
  {
    forall k | 0 <= k < |players|
      ensures StrictlyEqual(players[k].userId, userId) == SameUser(players[k].userId, userId)
    {
      SameUserExtendsStrictlyEqual(players[k].userId, userId);
    }
    var strict := (p: Player) => StrictlyEqual(p.userId, userId);
    match FindUser(players, userId)
    case None =>
      FirstIndexNone(players, strict);
    case Some(i) =>
      FirstIndexIs(players, strict, i);
  }

  /** `matchmakingQueue.findIndex(p => p.socketId === socket.id)`. */
  function FindTicket(queue: seq<Ticket>, socketId: SocketId): Option<nat> {
    FirstIndex(queue, (t: Ticket) => t.socketId == socketId)
  }

  /** `matchmakingQueue.findIndex(p => p.boardSize === boardSize)`. */
  function FindSize(queue: seq<Ticket>, boardSize: nat): Option<nat> {
    FirstIndex(queue, (t: Ticket) => t.boardSize == boardSize)
  }

  // ---------------------------------------------------------------------------------------
  // Rooms

  /** A room in which play is consistent: the board has boardSize² cells, a room in play
      has no winner on its board, and only a finished room has a result. */
  predicate Healthy(r: Room) {
    |r.board| == r.boardSize * r.boardSize
    && (r.status == Playing ==> Winner(r.board, r.boardSize) == None)
    && (r.status != Finished ==> r.winner == NoWinner)
  }

  /** A freshly started room: empty board, X to move, no moves, in play. */
  function NewRoom(roomId: RoomId, boardSize: nat, isPrivate: bool, players: seq<Player>, status: GameStatus): (r: Room)
    ensures Healthy(r)
    ensures r.players == players && r.status == status
    ensures r.roomId == roomId && r.boardSize == boardSize && r.isPrivate == isPrivate
    ensures |r.board| == boardSize * boardSize && forall i :: 0 <= i < |r.board| ==> r.board[i] == Empty
    ensures r.currentPlayer == X && r.moves == [] && r.winner == NoWinner && r.winningCombination == []
    ensures r.forfeitedBy.None? && r.rematchRequests.None?
  {
    var board := EmptyBoard(boardSize);
    EmptyBoardHasNoWinner(board, boardSize);
    Room(roomId, boardSize, isPrivate, players, board, X, status, NoWinner, [], [], None, None)
  }

  /** `{ ...dbGame.toObject(), sockets: [] }`: a stored document as a room. Its players
      have no socketId, and their userIds are ObjectIds, or null for guests. */
  function Restore(rec: GameRecord): (r: Room)
    ensures r.roomId == rec.roomId && r.boardSize == rec.boardSize && r.board == rec.board
    ensures r.currentPlayer == rec.currentPlayer && r.status == rec.gameStatus && r.moves == rec.moves
    ensures r.rematchRequests.None?
    ensures |r.players| == |rec.players|
    ensures forall k :: 0 <= k < |r.players| ==>
      var p := r.players[k];
      p.socketId.None? && !p.disconnected
      && p.username == rec.players[k].username && p.symbol == rec.players[k].symbol && p.isGuest == rec.players[k].isGuest
      && p.userId == (if rec.players[k].userId.Some? then StoredId(rec.players[k].userId.value) else Null)
  {
    Room(rec.roomId, rec.boardSize, rec.isPrivate,
      seq(|rec.players|, k requires 0 <= k < |rec.players| =>
        var p := rec.players[k];
        Player(if p.userId.Some? then StoredId(p.userId.value) else Null, p.username, p.symbol, None, p.isGuest, false)),
      rec.board, rec.currentPlayer, rec.gameStatus, rec.winner, rec.winningCombination, rec.moves, None, None)
  }

  /** As written, no caller ever finds a seat in a room restored from the database: its
      userIds are ObjectIds or null, and neither is strictly equal to what a socket
      holds. */
  lemma {:induction false} RestoredSeatsNeverFoundAsWritten(rec: GameRecord, userId: Option<string>)
    ensures FindUserAsWritten(Restore(rec).players, userId) == None
  {
    var players := Restore(rec).players;
    forall j | 0 <= j < |players|
      ensures !StrictlyEqual(players[j].userId, userId)
    {
      assert players[j].userId.StoredId? || players[j].userId.Null?;
    }
    FirstIndexNone(players, (p: Player) => StrictlyEqual(p.userId, userId));
  }

  /** With the intended comparison, a registered player of a stored game finds a seat of
      theirs in the restored room. */
  lemma {:induction false} RestoredSeatFound(rec: GameRecord, k: nat, v: string)
    requires k < |rec.players| && rec.players[k].userId == Some(v)
    ensures FindUser(Restore(rec).players, Some(v)).Some?
    ensures var i := FindUser(Restore(rec).players, Some(v)).value;
      i <= k && rec.players[i].userId == Some(v)
  {
    var players := Restore(rec).players;
    assert SameUser(players[k].userId, Some(v));
    var r := FindUser(players, Some(v));
    assert SameUser(players[r.value].userId, Some(v));
  }

  /** The room found in memory, or else the stored document. */
  function Lookup(games: map<RoomId, Room>, roomId: RoomId, stored: Option<GameRecord>): Room
    requires roomId in games || stored.Some?
  {
    if roomId in games then games[roomId] else Restore(stored.value)
  }

  /** The key order of a JavaScript Map after `set(roomId, ...)`: a new key goes last, an
      existing one keeps its place. */
  function Insert(order: seq<RoomId>, games: map<RoomId, Room>, roomId: RoomId): seq<RoomId> {
    if roomId in games then order else order + [roomId]
  }

  /** The seat re-bound to a new socket. */
  function Rebind(r: Room, i: nat, session: Session): Room
    requires i < |r.players|
  {
    r.(players := r.players[i := r.players[i].(socketId := Some(session.socketId), disconnected := false)])
  }

  /** The rematch room: the same players with their symbols swapped, a fresh board. */
  function RematchRoom(old_: Room, newRoomId: RoomId): (r: Room)
    ensures Healthy(r) && |r.players| == |old_.players|
    ensures forall k :: 0 <= k < |r.players| ==>
      r.players[k] == old_.players[k].(symbol := Other(old_.players[k].symbol))
    ensures r.roomId == newRoomId && r.boardSize == old_.boardSize && !r.isPrivate && r.status == Playing
    ensures |r.board| == r.boardSize * r.boardSize && forall i :: 0 <= i < |r.board| ==> r.board[i] == Empty
    ensures r.currentPlayer == X && r.moves == [] && r.winner == NoWinner && r.winningCombination == []
  {
    NewRoom(newRoomId, old_.boardSize, false,
      seq(|old_.players|, k requires 0 <= k < |old_.players| =>
        old_.players[k].(symbol := Other(old_.players[k].symbol))),
      Playing)
  }

  /** Every player of the room has voted. */
  predicate AllVoted(players: seq<Player>, votes: set<string>) {
    forall k :: 0 <= k < |players| ==> Key(players[k].userId) in votes
  }

  /** `some(p => !p.isGuest)`. */
  predicate HasRegisteredPlayer(players: seq<Player>) {
    exists k :: 0 <= k < |players| && !players[k].isGuest
  }

  /** The position in `order` of the first room (in Map order) with a seat bound to the
      socket. */
  function RoomWithSocket(order: seq<RoomId>, games: map<RoomId, Room>, socketId: SocketId): Option<nat> {
    FirstIndex(order, (id: RoomId) => HoldsSocket(games, socketId, id))
  }

  /** The room `id` is active and has a seat bound to the socket. */
  predicate HoldsSocket(games: map<RoomId, Room>, socketId: SocketId, id: RoomId) {
    id in games && FindSocket(games[id].players, socketId).Some?
  }

  // ---------------------------------------------------------------------------------------
  // updatePlayerStats

  /** The users' records after updatePlayerStats has visited the first n players; the
      forfeiter, if any, is given by its seat. */
  function StatsAfter(users: map<string, Stats>, players: seq<Player>, winner: Outcome, forfeiter: Option<nat>, n: nat): map<string, Stats>
    requires n <= |players|
  {
    if n == 0 then users
    else
      var before := StatsAfter(users, players, winner, forfeiter, n - 1);
      var p := players[n - 1];
      if Registered(p) && p.userId.value in before then
        before[p.userId.value := Record(before[p.userId.value], winner, p.symbol, Forfeited(players, forfeiter, n - 1))]
      else before
  }

  /** Whether seat i is counted as the forfeiter. */
  predicate Forfeited(players: seq<Player>, forfeiter: Option<nat>, i: nat)
    requires i < |players|
  {
    forfeiter.Some? && forfeiter.value < |players| && SameRefAt(players, forfeiter.value, i)
  }

  /** Seat i is a registered seat of user u. */
  predicate SeatOf(players: seq<Player>, i: nat, u: string)
    requires i < |players|
  {
    Registered(players[i]) && players[i].userId.value == u
  }

  /** No user appears or disappears. */
  lemma {:induction false} StatsAfterKeys(users: map<string, Stats>, players: seq<Player>, winner: Outcome, forfeiter: Option<nat>, n: nat)
    requires n <= |players|
    ensures StatsAfter(users, players, winner, forfeiter, n).Keys == users.Keys
  {
    if n > 0 {
      StatsAfterKeys(users, players, winner, forfeiter, n - 1);
    }
  }

  /** A user who holds no registered seat (a guest, an unknown id) is untouched. */
  lemma {:induction false} StatsAfterUntouched(users: map<string, Stats>, players: seq<Player>, winner: Outcome, forfeiter: Option<nat>, n: nat, u: string)
    requires n <= |players| && u in users
    requires forall k :: 0 <= k < n ==> !SeatOf(players, k, u)
    ensures u in StatsAfter(users, players, winner, forfeiter, n)
    ensures StatsAfter(users, players, winner, forfeiter, n)[u] == users[u]
  {
    if n > 0 {
      assert !SeatOf(players, n - 1, u);
      StatsAfterUntouched(users, players, winner, forfeiter, n - 1, u);
    }
  }

  /** A user who holds exactly one registered seat gets exactly one game recorded: a win,
      a loss or a draw for that seat's symbol, and a forfeit only for the forfeiter. */
  lemma {:induction false} StatsAfterOnce(users: map<string, Stats>, players: seq<Player>, winner: Outcome, forfeiter: Option<nat>, n: nat, u: string, i: nat)
    requires i < n <= |players| && u in users
    requires SeatOf(players, i, u)
    requires forall k :: 0 <= k < n && k != i ==> !SeatOf(players, k, u)
    ensures u in StatsAfter(users, players, winner, forfeiter, n)
    ensures StatsAfter(users, players, winner, forfeiter, n)[u]
      == Record(users[u], winner, players[i].symbol, Forfeited(players, forfeiter, i))
  {
    if n - 1 == i {
      StatsAfterUntouched(users, players, winner, forfeiter, n - 1, u);
    } else {
      assert !SeatOf(players, n - 1, u);
      StatsAfterOnce(users, players, winner, forfeiter, n - 1, u, i);
    }
  }

  /** The room after an accepted move: the mark is written and logged, and then a win
      finishes it with the winner and its line, a full board finishes it as a draw, and
      otherwise the turn passes. Only the mover can have won. */
  method PlayMove(room: Room, symbol: Symbol, position: int) returns (after: Room)
    requires IsValidMove(room.board, position)
    ensures var board := room.board[position := Mark(symbol)];
      var moved := room.(board := board, moves := room.moves + [MoveRecord(symbol, position)]);
      (Winner(board, room.boardSize).Some? ==>
         after == moved.(status := Finished, winner := WonBy(Winner(board, room.boardSize).value),
                         winningCombination := WinningCombination(board, room.boardSize)))
      && (Winner(board, room.boardSize).None? && IsBoardFull(board) ==>
         after == moved.(status := Finished, winner := Draw))
      && (Winner(board, room.boardSize).None? && !IsBoardFull(board) ==>
         after == moved.(currentPlayer := Other(symbol)))
    ensures Healthy(room) && room.status == Playing ==>
      Healthy(after) && (after.winner.WonBy? ==> after.winner.symbol == symbol)
  {
    after := room.(board := room.board[position := Mark(symbol)]);
    after := after.(moves := after.moves + [MoveRecord(symbol, position)]);
    var winner := CheckWinner(after.board, after.boardSize);
    if winner.Some? {
      var combination := GetWinningCombination(after.board, after.boardSize);
      after := after.(status := Finished, winner := WonBy(winner.value), winningCombination := combination);
    } else if IsBoardFull(after.board) {
      after := after.(status := Finished, winner := Draw);
    } else {
      after := after.(currentPlayer := if symbol == X then O else X);
    }
    if Healthy(room) && room.status == Playing {
      OnlyMoverCanWin(room.board, room.boardSize, position, symbol);
    }
  }

  // ---------------------------------------------------------------------------------------
  // The coordinator

  class Coordinator {
    /** `activeGames`. */
    var activeGames: map<RoomId, Room>
    /** The key order of `activeGames`. */
    var order: seq<RoomId>
    /** `matchmakingQueue`. */
    var queue: seq<Ticket>
    /** The stats of the registered users, by id. */
    var users: map<string, Stats>

    /** The key order lists every room once, and no socket holds two tickets. */
    predicate Valid()
      reads this
    {
      (forall id :: id in activeGames ==> id in order) && (forall id :: id in order ==> id in activeGames)
      && Distinct(order)
      && forall a, b :: 0 <= a < b < |queue| ==> queue[a].socketId != queue[b].socketId
    }

    /** Empty map and queue. */
    constructor (users: map<string, Stats>)
      ensures Valid()
      ensures activeGames == map[] && order == [] && queue == [] && this.users == users
    {
      activeGames := map[];
      order := [];
      queue := [];
      this.users := users;
    }

    /** `activeGames.set(roomId, room)`. */
    method Put(roomId: RoomId, room: Room)
      requires Valid()
      modifies this
      ensures Valid()
      ensures activeGames == old(activeGames)[roomId := room]
      ensures order == Insert(old(order), old(activeGames), roomId)
      ensures queue == old(queue) && users == old(users)
    {
      order := Insert(order, activeGames, roomId);
      activeGames := activeGames[roomId := room];
    }

    /** `activeGames.delete(roomId)`. */
    method Remove(roomId: RoomId)
      requires Valid()
      modifies this
      ensures Valid()
      ensures activeGames == old(activeGames) - {roomId}
      ensures order == Without(old(order), roomId)
      ensures queue == old(queue) && users == old(users)
    {
      WithoutKeepsDistinct(order, roomId);
      order := Without(order, roomId);
      activeGames := activeGames - {roomId};
    }

    /** updatePlayerStats (gameSocket.js:740-779): one pass over the players; a registered
        player whose user exists gets the game recorded. */
    method UpdatePlayerStats(players: seq<Player>, winner: Outcome, forfeiter: Option<nat>)
      modifies this
      ensures users == StatsAfter(old(users), players, winner, forfeiter, |players|)
      ensures activeGames == old(activeGames) && order == old(order) && queue == old(queue)
    {
      var i := 0;
      while i < |players|
        invariant 0 <= i <= |players|
        invariant users == StatsAfter(old(users), players, winner, forfeiter, i)
        invariant activeGames == old(activeGames) && order == old(order) && queue == old(queue)
      {
        var player := players[i];
        if Registered(player) {
          var id := player.userId.value;
          if id in users {
            var forfeited := forfeiter.Some? && forfeiter.value < |players| && SameRefAt(players, forfeiter.value, i);
            users := users[id := Record(users[id], winner, player.symbol, forfeited)];
          }
        }
        i := i + 1;
      }
    }

    /** create_room (gameSocket.js:50-105). A socket that is not a guest also saves the
        document, whose boardSize validator rejects sizes other than 3, 4 and 5. A size
        or privacy flag left out defaults to 3 and false. */
    method CreateRoom(session: Session, requestedSize: Option<nat>, requestedPrivate: Option<bool>, newRoomId: RoomId)
      returns (events: seq<Event>)
      requires Valid() && newRoomId !in activeGames
      modifies this
      ensures Valid()
      ensures queue == old(queue) && users == old(users)
      ensures var boardSize := UnwrapOr(requestedSize, 3);
        !session.isGuest && !ValidBoardSize(boardSize) ==>
          events == [Error("Failed to create room")] && activeGames == old(activeGames) && order == old(order)
      ensures var boardSize := UnwrapOr(requestedSize, 3);
        session.isGuest || ValidBoardSize(boardSize) ==>
          var room := NewRoom(newRoomId, boardSize, UnwrapOr(requestedPrivate, false),
            [Player(RefOf(session.userId), session.username, X, Some(session.socketId), session.isGuest, false)], Waiting);
          activeGames == old(activeGames)[newRoomId := room] && order == old(order) + [newRoomId]
          && events == [RoomCreated(newRoomId, room)]
    {
      var boardSize := UnwrapOr(requestedSize, 3);
      var isPrivate := UnwrapOr(requestedPrivate, false);
      if !session.isGuest && !ValidBoardSize(boardSize) {
        return [Error("Failed to create room")];
      }
      var creator := Player(RefOf(session.userId), session.username, X, Some(session.socketId), session.isGuest, false);
      var room := NewRoom(newRoomId, boardSize, isPrivate, [creator], Waiting);
      Put(newRoomId, room);
      return [RoomCreated(newRoomId, room)];
    }

    /** join_room (gameSocket.js:108-194). A room missing from memory is restored from the
        stored document and kept even when the join then fails. A full room is refused
        before the reconnection check; a user whose seat holds a strictly equal userId
        (FindUserAsWritten) is re-bound to this socket; anyone else, including the
        creator of a room restored from the database, joins as O, and the game starts when the second seat fills. */
    method JoinRoom(session: Session, roomId: RoomId, stored: Option<GameRecord>) returns (events: seq<Event>)
      requires Valid()
      requires stored.Some? ==> stored.value.roomId == roomId
      modifies this
      ensures Valid()
      ensures queue == old(queue) && users == old(users)
      ensures roomId !in old(activeGames) && stored.None? ==>
        events == [Error("Room not found")] && activeGames == old(activeGames) && order == old(order)
      ensures roomId in old(activeGames) || stored.Some? ==>
        order == Insert(old(order), old(activeGames), roomId)
      ensures roomId in old(activeGames) || stored.Some? ==>
        var room := Lookup(old(activeGames), roomId, stored);
        |room.players| >= 2 ==>
          events == [Error("Room is full")] && activeGames == old(activeGames)[roomId := room]
      ensures roomId in old(activeGames) || stored.Some? ==>
        var room := Lookup(old(activeGames), roomId, stored);
        |room.players| < 2 && FindUserAsWritten(room.players, session.userId).Some? ==>
          var after := Rebind(room, FindUserAsWritten(room.players, session.userId).value, session);
          activeGames == old(activeGames)[roomId := after]
          && events == [RoomJoined(roomId, after), PlayerReconnected(session.username)]
      ensures roomId in old(activeGames) || stored.Some? ==>
        var room := Lookup(old(activeGames), roomId, stored);
        |room.players| < 2 && FindUserAsWritten(room.players, session.userId).None? ==>
          var players := room.players + [Player(RefOf(session.userId), session.username, O, Some(session.socketId), session.isGuest, false)];
          var after := room.(players := players, status := if |players| == 2 then Playing else room.status);
          activeGames == old(activeGames)[roomId := after]
          && events == [RoomJoined(roomId, after)]
             + (if after.status == Playing then [GameStarted(after)] else [PlayerJoined(session.username, |players|)])
    {
      if roomId !in activeGames && stored.None? {
        return [Error("Room not found")];
      }
      var room := Lookup(activeGames, roomId, stored);
      if |room.players| >= 2 {
        Put(roomId, room);
        return [Error("Room is full")];
      }
      var existing := FindUserAsWritten(room.players, session.userId);
      if existing.Some? {
        room := Rebind(room, existing.value, session);
        events := [RoomJoined(roomId, room), PlayerReconnected(session.username)];
      } else {
        var players := room.players + [Player(RefOf(session.userId), session.username, O, Some(session.socketId), session.isGuest, false)];
        room := room.(players := players);
        if |players| == 2 {
          room := room.(status := Playing);
        }
        events := [RoomJoined(roomId, room)];
        if room.status == Playing {
          events := events + [GameStarted(room)];
        } else {
          events := events + [PlayerJoined(session.username, |players|)];
        }
      }
      Put(roomId, room);
    }

    /** make_move (gameSocket.js:197-296). Refused with no change when the room is missing
        or not in play, when the caller's seat (found by `===` on userId, FindUserAsWritten) does not hold the symbol
        to move, or when the cell is not "" (which covers indices off the board). Otherwise
        the mark is written and the move logged, and then exactly one of: a win (finished,
        the winner and its line, stats recorded), a draw (the board is full, stats
        recorded), or the turn passes. */
    method MakeMove(session: Session, roomId: RoomId, position: int) returns (events: seq<Event>)
      requires Valid()
      modifies this
      ensures Valid()
      ensures queue == old(queue) && order == old(order)
      ensures roomId !in old(activeGames) || old(activeGames)[roomId].status != Playing ==>
        events == [Error("Invalid game state")] && activeGames == old(activeGames) && users == old(users)
      ensures roomId in old(activeGames) && old(activeGames)[roomId].status == Playing ==>
        var room := old(activeGames)[roomId];
        var seat := FindUserAsWritten(room.players, session.userId);
        (seat.None? || room.players[seat.value].symbol != room.currentPlayer) ==>
          events == [Error("Not your turn")] && activeGames == old(activeGames) && users == old(users)
      ensures roomId in old(activeGames) && old(activeGames)[roomId].status == Playing ==>
        var room := old(activeGames)[roomId];
        var seat := FindUserAsWritten(room.players, session.userId);
        seat.Some? && room.players[seat.value].symbol == room.currentPlayer && !IsValidMove(room.board, position) ==>
          events == [Error("Invalid move")] && activeGames == old(activeGames) && users == old(users)
      ensures roomId in old(activeGames) && old(activeGames)[roomId].status == Playing ==>
        var room := old(activeGames)[roomId];
        var seat := FindUserAsWritten(room.players, session.userId);
        seat.Some? && room.players[seat.value].symbol == room.currentPlayer && IsValidMove(room.board, position) ==>
          var player := room.players[seat.value];
          var board := room.board[position := Mark(player.symbol)];
          var moved := room.(board := board, moves := room.moves + [MoveRecord(player.symbol, position)]);
          roomId in activeGames && activeGames == old(activeGames)[roomId := activeGames[roomId]]
          && var after := activeGames[roomId];
          (Winner(board, room.boardSize).Some? ==>
             after == moved.(status := Finished, winner := WonBy(Winner(board, room.boardSize).value),
                             winningCombination := WinningCombination(board, room.boardSize))
             && users == StatsAfter(old(users), room.players, after.winner, None, |room.players|))
          && (Winner(board, room.boardSize).None? && IsBoardFull(board) ==>
             after == moved.(status := Finished, winner := Draw)
             && users == StatsAfter(old(users), room.players, Draw, None, |room.players|))
          && (Winner(board, room.boardSize).None? && !IsBoardFull(board) ==>
             after == moved.(currentPlayer := Other(player.symbol)) && users == old(users))
          && events == [MoveMade(after, player.symbol, position, player.username)]
             + (if after.status == Finished then [GameFinished(after.winner, Some(after.winningCombination))] else [])
          && (Healthy(room) ==> Healthy(after) && (after.winner.WonBy? ==> after.winner.symbol == player.symbol))
    {
      if roomId !in activeGames || activeGames[roomId].status != Playing {
        return [Error("Invalid game state")];
      }
      var room := activeGames[roomId];
      var seat := FindUserAsWritten(room.players, session.userId);
      if seat.None? || room.players[seat.value].symbol != room.currentPlayer {
        return [Error("Not your turn")];
      }
      var player := room.players[seat.value];
      if !IsValidMove(room.board, position) {
        return [Error("Invalid move")];
      }
      room := PlayMove(room, player.symbol, position);
      if room.status == Finished {
        UpdatePlayerStats(room.players, room.winner, None);
      }
      Put(roomId, room);
      events := [MoveMade(room, player.symbol, position, player.username)];
      if room.status == Finished {
        events := events + [GameFinished(room.winner, Some(room.winningCombination))];
      }
    }

    /** find_match (gameSocket.js:299-392). The board size defaults to 3 when the request
        carries none. A socket already queued is refused. Otherwise
        the first ticket for the same board size is taken out of the queue and paired: its
        holder plays X, the caller O, and the room starts in play. When either is
        registered the document is saved, and a board size other than 3, 4 or 5 then fails
        after the ticket has already left the queue. With no ticket to pair, the caller is
        queued and told the length of the whole queue. */
    method FindMatch(session: Session, requestedSize: Option<nat>, newRoomId: RoomId) returns (events: seq<Event>)
      requires Valid() && newRoomId !in activeGames
      modifies this
      ensures Valid()
      ensures users == old(users)
      ensures FindTicket(old(queue), session.socketId).Some? ==>
        events == [Error("Already in queue")] && queue == old(queue)
        && activeGames == old(activeGames) && order == old(order)
      ensures FindTicket(old(queue), session.socketId).None? && FindSize(old(queue), UnwrapOr(requestedSize, 3)).Some? ==>
        var i := FindSize(old(queue), UnwrapOr(requestedSize, 3)).value;
        var opponent := old(queue)[i];
        queue == RemoveAt(old(queue), i)
        && if (!session.isGuest || !opponent.isGuest) && !ValidBoardSize(UnwrapOr(requestedSize, 3)) then
             events == [Error("Matchmaking failed")] && activeGames == old(activeGames) && order == old(order)
           else
             var room := NewRoom(newRoomId, UnwrapOr(requestedSize, 3), false,
               [Player(RefOf(opponent.userId), opponent.username, X, Some(opponent.socketId), opponent.isGuest, false),
                Player(RefOf(session.userId), session.username, O, Some(session.socketId), session.isGuest, false)],
               Playing);
             activeGames == old(activeGames)[newRoomId := room] && order == old(order) + [newRoomId]
             && events == [MatchFound(newRoomId, room)]
      ensures FindTicket(old(queue), session.socketId).None? && FindSize(old(queue), UnwrapOr(requestedSize, 3)).None? ==>
        queue == old(queue) + [Ticket(session.socketId, session.userId, session.username, UnwrapOr(requestedSize, 3), session.isGuest)]
        && events == [Queued(|queue|)] && activeGames == old(activeGames) && order == old(order)
    {
      if FindTicket(queue, session.socketId).Some? {
        return [Error("Already in queue")];
      }
      var boardSize := UnwrapOr(requestedSize, 3);
      var matchIndex := FindSize(queue, boardSize);
      if matchIndex.Some? {
        var opponent := queue[matchIndex.value];
        DropTicket(matchIndex.value);
        if (!session.isGuest || !opponent.isGuest) && !ValidBoardSize(boardSize) {
          return [Error("Matchmaking failed")];
        }
        var room := NewRoom(newRoomId, boardSize, false,
          [Player(RefOf(opponent.userId), opponent.username, X, Some(opponent.socketId), opponent.isGuest, false),
           Player(RefOf(session.userId), session.username, O, Some(session.socketId), session.isGuest, false)],
          Playing);
        Put(newRoomId, room);
        return [MatchFound(newRoomId, room)];
      }
      queue := queue + [Ticket(session.socketId, session.userId, session.username, boardSize, session.isGuest)];
      return [Queued(|queue|)];
    }

    /** `matchmakingQueue.splice(i, 1)`. */
    method DropTicket(i: nat)
      requires Valid() && i < |queue|
      modifies this
      ensures Valid()
      ensures queue == RemoveAt(old(queue), i)
      ensures activeGames == old(activeGames) && order == old(order) && users == old(users)
    {
      ghost var q := queue;
      queue := RemoveAt(queue, i);
      forall a, b | 0 <= a < b < |queue| ensures queue[a].socketId != queue[b].socketId {
        var a' := if a < i then a else a + 1;
        var b' := if b < i then b else b + 1;
        assert queue[a] == q[a'] && queue[b] == q[b'];
      }
    }

    /** cancel_matchmaking (gameSocket.js:395-401): only this socket's ticket leaves. */
    method CancelMatchmaking(session: Session) returns (events: seq<Event>)
      requires Valid()
      modifies this
      ensures Valid()
      ensures activeGames == old(activeGames) && order == old(order) && users == old(users)
      ensures FindTicket(old(queue), session.socketId).None? ==> queue == old(queue) && events == []
      ensures FindTicket(old(queue), session.socketId).Some? ==>
        queue == RemoveAt(old(queue), FindTicket(old(queue), session.socketId).value)
        && events == [MatchmakingCancelled]
      ensures forall t :: t in queue <==> t in old(queue) && t.socketId != session.socketId
    {
      var index := FindTicket(queue, session.socketId);
      events := [];
      if index.Some? {
        ghost var q := queue;
        DropTicket(index.value);
        events := [MatchmakingCancelled];
        forall t ensures t in queue <==> t in q && t.socketId != session.socketId {
          if t in q && t.socketId == session.socketId {
            var k :| 0 <= k < |q| && q[k] == t;
            assert k == index.value;
          }
        }
      }
    }

    /** reconnect_game (gameSocket.js:416-459): a room missing from memory is restored
        and kept; the caller's seat, found by `===` on userId (FindUserAsWritten), is re-bound to
        this socket; a caller with no such seat is refused, which, as written, is every
        caller of a restored room (RestoredSeatsNeverFoundAsWritten). */
    method ReconnectGame(session: Session, roomId: RoomId, stored: Option<GameRecord>) returns (events: seq<Event>)
      requires Valid()
      requires stored.Some? ==> stored.value.roomId == roomId
      modifies this
      ensures Valid()
      ensures queue == old(queue) && users == old(users)
      ensures roomId !in old(activeGames) && stored.None? ==>
        events == [Error("Game not found")] && activeGames == old(activeGames) && order == old(order)
      ensures roomId in old(activeGames) || stored.Some? ==>
        order == Insert(old(order), old(activeGames), roomId)
      ensures roomId in old(activeGames) || stored.Some? ==>
        var room := Lookup(old(activeGames), roomId, stored);
        match FindUserAsWritten(room.players, session.userId)
        case None =>
          events == [Error("Not authorized to rejoin this game")] && activeGames == old(activeGames)[roomId := room]
        case Some(i) =>
          var after := Rebind(room, i, session);
          activeGames == old(activeGames)[roomId := after]
          && events == [ReconnectedToGame(after), PlayerReconnected(session.username)]
    {
      if roomId !in activeGames && stored.None? {
        return [Error("Game not found")];
      }
      var room := Lookup(activeGames, roomId, stored);
      var playerIndex := FindUserAsWritten(room.players, session.userId);
      if playerIndex.None? {
        Put(roomId, room);
        return [Error("Not authorized to rejoin this game")];
      }
      room := Rebind(room, playerIndex.value, session);
      Put(roomId, room);
      events := [ReconnectedToGame(room), PlayerReconnected(session.username)];
    }

    /** disconnect (gameSocket.js:462-503): the socket's ticket leaves the queue, and in
        the first room (in Map order) with a seat bound to the socket that seat is marked
        disconnected; every other room is left alone. */
    method Disconnect(session: Session)
      requires Valid()
      modifies this
      ensures Valid()
      ensures order == old(order) && users == old(users)
      ensures FindTicket(old(queue), session.socketId).None? ==> queue == old(queue)
      ensures FindTicket(old(queue), session.socketId).Some? ==>
        queue == RemoveAt(old(queue), FindTicket(old(queue), session.socketId).value)
      ensures RoomWithSocket(old(order), old(activeGames), session.socketId).None? ==>
        activeGames == old(activeGames)
      ensures RoomWithSocket(old(order), old(activeGames), session.socketId).Some? ==>
        var id := old(order)[RoomWithSocket(old(order), old(activeGames), session.socketId).value];
        var room := old(activeGames)[id];
        var i := FindSocket(room.players, session.socketId).value;
        activeGames == old(activeGames)[id := room.(players := room.players[i := room.players[i].(disconnected := true)])]
    {
      var queueIndex := FindTicket(queue, session.socketId);
      if queueIndex.Some? {
        DropTicket(queueIndex.value);
      }
      var k := 0;
      while k < |order|
        invariant 0 <= k <= |order|
        invariant Valid()
        invariant order == old(order) && activeGames == old(activeGames) && users == old(users)
        invariant queueIndex.None? ==> queue == old(queue)
        invariant queueIndex.Some? ==> queue == RemoveAt(old(queue), queueIndex.value)
        invariant forall j :: 0 <= j < k ==> !HoldsSocket(activeGames, session.socketId, order[j])
      {
        var id := order[k];
        var room := activeGames[id];
        var playerIndex := FindSocket(room.players, session.socketId);
        if playerIndex.Some? {
          FirstIndexIs(order, (id: RoomId) => HoldsSocket(old(activeGames), session.socketId, id), k);
          var i := playerIndex.value;
          activeGames := activeGames[id := room.(players := room.players[i := room.players[i].(disconnected := true)])];
          return;
        }
        k := k + 1;
      }
      FirstIndexNone(order, (id: RoomId) => HoldsSocket(old(activeGames), session.socketId, id));
    }

    /** forfeit_game (gameSocket.js:506-551): only a room in play, only a caller with a
        seat bound to this socket. The room is marked finished first; the opponent is the
        first seat bound to another socket. When there is one, it wins, the forfeiter is
        recorded and the stats count the forfeit; when there is none, the handler fails
        with the room left finished and undecided. */
    method ForfeitGame(session: Session, roomId: RoomId) returns (events: seq<Event>)
      requires Valid()
      modifies this
      ensures Valid()
      ensures queue == old(queue) && order == old(order)
      ensures roomId !in old(activeGames) || old(activeGames)[roomId].status != Playing ==>
        events == [Error("Cannot forfeit this game")] && activeGames == old(activeGames) && users == old(users)
      ensures roomId in old(activeGames) && old(activeGames)[roomId].status == Playing ==>
        var room := old(activeGames)[roomId];
        match FindSocket(room.players, session.socketId)
        case None =>
          events == [Error("You are not a player in this game")] && activeGames == old(activeGames) && users == old(users)
        case Some(j) =>
          match FindOtherSocket(room.players, session.socketId)
          case None =>
            events == [Error("Failed to forfeit game")] && users == old(users)
            && activeGames == old(activeGames)[roomId := room.(status := Finished)]
          case Some(k) =>
            var winner := room.players[k].symbol;
            var after := room.(status := Finished, winner := WonBy(winner), forfeitedBy := Some(room.players[j].userId));
            activeGames == old(activeGames)[roomId := after]
            && users == StatsAfter(old(users), room.players, WonBy(winner), Some(j), |room.players|)
            && events == [GameForfeited(room.players[j].username, winner), GameFinished(WonBy(winner), None)]
    {
      if roomId !in activeGames || activeGames[roomId].status != Playing {
        return [Error("Cannot forfeit this game")];
      }
      var room := activeGames[roomId];
      var playerIndex := FindSocket(room.players, session.socketId);
      if playerIndex.None? {
        return [Error("You are not a player in this game")];
      }
      var player := room.players[playerIndex.value];
      var opponentIndex := FindOtherSocket(room.players, session.socketId);
      room := room.(status := Finished);
      if opponentIndex.None? {
        Put(roomId, room);
        return [Error("Failed to forfeit game")];
      }
      var opponent := room.players[opponentIndex.value];
      room := room.(winner := WonBy(opponent.symbol), forfeitedBy := Some(player.userId));
      UpdatePlayerStats(room.players, WonBy(opponent.symbol), playerIndex);
      Put(roomId, room);
      events := [GameForfeited(player.username, opponent.symbol), GameFinished(WonBy(opponent.symbol), None)];
    }

    /** request_rematch (gameSocket.js:554-646): only a finished room, only a caller with a
        seat bound to this socket. The caller's vote is recorded; once every player has
        voted, a rematch room with the symbols swapped replaces the old one (unless its
        save rejects the board size, which leaves only the vote). Until then the room is
        told who asked. */
    method RequestRematch(session: Session, roomId: RoomId, newRoomId: RoomId) returns (events: seq<Event>)
      requires Valid() && newRoomId !in activeGames && newRoomId != roomId
      modifies this
      ensures Valid()
      ensures queue == old(queue) && users == old(users)
      ensures roomId !in old(activeGames) || old(activeGames)[roomId].status != Finished ==>
        events == [Error("Cannot request rematch")] && activeGames == old(activeGames) && order == old(order)
      ensures roomId in old(activeGames) && old(activeGames)[roomId].status == Finished ==>
        var room := old(activeGames)[roomId];
        match FindSocket(room.players, session.socketId)
        case None =>
          events == [Error("You are not a player in this game")] && activeGames == old(activeGames) && order == old(order)
        case Some(j) =>
          var votes := (if room.rematchRequests.Some? then room.rematchRequests.value else {}) + {Key(room.players[j].userId)};
          var voted := room.(rematchRequests := Some(votes));
          if !AllVoted(room.players, votes) then
            activeGames == old(activeGames)[roomId := voted] && order == old(order)
            && events == [RematchRequested(room.players[j].userId, room.players[j].username, Responder(room.players, j))]
          else if HasRegisteredPlayer(room.players) && !ValidBoardSize(room.boardSize) then
            activeGames == old(activeGames)[roomId := voted] && order == old(order)
            && events == [Error("Failed to request rematch")]
          else
            activeGames == old(activeGames)[newRoomId := RematchRoom(room, newRoomId)] - {roomId}
            && order == Without(old(order) + [newRoomId], roomId)
            && events == [RematchStarted(newRoomId, RematchRoom(room, newRoomId))]
    {
      if roomId !in activeGames || activeGames[roomId].status != Finished {
        return [Error("Cannot request rematch")];
      }
      var room := activeGames[roomId];
      var playerIndex := FindSocket(room.players, session.socketId);
      if playerIndex.None? {
        return [Error("You are not a player in this game")];
      }
      var player := room.players[playerIndex.value];
      var votes := if room.rematchRequests.Some? then room.rematchRequests.value else {};
      votes := votes + {Key(player.userId)};
      var voted := room.(rematchRequests := Some(votes));
      if AllVoted(room.players, votes) && !(HasRegisteredPlayer(room.players) && !ValidBoardSize(room.boardSize)) {
        var rematch := StartRematch(room, roomId, newRoomId);
        events := [RematchStarted(newRoomId, rematch)];
      } else {
        Put(roomId, voted);
        if AllVoted(room.players, votes) {
          events := [Error("Failed to request rematch")];
        } else {
          events := [RematchRequested(player.userId, player.username, Responder(room.players, playerIndex.value))];
        }
      }
    }

    /** The rematch room is stored under its new id and the finished room is deleted. */
    method StartRematch(room: Room, roomId: RoomId, newRoomId: RoomId) returns (rematch: Room)
      requires Valid() && newRoomId !in activeGames && newRoomId != roomId
      modifies this
      ensures Valid()
      ensures rematch == RematchRoom(room, newRoomId)
      ensures activeGames == old(activeGames)[newRoomId := rematch] - {roomId}
      ensures order == Without(old(order) + [newRoomId], roomId)
      ensures queue == old(queue) && users == old(users)
    {
      rematch := RematchRoom(room, newRoomId);
      Put(newRoomId, rematch);
      Remove(roomId);
    }

    /** accept_rematch (gameSocket.js:649-719): a room with a vote record (in any status)
        takes this socket's user as a vote; once every player has voted the rematch room
        replaces it. Its save is not awaited, so nothing can fail here. */
    method AcceptRematch(session: Session, roomId: RoomId, newRoomId: RoomId) returns (events: seq<Event>)
      requires Valid() && newRoomId !in activeGames && newRoomId != roomId
      modifies this
      ensures Valid()
      ensures queue == old(queue) && users == old(users)
      ensures roomId !in old(activeGames) || old(activeGames)[roomId].rematchRequests.None? ==>
        events == [] && activeGames == old(activeGames) && order == old(order)
      ensures roomId in old(activeGames) && old(activeGames)[roomId].rematchRequests.Some? ==>
        var room := old(activeGames)[roomId];
        var votes := room.rematchRequests.value + {Key(RefOf(session.userId))};
        if AllVoted(room.players, votes) then
          activeGames == old(activeGames)[newRoomId := RematchRoom(room, newRoomId)] - {roomId}
          && order == Without(old(order) + [newRoomId], roomId)
          && events == [RematchStarted(newRoomId, RematchRoom(room, newRoomId))]
        else
          activeGames == old(activeGames)[roomId := room.(rematchRequests := Some(votes))] && order == old(order)
          && events == [RematchAccepted(session.userId, session.username)]
    {
      if roomId !in activeGames || activeGames[roomId].rematchRequests.None? {
        return [];
      }
      var room := activeGames[roomId];
      var votes := room.rematchRequests.value + {Key(RefOf(session.userId))};
      room := room.(rematchRequests := Some(votes));
      if AllVoted(room.players, votes) {
        var rematch := StartRematch(room, roomId, newRoomId);
        events := [RematchStarted(newRoomId, rematch)];
      } else {
        Put(roomId, room);
        events := [RematchAccepted(session.userId, session.username)];
      }
    }

    /** decline_rematch (gameSocket.js:722-735): the votes are reset to none. */
    method DeclineRematch(session: Session, roomId: RoomId) returns (events: seq<Event>)
      requires Valid()
      modifies this
      ensures Valid()
      ensures queue == old(queue) && users == old(users) && order == old(order)
      ensures roomId !in old(activeGames) ==> events == [] && activeGames == old(activeGames)
      ensures roomId in old(activeGames) ==>
        activeGames == old(activeGames)[roomId := old(activeGames)[roomId].(rematchRequests := Some({}))]
        && events == [RematchDeclined(session.userId, session.username)]
    {
      if roomId !in activeGames {
        return [];
      }
      var room := activeGames[roomId];
      Put(roomId, room.(rematchRequests := Some({})));
      events := [RematchDeclined(session.userId, session.username)];
    }
  }

  /** `players.find(p => p.userId !== player.userId)` for the player in seat j. */
  function Responder(players: seq<Player>, j: nat): Option<Player>
    requires j < |players|
  {
    match FirstIndex(seq(|players|, k requires 0 <= k < |players| => SameRefAt(players, k, j)), (same: bool) => !same)
    case None => None
    case Some(k) => Some(players[k])
  }
}
