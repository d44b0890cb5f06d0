# Tic-tac-toe server core in Dafny

This project models the server-side logic of a multiplayer tic-tac-toe service on N×N boards (N in 3..5). It also models the two account forms of its web client. The pieces are:

- **`board.dfy`, module `BoardEngine`** (`backend/utils/gameLogic.js`): win detection, which scans rows, then columns, then the main diagonal, then the anti-diagonal. It also covers the winning line in that same order, the full-board test, the available moves, move validation, non-mutating move application, index/coordinate conversion and the list of all winning lines.
- **`game_document.dfy`, module `GameDocument`** (`backend/models/Game.js`): the stored game document with its schema enums and defaults. It is a class whose `initializeBoard` and `makeMove` update the document in place.
- **`stats.dfy`, module `PlayerStats`**: a registered user's statistics, and the step that records one finished game.
- **`coordinator.dfy`, module `RoomCoordinator`** (`backend/socket/gameSocket.js`): the `activeGames` map, modelled together with its key order, and the `matchmakingQueue`. They are held in a class `Coordinator`, alongside the stats of registered users. Each socket handler is one atomic method that returns the events it emits.
- **`leaderboard.dfy`, module `Leaderboard`** (`backend/routes/leaderboard.js`): the per-user rows with total games, win rate and rating. It covers the in-place sort with the route's comparator, and the rank as 1 plus the number of strictly better users.
- **`game_routes.dfy`, module `GameRoutes`** (`backend/routes/game.js`):
  - the access check;
  - pagination;
  - the per-user statistics tally;
  - invite codes;
  - the join-private and create-private decisions;
  - the move-by-move replay of a finished game.
- **`auth_routes.dfy`, module `AuthRoutes`** (`backend/routes/auth.js`): the register checks, the guarded profile update, and friends/add, which updates both users.
- **`register_form.dfy` and `profile_form.dfy`** (`frontend/src/components/Auth/Register.jsx`, `frontend/src/components/User/Profile.jsx`): the client-side `validateForm` of each form, and `formatDuration`.
- **`text.dfy` and `wrappers.dfy`**: JavaScript's white-space class and `trim`, the two e-mail patterns, and decimal numerals. They also hold `Option`/`Result` and the `findIndex`/`splice` helpers.

**Modelling choices.**
- I/O is not modelled:
  - Socket emits become a returned `seq<Event>`.
  - Database reads become parameters: a stored document, a user directory, or the result of a lookup.
  - Database writes are dropped. The one exception is where a failing `save` changes the outcome: the `boardSize` enum validator, and the unique index on `roomId`.
- Fresh ids from `uuidv4()` are parameters.
- Where the source has a defect listed under "## Findings", the handler or route is modelled as written, and the intended behaviour is a separate member with its property proved: the seat lookups of join_room, make_move and reconnect_game use `===` (FindUserAsWritten), and GET /:roomId answers 500 to anyone but a player (GetGame).
- A password is always checked against its stored hash, and the result of that check is passed in as a boolean.
- Code written as loops is modelled as methods with loop invariants. Each one is proved to equal a specification function, and the properties are proved as lemmas about that function:
  - the board scans;
  - `getAvailableMoves`;
  - `generateWinningCombinations`;
  - `updatePlayerStats`;
  - the statistics `forEach`;
  - the analysis replay;
  - the leaderboard sort, which works on an `array`.

## Model

| member | source | states |
|---|---|---|
| BoardEngine.Other | backend/utils/gameLogic.js:65 | the other player's symbol differs from the given one |
| BoardEngine.EmptyBoard | backend/models/Game.js:69-72 | size² cells, every one empty |
| BoardEngine.CheckWinner | backend/utils/gameLogic.js:9-87 | the loop scan (rows, columns, diagonal, anti-diagonal, skipping a line whose first cell is empty) returns the owner of the first complete line, i.e. Winner |
| BoardEngine.ScanLine | backend/utils/gameLogic.js:14-26 | one line's loop returns the symbol filling the whole line, or none, with early exit on a mismatch |
| BoardEngine.GetWinningCombination | backend/utils/gameLogic.js:95-173 | the same scan returns the indices of the first complete line, or [] |
| BoardEngine.FirstCompleteFrom | backend/utils/gameLogic.js:9-87 | the index found is a complete line and no earlier line from k is complete; none means no line from k is complete |
| BoardEngine.ScanStep | backend/utils/gameLogic.js:9-173 | when the scan has passed the first j lines, a complete j-th line decides both the winner and the combination, and an incomplete one passes the search to line j + 1; after the last line neither exists |
| BoardEngine.WinnerHasFilledLine | backend/utils/gameLogic.js:9-87 | a reported winner s fills every cell of the first complete line with s |
| BoardEngine.NoWinnerIffNoCompleteLine | backend/utils/gameLogic.js:9-87 | checkWinner returns null exactly when no row, column or diagonal is complete |
| BoardEngine.FilledLineWins | backend/utils/gameLogic.js:9-87 | a line consisting of size copies of one symbol forces a winner |
| BoardEngine.CombinationMatchesWinner | backend/utils/gameLogic.js:95-173 | the combination is non-empty iff there is a winner; it has size cells, each holding the winner, and is the first complete line in scan order |
| BoardEngine.EmptyBoardHasNoWinner | backend/utils/gameLogic.js:9-87 | an empty board has no winner and an empty combination |
| BoardEngine.OnlyMoverCanWin | backend/utils/gameLogic.js:9-87 | writing s into one cell of a board with no winner yields no winner or s |
| BoardEngine.AvailableMovesExact | backend/utils/gameLogic.js:189-197 | the available moves are strictly increasing, each an empty index, and every empty index is listed |
| BoardEngine.GetAvailableMoves | backend/utils/gameLogic.js:189-197 | the loop computes AvailableMoves |
| BoardEngine.AllEmptyAvailable | backend/utils/gameLogic.js:189-197 | on an empty board every cell is available |
| BoardEngine.FullIffNoAvailableMoves | backend/utils/gameLogic.js:180-197 | isBoardFull holds iff no move is available |
| BoardEngine.ValidIffAvailable | backend/utils/gameLogic.js:205-207 | a move is valid (in range and empty) iff it is listed as available |
| BoardEngine.MakeMove | backend/utils/gameLogic.js:216-224 | an invalid position fails with "Invalid move"; otherwise the result has the same length, the player's mark at position and every other cell unchanged |
| BoardEngine.MoveConsumesPosition | backend/utils/gameLogic.js:189-224 | a valid move removes exactly its position from the available moves |
| BoardEngine.GetGameState | backend/utils/gameLogic.js:232-251 | status is finished iff there is a winner, draw iff no winner and full, playing otherwise; winningCombination is [] without a winner |
| BoardEngine.JsRemainder | backend/utils/gameLogic.js:375 | JavaScript's `%`: the remainder has the dividend's sign |
| BoardEngine.PositionToCoords | backend/utils/gameLogic.js:372-377 | for a position from 0 on, row·size + col gives it back and 0 <= col < size; a negative position gets a negative row and a column in (−size, 0], the sign of JavaScript's `%` |
| BoardEngine.CoordsToPosition | backend/utils/gameLogic.js:386-388 | a row and a column below size give an index below size² |
| BoardEngine.CoordsRoundTrip | backend/utils/gameLogic.js:372-388 | for 0 <= p < size², row and col are below size and coordsToPosition gives p back |
| BoardEngine.PositionRoundTrip | backend/utils/gameLogic.js:372-388 | for a cell on the board, positionToCoords inverts coordsToPosition |
| BoardEngine.GenerateWinningCombinations | backend/utils/gameLogic.js:395-431 | the nested loops produce the winning lines in scan order |
| BoardEngine.WinningLinesOnBoard | backend/utils/gameLogic.js:395-431 | 2·size + 2 lines, each of length size, every index below size² |
| BoardEngine.LineCellOnBoard | backend/utils/gameLogic.js:395-431 | each cell index of each line lies below size² |
| GameDocument.ValidBoardSize | backend/models/Game.js:26-30 | the enum validator accepts exactly 3, 4 and 5 |
| GameDocument.Game.constructor | backend/models/Game.js:3-67 | schema defaults: currentPlayer X, status waiting, no winner, no moves |
| GameDocument.Game.InitializeBoard | backend/models/Game.js:69-72 | the board becomes boardSize² empty cells and nothing else changes |
| GameDocument.Game.MakeMove | backend/models/Game.js:74-86 | true iff the cell is '' and the player is to move; then one cell gets the mark, one move record is appended and the turn toggles; on false nothing changes; consistency is preserved |
| GameDocument.MoveKeepsConsistent | backend/models/Game.js:74-86 | an accepted move on a consistent document leaves board, log and turn consistent |
| PlayerStats.Record | backend/socket/gameSocket.js:751-770 | one more game in total, exactly one of draws/wins/losses grows, forfeits grows only for the forfeiter |
| PlayerStats.RecordKeepsTotals | backend/socket/gameSocket.js:751-770 | recording keeps totalGames = wins + losses + draws and grows exactly one of the three |
| RoomCoordinator.RestoredSeatsNeverFoundAsWritten | backend/socket/gameSocket.js:119-135 | with `===` between an ObjectId and a string, no seat of a restored room is ever found |
| RoomCoordinator.RestoredSeatFound | backend/socket/gameSocket.js:119-135 | with the intended comparison, a registered player of a stored game finds a seat at or before their own, holding their id |
| RoomCoordinator.SameUserExtendsStrictlyEqual | backend/socket/gameSocket.js:134-135 | the intended comparison agrees with `===` except on stored ids |
| RoomCoordinator.NewRoom | backend/socket/gameSocket.js:70-86 | the room has the given id, size, privacy, players and status, boardSize² empty cells, X to move, no moves, no winner or winning line, no forfeit and no votes; it is healthy |
| RoomCoordinator.RematchRoom | backend/socket/gameSocket.js:584-596 | the rematch room has the new id, the old size, is public and in play, with each player's symbol swapped, an empty board, X to move and no moves; it is healthy |
| RoomCoordinator.Restore | backend/socket/gameSocket.js:119-124 | the stored board, turn, status and moves are kept; each seat keeps its name, symbol and guest flag, is bound to no socket, and holds its id as an ObjectId, or null |
| RoomCoordinator.LookupsAgreeInMemory | backend/socket/gameSocket.js:134-135 | on seats never read back from the database, the lookup by `===` and the intended lookup find the same seat |
| RoomCoordinator.PlayMove | backend/socket/gameSocket.js:216-247 | after an accepted move the room is either won (finished, the winner and its line), drawn (full board) or passed to the other player; a healthy room in play stays healthy and only the mover can have won |
| RoomCoordinator.StatsAfterKeys | backend/socket/gameSocket.js:740-779 | updatePlayerStats adds or removes no user |
| RoomCoordinator.StatsAfterUntouched | backend/socket/gameSocket.js:740-779 | a user holding no registered seat (guests included) is untouched |
| RoomCoordinator.StatsAfterOnce | backend/socket/gameSocket.js:740-779 | a user holding one registered seat gets exactly one game recorded for their symbol, with a forfeit only if they forfeited |
| RoomCoordinator.Coordinator.constructor | backend/socket/gameSocket.js:8-9 | an empty map and an empty queue |
| RoomCoordinator.Coordinator.Put | backend/socket/gameSocket.js:8 | `activeGames.set`: the map is updated and the key order keeps the old position or appends |
| RoomCoordinator.Coordinator.Remove | backend/socket/gameSocket.js:8 | `activeGames.delete`: the key leaves the map and the order |
| RoomCoordinator.Coordinator.UpdatePlayerStats | backend/socket/gameSocket.js:740-779 | the loop over players leaves the stats equal to StatsAfter over all players |
| RoomCoordinator.Coordinator.CreateRoom | backend/socket/gameSocket.js:50-105 | defaults 3 and false; a registered creator with an invalid size fails with no change; otherwise a waiting room with the creator as X is added |
| RoomCoordinator.Coordinator.JoinRoom | backend/socket/gameSocket.js:108-194 | missing: "Room not found"; a full room is refused before reconnection is tried; a seat whose userId is `===` the caller's is re-bound without duplication; anyone else, the creator of a restored room included, is appended as O and the room plays only at two players |
| RoomCoordinator.Coordinator.MakeMove | backend/socket/gameSocket.js:197-296 | refused with no change unless playing, the mover's turn and a valid cell, the mover's seat being found by `===` on userId; otherwise one mark and one move record, then exactly one of win (stats recorded), draw (stats recorded) or turn toggle; a win is the mover's |
| RoomCoordinator.Coordinator.FindMatch | backend/socket/gameSocket.js:299-392 | the board size defaults to 3; a queued socket is refused; otherwise the first ticket of the same size is removed and a playing room made (holder X, newcomer O); a registered player with an invalid size fails after the removal; without a match a ticket is appended and the queue length reported |
| RoomCoordinator.Coordinator.DropTicket | backend/socket/gameSocket.js:311 | `splice(i, 1)` on the queue, which keeps sockets distinct |
| RoomCoordinator.Coordinator.CancelMatchmaking | backend/socket/gameSocket.js:395-401 | only this socket's ticket leaves the queue |
| RoomCoordinator.Coordinator.ReconnectGame | backend/socket/gameSocket.js:416-459 | missing: "Game not found"; a caller with no seat whose userId is `===` theirs is refused; otherwise that seat is re-bound to the socket |
| RoomCoordinator.Coordinator.Disconnect | backend/socket/gameSocket.js:462-503 | the socket's ticket leaves the queue, and in the first room (in map order) seating the socket that seat is marked disconnected |
| RoomCoordinator.Coordinator.ForfeitGame | backend/socket/gameSocket.js:506-551 | only in a playing room and only by a seated socket; the room finishes with the opponent's symbol as winner, forfeitedBy the forfeiter, and stats with one forfeit |
| RoomCoordinator.Coordinator.RequestRematch | backend/socket/gameSocket.js:554-646 | only a finished room and a seated socket; the vote is recorded; when everyone has voted the rematch room replaces the old one (unless a registered player's save fails) |
| RoomCoordinator.Coordinator.StartRematch | backend/socket/gameSocket.js:590-626 | the swapped room is stored under its new id and the old id is deleted |
| RoomCoordinator.Coordinator.AcceptRematch | backend/socket/gameSocket.js:649-719 | any room with a vote record (no status check) takes the vote and starts the rematch once all have voted |
| RoomCoordinator.Coordinator.DeclineRematch | backend/socket/gameSocket.js:722-735 | the votes are reset to none |
| Leaderboard.ParseFilter | backend/routes/leaderboard.js:10-57 | each filter name selects its mode and anything else is overall |
| Leaderboard.WinRateTenths | backend/routes/leaderboard.js:21-33 | 0 with no games; otherwise the nearest tenth of a percent, at most 100% |
| Leaderboard.RowOf | backend/routes/leaderboard.js:18-39 | totalGames = wins + losses + draws, rating = 3·wins + draws − losses, win rate 0 without games |
| Leaderboard.RowTotalMatchesRecord | backend/routes/leaderboard.js:20 | the row's total equals the recorded total when the record's totals agree |
| Leaderboard.RecordShiftsRating | backend/routes/leaderboard.js:22 | one more win, draw or loss moves the rating by +3, +1 or −1 |
| Leaderboard.CompareIsKeyOrder | backend/routes/leaderboard.js:41-57 | the comparator says a comes first iff it is in a higher tier or the same tier with a score at least as high |
| Leaderboard.AtLeastTransitive | backend/routes/leaderboard.js:41-57 | the comparator's order is transitive |
| Leaderboard.AtLeastTotal | backend/routes/leaderboard.js:41-57 | the comparator's order is total |
| Leaderboard.SortRows | backend/routes/leaderboard.js:41-57 | in place on an array: sorted by the comparator and a permutation of the input |
| Leaderboard.GetLeaderboard | backend/routes/leaderboard.js:8-68 | the limit defaults to 100; the limited users' rows, permuted, with the comparator never positive between earlier and later rows |
| Leaderboard.Limited | backend/routes/leaderboard.js:14 | `limit(0)` means no limit; otherwise the first limit users |
| Leaderboard.WinRateOrder | backend/routes/leaderboard.js:46-51 | after the winRate sort, players with 5 or more games precede the rest, the rest are by wins and the upper tier by rate |
| Leaderboard.MetricOrder | backend/routes/leaderboard.js:41-57 | after the wins, streak or overall sort the metric is non-increasing |
| Leaderboard.Rank | backend/routes/leaderboard.js:83-120 | 1 <= rank <= users + 1 |
| Leaderboard.TiedShareRank | backend/routes/leaderboard.js:83-120 | two records beaten by the same users have the same rank |
| Leaderboard.SameRecordSameRank | backend/routes/leaderboard.js:83-120 | equal records rank equally |
| Leaderboard.BeatsTransitive | backend/routes/leaderboard.js:83-120 | whoever beats a beats anyone a beats |
| Leaderboard.RateAboveTransitive | backend/routes/leaderboard.js:97-112 | comparison of exact win rates is transitive |
| Leaderboard.BetterRanksNoLower | backend/routes/leaderboard.js:83-120 | a better record never ranks below a worse one |
| Leaderboard.GetRank | backend/routes/leaderboard.js:71-134 | an unknown user fails with "User not found"; otherwise 1 plus the count of strictly better users |
| GameRoutes.Participates | backend/routes/game.js:22-28 | true iff the id is found before any null id; false iff every id is present and different |
| GameRoutes.GetGame | backend/routes/game.js:10-34 | 404 when missing; the game itself iff the caller is found among its populated players before a null one; every other answer is 500 "Server error", so no one is ever refused with 403 |
| GameRoutes.GetGameWithSpectators | backend/routes/game.js:10-34 | with spectators in the schema: 404 when missing; 403 exactly for a private game the caller is not in; a public game is returned or fails with 500 on a null id |
| GameRoutes.DeniedOnlyOutsiders | backend/routes/game.js:22-28 | with spectators in the schema, a denial means the game is private and the caller is neither a player nor a spectator |
| GameRoutes.OutsiderGetsServerError | backend/routes/game.js:22-32 | an outsider of a private game whose players all exist gets 500 as written and 403 as intended |
| GameRoutes.Skip | backend/routes/game.js:40 | the query fails iff the skip is negative, that is a page below 1 under a positive limit; a limit of 0 skips nothing; otherwise the skip is a whole number, page − 1, of pages |
| GameRoutes.Pages | backend/routes/game.js:66 | no page count (null) exactly for a limit of 0 |
| GameRoutes.PagesCover | backend/routes/game.js:66 | the page count covers the total with no empty last page |
| GameRoutes.ActiveList | backend/routes/game.js:37-72 | page defaults to 1 and limit to 10, so a bare request gets the first 10 offered games; fails with 500 iff the skip does; otherwise the page holds the offered games from position skip on, in order, min(limit, what is left) of them, or all that is left for a limit of 0 |
| GameRoutes.Window | backend/routes/game.js:54-55 | `.skip(s).limit(l)`: the elements from position s on, in order, at most l of them, all for l = 0 |
| GameRoutes.Offered | backend/routes/game.js:42-49 | a game is listed iff it is waiting, public and, when a size is given (0 included), of that size |
| GameRoutes.OfferedSnoc | backend/routes/game.js:42-56 | the filter keeps the query's order: a game appended to the collection is appended to the offered games exactly when it is waiting, public and of the asked size |
| GameRoutes.OverviewBounds | backend/routes/game.js:110-149 | wins + losses + draws is at most the games played; wins by size sum to at most wins; at most 10 recent games |
| GameRoutes.CountedBounds | backend/routes/game.js:121-149 | one more game keeps those bounds |
| GameRoutes.StatsOverview | backend/routes/game.js:121-243 | the forEach computes OverviewOf |
| GameRoutes.OpponentName | backend/routes/game.js:150-178 | the name shown is never empty, and is "Unknown" when every seat is the user's |
| GameRoutes.CountGame | backend/routes/game.js:121-149 | the forEach body for one game computes Counted |
| GameRoutes.InviteCode | backend/routes/game.js:311 | the first 8 characters of the roomId, upper-cased |
| GameRoutes.InviteCodeIdempotent | backend/routes/game.js:311 | deriving the code of a code gives it back; codes are upper case |
| GameRoutes.FindByCode | backend/routes/game.js:332-347 | the game found is private and waiting; when one has the code as roomId, the first such; otherwise the first whose derived code is the upper-cased input; none iff neither exists |
| GameRoutes.JoinPrivate | backend/routes/game.js:324-377 | rejects in order a missing code, not found, a full game, a requester already in it, then a missing user |
| GameRoutes.CreatePrivate | backend/routes/game.js:268-321 | a custom code of a waiting or playing game is refused, then a missing user; past those, success iff the size is 3, 4 or 5 and the roomId is not stored, and a 500 only for those two causes; success is a private waiting game with exactly one player, X, on an empty board |
| GameRoutes.CreateThenJoin | backend/routes/game.js:268-377 | a second user can join a just-created private game by its code |
| GameRoutes.Replay | backend/routes/game.js:420-431 | replaying moves keeps the board's length |
| GameRoutes.ReplayIsPlay | backend/routes/game.js:420-431 | each replay step is the engine's makeMove |
| GameRoutes.ReplayUntouched | backend/routes/game.js:420-431 | a cell no replayed move writes keeps its start value |
| GameRoutes.ReplayLastWrite | backend/routes/game.js:420-431 | a replayed cell holds the mark of the last move written there |
| GameRoutes.AnalyzeMoves | backend/routes/game.js:420-436 | moveNumber i+1, boardState the empty board with moves 0..i written, and wasWinningMove only for the last move of a game not drawn |
| GameRoutes.Analysis | backend/routes/game.js:380-442 | 404 missing; over the populated players, 500 when a guest seat or a seat whose user is gone comes before the caller's, 403 for a non-player, otherwise one analysis per move, each holding the board replayed up to that move |
| AuthRoutes.Register | backend/routes/auth.js:10-70 | rejects missing fields, a username outside 3..20, a password under 6 and an existing email or username, in that order |
| AuthRoutes.RegisterTwiceRefused | backend/routes/auth.js:34-42 | registering the same form again is refused |
| AuthRoutes.AcceptedUpdate | backend/routes/auth.js:148-200 | an accepted update has a 3..20 username and a matching email, takes no name or address held by another user, and changes a password only with a present, correct current one and a new one of 6 or more |
| AuthRoutes.UpdateProfile | backend/routes/auth.js:137-220 | on an error nothing changes; otherwise username and email are replaced and the password only when a new one is given |
| AuthRoutes.AddFriend | backend/routes/auth.js:239-276 | rejects a missing username, an unknown friend, self and an existing friendship; on success each id is appended to the other's list, keeping the friendship mutual |
| RegisterForm.UsernameError | frontend/src/components/Auth/Register.jsx:25-33 | blank, then shorter than 3, then longer than 20, then outside [A-Za-z0-9_]; none iff all pass |
| RegisterForm.EmailError | frontend/src/components/Auth/Register.jsx:36-40 | blank, then not matching the anchored pattern |
| RegisterForm.PasswordError | frontend/src/components/Auth/Register.jsx:43-47 | required, then at least 6 |
| RegisterForm.ConfirmError | frontend/src/components/Auth/Register.jsx:50-54 | required, then equal to the password |
| RegisterForm.Errors | frontend/src/components/Auth/Register.jsx:21-56 | a field has an entry iff its test fails, holding that test's single message |
| RegisterForm.ValidateForm | frontend/src/components/Auth/Register.jsx:57 | true iff every field passes |
| RegisterForm.AcceptedFormPassesRegister | frontend/src/components/Auth/Register.jsx:21-57 | an accepted form passes all of register's own checks; only an existing user can refuse it |
| ProfileForm.ValidateForm | frontend/src/components/User/Profile.jsx:117-148 | each field's entry and message exactly; password checks only with a new password and independently; true iff no entry, iff FormValid |
| ProfileForm.UsernameChecks | frontend/src/components/User/Profile.jsx:120-126 | blank, then shorter than 3, then longer than 20 |
| ProfileForm.EmailChecks | frontend/src/components/User/Profile.jsx:128-132 | blank, then not matching the loose pattern |
| ProfileForm.PasswordChecks | frontend/src/components/User/Profile.jsx:134-144 | the three independent checks, only with a new password |
| ProfileForm.AcceptedFormPassesUpdate | frontend/src/components/User/Profile.jsx:117-148 | an accepted form passes update-profile's input checks; only taken names or addresses and a wrong current password remain |
| ProfileForm.FormatDuration | frontend/src/components/User/Profile.jsx:202-207 | under a minute, the seconds' digits and "s" ("0s" for 0); from a minute on, the minutes, "m ", the remaining seconds and "s"; an "m" appears iff there is at least a minute |
| ProfileForm.ParseFormatDuration | frontend/src/components/User/Profile.jsx:202-207 | "0s", "<s>s" under a minute and "<s div 60>m <s mod 60>s" from a minute read back as the same number of seconds |
| ProfileForm.FormatDurationInjective | frontend/src/components/User/Profile.jsx:202-207 | two different durations never render alike |
| Text.TrimEmptyIffBlank | frontend/src/components/Auth/Register.jsx:25 | `!s.trim()` holds iff every character is white space |
| Text.StrictEmailIsLoose | frontend/src/components/Auth/Register.jsx:38 | an address the anchored pattern accepts is accepted by the loose one |
| Text.ToUpperIdempotent | backend/routes/game.js:311 | upper-casing twice is upper-casing once |
| Text.ParseNatToString | frontend/src/components/User/Profile.jsx:206 | reading a rendered natural gives it back |

## Left out

- Socket.io transport, JWT verification and the authenticate handlers are not modelled. A session is a given `Session`, and emits are returned events.
- Mongoose persistence is not modelled: save, find, populate, countDocuments, timestamps, finishedAt and durations. Stored documents and users are given values. Only the boardSize enum validator and the unique roomId index are modelled, because they change an outcome.
- bcrypt hashing is not modelled. A password change receives whether the current password matches as a boolean, and the account stores the new password in place of its hash.
- The User schema's trim and lowercase setters, and its length validators and unique indexes on save, are not modelled. UpdateProfile and Register therefore store the submitted strings.
- leave_game, socket.roomId bookkeeping and room membership of sockets are not modelled. They are transport.
- getAIMove and getAIMoveMinimax are not modelled. One uses Math.random and the other uses ±Infinity sentinels.
- The win-rate percentages are floating point:
  - `toFixed(1)` is modelled as round-half-up tenths.
  - The rank's winRate comparison uses exact fractions.
  - getWinRate in Profile.jsx is not modelled.
- Interleaving across `await` points is not modelled: each handler is one atomic step.
- String lengths are counted in Unicode scalar values, not UTF-16 code units. `toUpperCase` is modelled on ASCII letters only.
- Query values that are present are taken as numbers; absent ones take the route's defaults. Non-numeric `limit`, `page` or `boardSize` strings are not modelled, and `parseInt` is not modelled.
- Leaderboard.SortRows: sort stability is not stated. The rows are sorted and permuted, but the order among equal keys is not fixed.
- The User schema has no `totalGames` or `forfeits` stats fields, so the writes of updatePlayerStats to them would not persist. PlayerStats keeps them as the handler computes them.
- Spectators are not a field of the Game schema. GetGame models the route as written, where `game.spectators` is undefined. GetGameWithSpectators takes them as a given list.
- GameRoutes.GetGame: `populate("spectators.userId")` on a path the schema lacks throws under Mongoose's strictPopulate (on by default from Mongoose 6), which would make every request a 500. The Mongoose version is not part of this model, so populate is taken not to throw.
- GameRoutes.Offered: a non-numeric `boardSize` string, which filters on NaN and lists nothing, is not modelled. An absent or empty one is None.
- RoomCoordinator.Restore: a stored guest's null userId and a missing userId are both read back as `Null`.
- GameRoutes.JoinPrivate: the route takes no seat, so neither does the model.
- GameRoutes.AnalyzeMoves requires every recorded position to be on the board, as make_move only records in-range positions. An out-of-range record in the database is not modelled.
- formatDuration is modelled on whole, non-negative seconds. `Math.floor` of a fractional remainder is not modelled.
- The Player and Room records omit `socket.join` and the `sockets` arrays visible in emitted rooms.

## Findings

| source | as written | input that shows it | evidently intended | confidence | as-written member | corrected member |
|---|---|---|---|---|---|---|
| backend/routes/game.js:16-27 | the Game schema has no `spectators` path, so `game.spectators.some` throws whenever the caller is not found among the players, and the catch answers 500 | anyone but a player asks for a game, private or public | a non-player of a private game gets 403, and anyone may see a public game | not executed | GameRoutes.GetGame | GameRoutes.GetGameWithSpectators |
| backend/socket/gameSocket.js:119-135, 207, 423-436 | a room restored from the database keeps each player's userId as an ObjectId (from `toObject()`), and `p.userId === socket.userId` compares it with the socket's string id, which is never strictly equal | a registered player re-joins, moves or reconnects in a room that is no longer in memory | the stored id names the same user as the socket's id string, so the player's seat is found | not executed | RoomCoordinator.RestoredSeatsNeverFoundAsWritten | RoomCoordinator.RestoredSeatFound |
