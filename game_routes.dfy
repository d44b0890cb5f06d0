/** The decisions of backend/routes/game.js once the database queries are given as data:
    the private-game access check, pagination of the public list, the per-user tally of
    finished games, private rooms with invite codes, and the replay of a move log. */
module GameRoutes {
  import opened Wrappers
  import opened Lists
  import opened Text
  import opened BoardEngine
  import opened GameDocument

  /** An HTTP error response. */
  datatype HttpError = HttpError(status: nat, message: string)

  // ---------------------------------------------------------------------------------------
  // GET /:roomId

  /** `ids.some(id => id._id.toString() === me)` over populated ids, where None is a null
      id (a guest's seat, or an id whose user no longer exists); reading `_id` of null
      throws, which the route turns into a 500. The scan stops at the first match. */
  function Participates(ids: seq<Option<string>>, me: string): (r: Option<bool>)
    ensures r == Some(true) <==>
      exists k :: 0 <= k < |ids| && ids[k] == Some(me) && forall j :: 0 <= j < k ==> ids[j].Some?
    ensures r == Some(false) <==> forall k :: 0 <= k < |ids| ==> ids[k].Some? && ids[k] != Some(me)
  {
    if |ids| == 0 then Some(false)
    else if ids[0].None? then None
    else if ids[0] == Some(me) then Some(true)
    else
      var r := Participates(ids[1..], me);
      assert forall k :: 1 <= k < |ids| ==> ids[k] == ids[1..][k - 1];
      r
  }

  /** `populate("players.userId")`: a stored id whose user exists (in `users`) becomes
      that user; a null id, or one whose user is gone, becomes null. */
  function PopulatedIds(players: seq<StoredPlayer>, users: set<string>): (ids: seq<Option<string>>)
    ensures |ids| == |players|
    ensures forall k :: 0 <= k < |players| ==>
      ids[k] == if players[k].userId.Some? && players[k].userId.value in users then players[k].userId else None
  {
    seq(|players|, k requires 0 <= k < |players| =>
      if players[k].userId.Some? && players[k].userId.value in users then players[k].userId else None)
  }

  /** GET /:roomId as written: 404 for a missing game. The schema has no `spectators`
      path, so `game.spectators` is undefined and its `some` throws whenever the players'
      check is not already true: a player of the game gets it, and everyone else, on a
      private or a public game, gets a 500. The 403 is never answered. */
  function GetGame(game: Option<GameRecord>, users: set<string>, me: string): (r: Result<GameRecord, HttpError>)
    ensures game.None? ==> r == Failure(HttpError(404, "Game not found"))
    ensures game.Some? ==> (r == Success(game.value) <==> Participates(PopulatedIds(game.value.players, users), me) == Some(true))
    ensures game.Some? && r.Failure? ==> r.error == HttpError(500, "Server error")
  {
    if game.None? then Failure(HttpError(404, "Game not found"))
    else if Participates(PopulatedIds(game.value.players, users), me) == Some(true) then Success(game.value)
    else Failure(HttpError(500, "Server error"))
  }

  /** GET /:roomId as evidently intended, with the game's populated spectator ids given:
      404 for a missing game; a private game is shown only to its players and
      spectators. */
  function GetGameWithSpectators(game: Option<GameRecord>, users: set<string>, spectators: seq<Option<string>>, me: string): (r: Result<GameRecord, HttpError>)
    ensures game.None? ==> r == Failure(HttpError(404, "Game not found"))
    ensures game.Some? && r.Success? ==> r.value == game.value
    ensures game.Some? ==>
      var ids := PopulatedIds(game.value.players, users) + spectators;
      (r == Failure(HttpError(403, "Access denied")) <==> Participates(ids, me) == Some(false) && game.value.isPrivate)
    ensures game.Some? && !game.value.isPrivate ==> r.Success? || r == Failure(HttpError(500, "Server error"))
  {
    if game.None? then Failure(HttpError(404, "Game not found"))
    else
      match Participates(PopulatedIds(game.value.players, users) + spectators, me)
      case None => Failure(HttpError(500, "Server error"))
      case Some(isParticipant) =>
        if !isParticipant && game.value.isPrivate then Failure(HttpError(403, "Access denied"))
        else Success(game.value)
  }

  /** With the spectators in place, access is denied only to a private game, and only to
      someone listed neither as a player nor as a spectator. */
  lemma DeniedOnlyOutsiders(game: GameRecord, users: set<string>, spectators: seq<Option<string>>, me: string)
    requires GetGameWithSpectators(Some(game), users, spectators, me) == Failure(HttpError(403, "Access denied"))
    ensures game.isPrivate
    ensures forall k :: 0 <= k < |game.players| ==> game.players[k].userId != Some(me)
    ensures forall k :: 0 <= k < |spectators| ==> spectators[k] != Some(me)
  {
    var ids := PopulatedIds(game.players, users) + spectators;
    forall k | 0 <= k < |game.players|
      ensures game.players[k].userId != Some(me)
    {
      assert ids[k] == PopulatedIds(game.players, users)[k];
    }
    assert forall k :: 0 <= k < |spectators| ==> ids[|game.players| + k] == spectators[k];
  }

  /** The outsider of a private game whose players all exist: as written the route
      answers 500, where the intended one answers 403. */
  lemma {:induction false} OutsiderGetsServerError(game: GameRecord, users: set<string>, me: string)
    requires game.isPrivate
    requires forall k :: 0 <= k < |game.players| ==>
      game.players[k].userId.Some? && game.players[k].userId.value in users && game.players[k].userId != Some(me)
    ensures GetGame(Some(game), users, me) == Failure(HttpError(500, "Server error"))
    ensures GetGameWithSpectators(Some(game), users, [], me) == Failure(HttpError(403, "Access denied"))
  {
    var ids := PopulatedIds(game.players, users);
    assert ids + [] == ids;
    assert forall k :: 0 <= k < |ids| ==> ids[k] == game.players[k].userId;
  }

  function PlayerIds(players: seq<StoredPlayer>): (ids: seq<Option<string>>)
    ensures |ids| == |players| && forall k :: 0 <= k < |players| ==> ids[k] == players[k].userId
  {
    seq(|players|, k requires 0 <= k < |players| => players[k].userId)
  }

  // ---------------------------------------------------------------------------------------
  // GET /active/list

  /** `skip = (page - 1) * limit`, which the database refuses when negative; under a
      limit of 0 every page skips nothing. */
  function Skip(page: int, limit: nat): (r: Result<nat, HttpError>)
    ensures r.Success? <==> page >= 1 || limit == 0
    ensures r.Failure? ==> r.error == HttpError(500, "Server error")
    ensures limit == 0 ==> r == Success(0)
    ensures r.Success? && limit > 0 ==> r.value % limit == 0 && r.value / limit == page - 1
  {
    var skip := (page - 1) * limit;
    SkipSign(page, limit);
    if skip < 0 then Failure(HttpError(500, "Server error"))
    else Success(skip)
  }

  /** The skip is negative exactly for a page before the first under a positive limit,
      and otherwise a whole number of pages. */
  lemma SkipSign(page: int, limit: nat)
    ensures (page - 1) * limit < 0 <==> page < 1 && limit > 0
    ensures page >= 1 && limit > 0 ==>
      (page - 1) * limit % limit == 0 && (page - 1) * limit / limit == page - 1
  {
    if page >= 1 {
      MulMonotone(0, page - 1, limit);
      if limit > 0 {
        DivModUnique((page - 1) * limit, limit, page - 1, 0);
      }
    } else if limit > 0 {
      MulMonotone(1, 1 - page, limit);
      assert (page - 1) * limit == -((1 - page) * limit);
    }
  }

  /** `Math.ceil(total / limit)`; None for a limit of 0, whose quotient is not finite
      (JSON writes it as null). */
  function Pages(total: nat, limit: nat): (r: Option<nat>)
    ensures limit == 0 <==> r.None?
  {
    if limit == 0 then None else Some((total + limit - 1) / limit)
  }

  /** The page count is the least number of pages of `limit` games that hold every game. */
  lemma PagesCover(total: nat, limit: nat)
    requires limit > 0
    ensures var pages := Pages(total, limit).value;
      total <= pages * limit && (pages == 0 || (pages - 1) * limit < total)
  {
    var pages := (total + limit - 1) / limit;
    var rem := (total + limit - 1) % limit;
    assert pages * limit + rem == total + limit - 1;
    assert pages * limit >= total;
    if pages > 0 {
      assert (pages - 1) * limit == pages * limit - limit;
    }
  }

  /** The public games offered on a page: waiting, not private, of the requested size if
      one is given, then `skip` of them passed over and at most `limit` kept (all of them for
      a limit of 0). The page defaults to 1 and the limit to 10. The games arrive newest
      first. */
  function ActiveList(games: seq<GameRecord>, boardSize: Option<nat>, page: Option<int>, limit: Option<nat>): (r: Result<seq<GameRecord>, HttpError>)
    ensures var n := UnwrapOr(limit, 10);
      r.Success? <==> Skip(UnwrapOr(page, 1), n).Success?
    ensures r.Failure? ==> r.error == HttpError(500, "Server error")
    ensures r.Success? ==>
      var n := UnwrapOr(limit, 10);
      var offered := Offered(games, boardSize);
      var skip := Skip(UnwrapOr(page, 1), n).value;
      var left := if skip <= |offered| then |offered| - skip else 0;
      |r.value| == (if n == 0 then left else Min(n, left))
      && forall i :: 0 <= i < |r.value| ==> r.value[i] == offered[skip + i]
    ensures page.None? && limit.None? ==>
      r.Success? && r.value == Offered(games, boardSize)[..Min(10, |Offered(games, boardSize)|)]
  {
    var n := UnwrapOr(limit, 10);
    match Skip(UnwrapOr(page, 1), n)
    case Failure(e) => Failure(e)
    case Success(skip) =>
      Success(Window(Offered(games, boardSize), skip, n))
  }

  /** `.skip(skip).limit(limit)`: the elements after the first `skip`, at most `limit` of
      them, where a limit of 0 keeps them all. */
  function Window<T>(s: seq<T>, skip: nat, limit: nat): (w: seq<T>)
    ensures var left := if skip <= |s| then |s| - skip else 0;
      |w| == (if limit == 0 then left else Min(limit, left))
    ensures forall i :: 0 <= i < |w| ==> w[i] == s[skip + i]
  {
    var rest := if skip <= |s| then s[skip..] else [];
    if limit == 0 || |rest| <= limit then rest else rest[..limit]
  }

  /** `{ gameStatus: 'waiting', isPrivate: false }`, and `boardSize` when the query
      carries a non-empty one (the string "0" included). */
  function Offered(games: seq<GameRecord>, boardSize: Option<nat>): (r: seq<GameRecord>)
    ensures forall g :: g in r <==>
      g in games && g.gameStatus == Waiting && !g.isPrivate
      && (boardSize.Some? ==> g.boardSize == boardSize.value)
    ensures |r| <= |games|
  {
    if |games| == 0 then []
    else
      var g := games[0];
      var tail := Offered(games[1..], boardSize);
      if g.gameStatus == Waiting && !g.isPrivate && (boardSize.Some? ==> g.boardSize == boardSize.value)
      then [g] + tail else tail
  }

  /** The filter of the active-games query for one game. */
  predicate Listed(g: GameRecord, boardSize: Option<nat>) {
    g.gameStatus == Waiting && !g.isPrivate && (boardSize.Some? ==> g.boardSize == boardSize.value)
  }

  /** Offered keeps the query's order: a game appended to the collection is appended to
      the offered games exactly when it is listed. */
  lemma {:induction false} OfferedSnoc(games: seq<GameRecord>, g: GameRecord, boardSize: Option<nat>)
    ensures Offered(games + [g], boardSize) == Offered(games, boardSize) + (if Listed(g, boardSize) then [g] else [])
  {
    if |games| > 0 {
      assert (games + [g])[1..] == games[1..] + [g];
      OfferedSnoc(games[1..], g, boardSize);
    }
  }

  // ---------------------------------------------------------------------------------------
  // GET /stats/overview

  /** One entry of `recentGames`. */
  datatype RecentGame = RecentGame(roomId: string, opponent: string, result: string, boardSize: nat)

  /** The tallies of the overview. */
  datatype Overview = Overview(
    totalGames: nat,
    wins: nat,
    losses: nat,
    draws: nat,
    wins3: nat,
    wins4: nat,
    wins5: nat,
    recentGames: seq<RecentGame>)

  /** The seat populated with the user: a non-null id that is the user's, which also
      requires the user to exist (`names` holds the existing users' names by id). */
  predicate IsUser(p: StoredPlayer, me: string, names: map<string, string>) {
    p.userId == Some(me) && me in names
  }

  function UserSeat(players: seq<StoredPlayer>, me: string, names: map<string, string>): Option<nat> {
    FirstIndex(players, (p: StoredPlayer) => IsUser(p, me, names))
  }

  /** `game.boardSize || 3`. */
  function SizeOr3(n: nat): nat {
    if n == 0 then 3 else n
  }

  /** The opponent's display name: "Unknown" with nobody else seated; a guest or a seat
      without a live user shows its own username or "Guest"; otherwise the populated
      user's name. */
  function OpponentName(players: seq<StoredPlayer>, me: string, names: map<string, string>): (r: string)
    ensures r != ""
    ensures (forall k :: 0 <= k < |players| ==> IsUser(players[k], me, names)) ==> r == "Unknown"
  {
    match FirstIndex(players, (p: StoredPlayer) => !IsUser(p, me, names))
    case None => "Unknown"
    case Some(k) =>
      var p := players[k];
      var populated := p.userId.Some? && p.userId.value in names;
      if p.isGuest || !populated then (if p.username != "" then p.username else "Guest")
      else if names[p.userId.value] != "" then names[p.userId.value]
      else if p.username != "" then p.username
      else "Unknown Player"
  }

  /** The overview after one more finished game. */
  function Counted(o: Overview, g: GameRecord, me: string, names: map<string, string>): Overview {
    match UserSeat(g.players, me, names)
    case None => o
    case Some(k) =>
      var symbol := g.players[k].symbol;
      var size := SizeOr3(g.boardSize);
      var tallied :=
        if g.winner == Draw then o.(draws := o.draws + 1)
        else if g.winner == WonBy(symbol) then
          o.(wins := o.wins + 1,
             wins3 := o.wins3 + (if size == 3 then 1 else 0),
             wins4 := o.wins4 + (if size == 4 then 1 else 0),
             wins5 := o.wins5 + (if size == 5 then 1 else 0))
        else if g.winner.WonBy? then o.(losses := o.losses + 1)
        else o;
      if |tallied.recentGames| < 10 then
        var result := if g.winner == Draw then "draw" else if g.winner == WonBy(symbol) then "win" else "loss";
        tallied.(recentGames := tallied.recentGames + [RecentGame(g.roomId, OpponentName(g.players, me, names), result, size)])
      else tallied
  }

  /** The overview of a list of finished games, newest first. */
  function OverviewOf(games: seq<GameRecord>, me: string, names: map<string, string>): Overview {
    if |games| == 0 then Overview(0, 0, 0, 0, 0, 0, 0, [])
    else
      var o := Counted(OverviewOf(games[..|games| - 1], me, names), games[|games| - 1], me, names);
      o.(totalGames := |games|)
  }

  /** The games the user has a seat in. */
  function Involving(games: seq<GameRecord>, me: string, names: map<string, string>): nat {
    if |games| == 0 then 0
    else Involving(games[..|games| - 1], me, names) + (if UserSeat(games[|games| - 1].players, me, names).Some? then 1 else 0)
  }

  /** Each game the user played adds at most one of a win, a loss and a draw; the wins by
      board size never exceed the wins; recentGames has as many entries as the user
      played games, but no more than 10. */
  lemma {:induction false} OverviewBounds(games: seq<GameRecord>, me: string, names: map<string, string>)
    ensures var o := OverviewOf(games, me, names);
      o.totalGames == |games|
      && o.wins + o.losses + o.draws <= Involving(games, me, names) <= |games|
      && o.wins3 + o.wins4 + o.wins5 <= o.wins
      && |o.recentGames| == Min(10, Involving(games, me, names))
  {
    if |games| > 0 {
      var prefix := games[..|games| - 1];
      OverviewBounds(prefix, me, names);
      CountedBounds(OverviewOf(prefix, me, names), games[|games| - 1], me, names, Involving(prefix, me, names));
    }
  }

  /** One game keeps the bounds, counting one more involvement exactly when the user is
      seated. */
  lemma CountedBounds(o: Overview, g: GameRecord, me: string, names: map<string, string>, n: nat)
    requires o.wins + o.losses + o.draws <= n
    requires o.wins3 + o.wins4 + o.wins5 <= o.wins
    requires |o.recentGames| == Min(10, n)
    ensures var o' := Counted(o, g, me, names);
      var n' := n + (if UserSeat(g.players, me, names).Some? then 1 else 0);
      o'.wins + o'.losses + o'.draws <= n'
      && o'.wins3 + o'.wins4 + o'.wins5 <= o'.wins
      && |o'.recentGames| == Min(10, n')
  {
  }

  function Min(a: nat, b: nat): nat { if a <= b then a else b }

  /** The forEach of the overview route. */
  method StatsOverview(games: seq<GameRecord>, me: string, names: map<string, string>) returns (o: Overview)
    ensures o == OverviewOf(games, me, names)
  {
    o := Overview(|games|, 0, 0, 0, 0, 0, 0, []);
    var i := 0;
    while i < |games|
      invariant 0 <= i <= |games|
      invariant o == OverviewOf(games[..i], me, names).(totalGames := |games|)
    {
      ghost var before := OverviewOf(games[..i], me, names);
      assert games[..i + 1][..i] == games[..i];
      assert OverviewOf(games[..i + 1], me, names) == Counted(before, games[i], me, names).(totalGames := i + 1);
      CountedKeepsTotal(before, games[i], me, names, |games|);
      o := CountGame(o, games[i], me, names);
      i := i + 1;
    }
    assert games[..|games|] == games;
  }

  /** Counting a game does not look at or change totalGames. */
  lemma CountedKeepsTotal(o: Overview, g: GameRecord, me: string, names: map<string, string>, t: nat)
    ensures Counted(o.(totalGames := t), g, me, names) == Counted(o, g, me, names).(totalGames := t)
  {
  }

  /** The body of the forEach for one game: the tallies of the user's seat and, while
      fewer than 10 are listed, one more recent game. */
  method CountGame(o: Overview, game: GameRecord, me: string, names: map<string, string>) returns (o': Overview)
    ensures o' == Counted(o, game, me, names)
  {
    o' := o;
    var seat := UserSeat(game.players, me, names);
    if seat.Some? {
      var symbol := game.players[seat.value].symbol;
      if game.winner == Draw {
        o' := o'.(draws := o'.draws + 1);
      } else if game.winner == WonBy(symbol) {
        o' := o'.(wins := o'.wins + 1);
        var size := SizeOr3(game.boardSize);
        if size == 3 {
          o' := o'.(wins3 := o'.wins3 + 1);
        } else if size == 4 {
          o' := o'.(wins4 := o'.wins4 + 1);
        } else if size == 5 {
          o' := o'.(wins5 := o'.wins5 + 1);
        }
      } else if game.winner.WonBy? {
        o' := o'.(losses := o'.losses + 1);
      }
      if |o'.recentGames| < 10 {
        var result := if game.winner == Draw then "draw" else if game.winner == WonBy(symbol) then "win" else "loss";
        o' := o'.(recentGames := o'.recentGames + [RecentGame(game.roomId, OpponentName(game.players, me, names), result, SizeOr3(game.boardSize))]);
      }
    }
  }

  // ---------------------------------------------------------------------------------------
  // Invite codes

  /** `roomId.substring(0, 8).toUpperCase()`. */
  function InviteCode(roomId: string): (code: string)
    ensures |code| == Min(8, |roomId|)
    ensures code == ToUpper(roomId[..|code|])
  {
    ToUpper(if |roomId| <= 8 then roomId else roomId[..8])
  }

  /** An invite code is its own invite code. */
  lemma InviteCodeIdempotent(roomId: string)
    ensures InviteCode(InviteCode(roomId)) == InviteCode(roomId)
    ensures ToUpper(InviteCode(roomId)) == InviteCode(roomId)
  {
    var code := InviteCode(roomId);
    assert code[..|code|] == code;
    ToUpperIdempotent(if |roomId| <= 8 then roomId else roomId[..8]);
  }

  function Waits(g: GameRecord): bool {
    g.isPrivate && g.gameStatus == Waiting
  }

  /** The game join-private picks: the private waiting game whose roomId is the code, or
      else the first private waiting game whose code is the input upper-cased. */
  function FindByCode(db: seq<GameRecord>, code: string): (r: Option<nat>)
    ensures r.Some? ==> r.value < |db| && Waits(db[r.value])
    ensures r.None? <==>
      forall k :: 0 <= k < |db| && Waits(db[k]) ==> db[k].roomId != code && InviteCode(db[k].roomId) != ToUpper(code)
    ensures (exists k :: 0 <= k < |db| && Waits(db[k]) && db[k].roomId == code) ==>
      r.Some? && db[r.value].roomId == code
      && forall j :: 0 <= j < r.value ==> !(Waits(db[j]) && db[j].roomId == code)
    ensures (forall k :: 0 <= k < |db| && Waits(db[k]) ==> db[k].roomId != code) && r.Some? ==>
      InviteCode(db[r.value].roomId) == ToUpper(code)
      && forall j :: 0 <= j < r.value ==> !(Waits(db[j]) && InviteCode(db[j].roomId) == ToUpper(code))
  {
    match FirstIndex(db, (g: GameRecord) => Waits(g) && g.roomId == code)
    case Some(k) => Some(k)
    case None => FirstIndex(db, (g: GameRecord) => Waits(g) && InviteCode(g.roomId) == ToUpper(code))
  }

  /** `targetGame.players.some(p => p.userId.toString() === me)`: None when a null id is
      reached first (a guest seat), which throws. */
  function AlreadyIn(players: seq<StoredPlayer>, me: string): Option<bool> {
    Participates(PlayerIds(players), me)
  }

  /** POST /join-private: the code is required; then the game must be found, have a free
      seat and not already seat the user, and the user must exist. The game is returned
      as it is; no seat is taken here. */
  function JoinPrivate(db: seq<GameRecord>, inviteCode: Option<string>, me: string, user: Option<string>): (r: Result<(string, string), HttpError>)
    ensures inviteCode.None? || inviteCode.value == "" ==> r == Failure(HttpError(400, "Invite code is required"))
    ensures inviteCode.Some? && inviteCode.value != "" && FindByCode(db, inviteCode.value).None? ==>
      r == Failure(HttpError(404, "Invalid invite code or game not found"))
    ensures inviteCode.Some? && inviteCode.value != "" && FindByCode(db, inviteCode.value).Some? ==>
      var g := db[FindByCode(db, inviteCode.value).value];
      (|g.players| >= 2 ==> r == Failure(HttpError(400, "Game is full")))
      && (|g.players| < 2 && AlreadyIn(g.players, me) == Some(true) ==> r == Failure(HttpError(400, "You are already in this game")))
      && (|g.players| < 2 && AlreadyIn(g.players, me) == None ==> r == Failure(HttpError(500, "Failed to join private game")))
      && (|g.players| < 2 && AlreadyIn(g.players, me) == Some(false) ==>
            r == if user.None? then Failure(HttpError(404, "User not found")) else Success((g.roomId, InviteCode(g.roomId))))
  {
    if inviteCode.None? || inviteCode.value == "" then Failure(HttpError(400, "Invite code is required"))
    else match FindByCode(db, inviteCode.value)
      case None => Failure(HttpError(404, "Invalid invite code or game not found"))
      case Some(k) =>
        var g := db[k];
        if |g.players| >= 2 then Failure(HttpError(400, "Game is full"))
        else match AlreadyIn(g.players, me)
          case None => Failure(HttpError(500, "Failed to join private game"))
          case Some(true) => Failure(HttpError(400, "You are already in this game"))
          case Some(false) =>
            if user.None? then Failure(HttpError(404, "User not found"))
            else Success((g.roomId, InviteCode(g.roomId)))
  }

  /** What create-private answers: the room, its invite code, and the stored document. */
  datatype Created = Created(roomId: string, inviteCode: string, game: GameRecord)

  /** `findOne({ roomId: code, gameStatus: { $in: ['waiting', 'playing'] } })`. */
  predicate CodeInUse(db: seq<GameRecord>, code: string) {
    exists k :: 0 <= k < |db| && db[k].roomId == code && db[k].gameStatus != Finished
  }

  /** The unique index on roomId, which `save` enforces for finished games too. */
  predicate RoomIdTaken(db: seq<GameRecord>, roomId: string) {
    exists k :: 0 <= k < |db| && db[k].roomId == roomId
  }

  /** POST /create-private: a custom code is the roomId (a fresh id otherwise) and may not
      belong to a waiting or playing game; the user must exist; saving fails for a board
      size outside 3..5 and for a roomId already stored. The game is private, waiting,
      with the creator alone as X on an empty board. */
  function CreatePrivate(db: seq<GameRecord>, me: string, user: Option<string>, requestedSize: Option<nat>,
                         customInviteCode: Option<string>, freshId: string): (r: Result<Created, HttpError>)
    ensures var custom := customInviteCode.Some? && customInviteCode.value != "";
      custom && CodeInUse(db, customInviteCode.value) ==> r == Failure(HttpError(400, "Invite code already in use"))
    ensures var custom := customInviteCode.Some? && customInviteCode.value != "";
      !(custom && CodeInUse(db, customInviteCode.value)) && user.None? ==> r == Failure(HttpError(404, "User not found"))
    ensures r.Success? ==>
      var roomId := if customInviteCode.Some? && customInviteCode.value != "" then customInviteCode.value else freshId;
      var g := r.value.game;
      r.value.roomId == roomId == g.roomId && r.value.inviteCode == InviteCode(roomId)
      && user.Some? && !RoomIdTaken(db, roomId)
      && g.isPrivate && g.gameStatus == Waiting && g.currentPlayer == X && g.winner == NoWinner && g.moves == []
      && g.players == [StoredPlayer(Some(me), user.value, X, false)]
      && ValidBoardSize(g.boardSize) && g.boardSize == UnwrapOr(requestedSize, 3)
      && g.board == EmptyBoard(g.boardSize)
    ensures var custom := customInviteCode.Some? && customInviteCode.value != "";
      var roomId := if custom then customInviteCode.value else freshId;
      !(custom && CodeInUse(db, roomId)) && user.Some? ==>
        (r.Success? <==> ValidBoardSize(UnwrapOr(requestedSize, 3)) && !RoomIdTaken(db, roomId))
    ensures r.Failure? && r.error.status == 500 ==>
      var roomId := if customInviteCode.Some? && customInviteCode.value != "" then customInviteCode.value else freshId;
      r.error.message == "Failed to create private game"
      && (!ValidBoardSize(UnwrapOr(requestedSize, 3)) || RoomIdTaken(db, roomId))
    ensures r.Failure? ==> r.error.status in {400, 404, 500}
  {
    var custom := customInviteCode.Some? && customInviteCode.value != "";
    var roomId := if custom then customInviteCode.value else freshId;
    var boardSize := UnwrapOr(requestedSize, 3);
    if custom && CodeInUse(db, roomId) then Failure(HttpError(400, "Invite code already in use"))
    else if user.None? then Failure(HttpError(404, "User not found"))
    else if !ValidBoardSize(boardSize) || RoomIdTaken(db, roomId) then Failure(HttpError(500, "Failed to create private game"))
    else
      var game := GameRecord(roomId, [StoredPlayer(Some(me), user.value, X, false)], boardSize,
        EmptyBoard(boardSize), X, Waiting, NoWinner, [], [], true);
      Success(Created(roomId, InviteCode(roomId), game))
  }

  /** A created room can be joined with its invite code by another existing user, as long
      as no other private waiting game answers to the same code. */
  lemma {:induction false} CreateThenJoin(db: seq<GameRecord>, me: string, user: Option<string>, requestedSize: Option<nat>,
                         customInviteCode: Option<string>, freshId: string, other: string, otherName: string)
    requires CreatePrivate(db, me, user, requestedSize, customInviteCode, freshId).Success?
    requires other != me && freshId != ""
    requires var c := CreatePrivate(db, me, user, requestedSize, customInviteCode, freshId).value;
      forall k :: 0 <= k < |db| && Waits(db[k]) ==> db[k].roomId != c.inviteCode && InviteCode(db[k].roomId) != c.inviteCode
    ensures var c := CreatePrivate(db, me, user, requestedSize, customInviteCode, freshId).value;
      JoinPrivate(db + [c.game], Some(c.inviteCode), other, Some(otherName)) == Success((c.roomId, c.inviteCode))
  {
    var c := CreatePrivate(db, me, user, requestedSize, customInviteCode, freshId).value;
    InviteCodeIdempotent(c.roomId);
    assert |c.inviteCode| == Min(8, |c.roomId|);
    FindsNewGame(db, c.game, c.inviteCode);
    JoinSeatedAlone(db + [c.game], c.inviteCode, |db|, other, otherName);
  }

  /** A new private waiting game answers to its code when no stored one does. */
  lemma FindsNewGame(db: seq<GameRecord>, g: GameRecord, code: string)
    requires Waits(g) && InviteCode(g.roomId) == ToUpper(code)
    requires forall k :: 0 <= k < |db| && Waits(db[k]) ==> db[k].roomId != code && InviteCode(db[k].roomId) != ToUpper(code)
    ensures FindByCode(db + [g], code) == Some(|db|)
  {
    var all := db + [g];
    assert forall k :: 0 <= k < |db| ==> all[k] == db[k];
    assert all[|db|] == g;
    FirstIndexIs(all, (h: GameRecord) => Waits(h) && InviteCode(h.roomId) == ToUpper(code), |db|);
    var exact := FirstIndex(all, (h: GameRecord) => Waits(h) && h.roomId == code);
    if exact.Some? {
      assert exact.value == |db|;
    }
  }

  /** A game with only its creator lets anyone else in. */
  lemma JoinSeatedAlone(db: seq<GameRecord>, code: string, k: nat, other: string, otherName: string)
    requires code != "" && FindByCode(db, code) == Some(k)
    requires |db[k].players| == 1 && db[k].players[0].userId.Some? && db[k].players[0].userId != Some(other)
    ensures JoinPrivate(db, Some(code), other, Some(otherName)) == Success((db[k].roomId, InviteCode(db[k].roomId)))
  {
    var ids := PlayerIds(db[k].players);
    assert ids[1..] == [];
  }

  // ---------------------------------------------------------------------------------------
  // GET /:roomId/analysis

  /** One entry of `moveAnalysis`; the timestamp is left out. */
  datatype MoveAnalysis = MoveAnalysis(moveNumber: nat, player: Symbol, position: int, boardState: Board, wasWinningMove: bool)

  predicate OnBoard(moves: seq<MoveRecord>, size: nat) {
    forall k :: 0 <= k < |moves| ==> 0 <= moves[k].position < size * size
  }

  /** The board after writing the given moves, in order, onto `board`. */
  function Replay(board: Board, moves: seq<MoveRecord>): (r: Board)
    requires forall k :: 0 <= k < |moves| ==> 0 <= moves[k].position < |board|
    ensures |r| == |board|
  {
    if |moves| == 0 then board
    else
      var last := moves[|moves| - 1];
      Replay(board, moves[..|moves| - 1])[last.position := Mark(last.player)]
  }

  /** When every move was a valid move on the board so far, the replay is the game as
      the engine plays it: each step is a successful makeMove. */
  lemma {:induction false} ReplayIsPlay(board: Board, moves: seq<MoveRecord>)
    requires forall k :: 0 <= k < |moves| ==> 0 <= moves[k].position < |board|
    requires |moves| > 0
    requires IsValidMove(Replay(board, moves[..|moves| - 1]), moves[|moves| - 1].position)
    ensures var before := Replay(board, moves[..|moves| - 1]);
      var last := moves[|moves| - 1];
      MakeMove(before, last.position, last.player) == Success(Replay(board, moves))
  {
  }

  /** A cell no move writes keeps what it held before the replay. */
  lemma {:induction false} ReplayUntouched(board: Board, moves: seq<MoveRecord>, c: nat)
    requires forall k :: 0 <= k < |moves| ==> 0 <= moves[k].position < |board|
    requires c < |board|
    requires forall k :: 0 <= k < |moves| ==> moves[k].position != c
    ensures Replay(board, moves)[c] == board[c]
  {
    if |moves| > 0 {
      var prefix := moves[..|moves| - 1];
      assert forall k :: 0 <= k < |prefix| ==> prefix[k] == moves[k];
      ReplayUntouched(board, prefix, c);
    }
  }

  /** A replayed cell holds the mark of the last move written to it. */
  lemma {:induction false} ReplayLastWrite(board: Board, moves: seq<MoveRecord>, c: nat, k: nat)
    requires forall j :: 0 <= j < |moves| ==> 0 <= moves[j].position < |board|
    requires k < |moves| && moves[k].position == c
    requires forall j :: k < j < |moves| ==> moves[j].position != c
    ensures Replay(board, moves)[c] == Mark(moves[k].player)
  {
    if k < |moves| - 1 {
      var prefix := moves[..|moves| - 1];
      assert forall j :: 0 <= j < |prefix| ==> prefix[j] == moves[j];
      ReplayLastWrite(board, prefix, c, k);
    }
  }

  /** The per-move analysis: for move i, its number i + 1 and the board of moves 0..i
      written in order onto an empty board; only the last move can be the winning move,
      and it is unless the game was a draw. */
  method AnalyzeMoves(boardSize: nat, moves: seq<MoveRecord>, winner: Outcome) returns (analysis: seq<MoveAnalysis>)
    requires OnBoard(moves, boardSize)
    ensures |analysis| == |moves|
    ensures forall i :: 0 <= i < |moves| ==>
      analysis[i].moveNumber == i + 1
      && analysis[i].player == moves[i].player && analysis[i].position == moves[i].position
      && analysis[i].boardState == Replay(EmptyBoard(boardSize), moves[..i + 1])
      && (analysis[i].wasWinningMove <==> i == |moves| - 1 && winner != Draw)
  {
    analysis := [];
    var index := 0;
    while index < |moves|
      invariant 0 <= index <= |moves|
      invariant |analysis| == index
      invariant forall i :: 0 <= i < index ==>
        analysis[i].moveNumber == i + 1
        && analysis[i].player == moves[i].player && analysis[i].position == moves[i].position
        && analysis[i].boardState == Replay(EmptyBoard(boardSize), moves[..i + 1])
        && (analysis[i].wasWinningMove <==> i == |moves| - 1 && winner != Draw)
    {
      var boardState := EmptyBoard(boardSize);
      var i := 0;
      while i <= index
        invariant 0 <= i <= index + 1
        invariant boardState == Replay(EmptyBoard(boardSize), moves[..i])
      {
        assert moves[..i + 1][..i] == moves[..i];
        boardState := boardState[moves[i].position := Mark(moves[i].player)];
        i := i + 1;
      }
      var entry := MoveAnalysis(index + 1, moves[index].player, moves[index].position, boardState,
        index == |moves| - 1 && winner != Draw);
      analysis := analysis + [entry];
      index := index + 1;
    }
  }

  /** GET /:roomId/analysis: 404 for a missing game; only a player may read it. The
      players are populated first, so a guest seat or a seat whose user is gone, met
      before the caller's, makes the check throw. */
  method Analysis(game: Option<GameRecord>, users: set<string>, me: string) returns (r: Result<seq<MoveAnalysis>, HttpError>)
    requires game.Some? ==> OnBoard(game.value.moves, game.value.boardSize)
    ensures game.None? ==> r == Failure(HttpError(404, "Game not found"))
    ensures game.Some? ==>
      match Participates(PopulatedIds(game.value.players, users), me)
      case None => r == Failure(HttpError(500, "Server error"))
      case Some(false) => r == Failure(HttpError(403, "Access denied"))
      case Some(true) =>
        (r.Success? && |r.value| == |game.value.moves|
         && forall i :: 0 <= i < |r.value| ==>
              r.value[i].boardState == Replay(EmptyBoard(game.value.boardSize), game.value.moves[..i + 1]))
  {
    if game.None? {
      return Failure(HttpError(404, "Game not found"));
    }
    var isParticipant := Participates(PopulatedIds(game.value.players, users), me);
    if isParticipant.None? {
      return Failure(HttpError(500, "Server error"));
    }
    if !isParticipant.value {
      return Failure(HttpError(403, "Access denied"));
    }
    var analysis := AnalyzeMoves(game.value.boardSize, game.value.moves, game.value.winner);
    return Success(analysis);
  }
}
