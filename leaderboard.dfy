/** backend/routes/leaderboard.js: the per-user rows of the leaderboard, the comparator
    its sort uses for each filter, and the rank of a user as one plus the number of users
    strictly better in the chosen metric. */
module Leaderboard {
  import opened Wrappers
  import opened BoardEngine
  import opened GameDocument
  import opened PlayerStats

  /** The `filter` query parameter; any other value takes the default branch. */
  datatype Filter = Overall | Wins | WinRate | Streak

  function ParseFilter(s: string): (f: Filter)
    ensures f == Wins <==> s == "wins"
    ensures f == WinRate <==> s == "winRate"
    ensures f == Streak <==> s == "streak"
  {
    if s == "wins" then Wins else if s == "winRate" then WinRate else if s == "streak" then Streak else Overall
  }

  /** A user as the route reads it: a username and a stats record that may be absent. */
  datatype UserDoc = UserDoc(username: string, stats: Option<Stats>)

  /** `user.stats || { wins: 0, losses: 0, draws: 0, currentStreak: 0 }`. */
  function StatsOf(u: UserDoc): Stats {
    if u.stats.Some? then u.stats.value else NoGames
  }

  /** One leaderboard row; winRate is kept in tenths of a percent (`toFixed(1)`). */
  datatype Row = Row(
    username: string,
    wins: nat,
    losses: nat,
    draws: nat,
    currentStreak: int,
    totalGames: nat,
    winRate: nat,
    overallRating: int)

  /** The percentage wins/total·100 to one decimal, in tenths: 0 with no games, otherwise
      the nearest tenth, halves rounding up. */
  function WinRateTenths(wins: nat, total: nat): (r: nat)
    ensures total == 0 ==> r == 0
    ensures total > 0 ==> 2 * total * r <= 2000 * wins + total < 2 * total * (r + 1)
    ensures wins <= total ==> r <= 1000
  {
    if total == 0 then 0
    else
      RoundedTenthsBound(wins, total);
      (2000 * wins + total) / (2 * total)
  }

  lemma RoundedTenthsBound(wins: nat, total: nat)
    requires total > 0
    ensures wins <= total ==> (2000 * wins + total) / (2 * total) <= 1000
  {
    if wins <= total {
      var r := (2000 * wins + total) / (2 * total);
      assert r * (2 * total) <= 2000 * wins + total <= 2001 * total;
      if r > 1000 {
        MulMonotone(1001, r, 2 * total);
      }
    }
  }

  /** The row the route builds from a user. */
  function RowOf(u: UserDoc): (r: Row)
    ensures var s := StatsOf(u);
      r.totalGames == s.wins + s.losses + s.draws
      && r.overallRating == 3 * s.wins + s.draws - s.losses
      && (r.totalGames == 0 ==> r.winRate == 0)
      && r.winRate <= 1000
      && r.wins == s.wins && r.losses == s.losses && r.draws == s.draws && r.currentStreak == s.currentStreak
  {
    var s := StatsOf(u);
    var total := s.wins + s.losses + s.draws;
    Row(u.username, s.wins, s.losses, s.draws, s.currentStreak, total,
      WinRateTenths(s.wins, total), s.wins * 3 + s.draws * 1 - s.losses * 1)
  }

  /** The number of games on the leaderboard is the number updatePlayerStats counted. */
  lemma RowTotalMatchesRecord(u: UserDoc)
    requires u.stats.Some? && TotalsAgree(u.stats.value)
    ensures RowOf(u).totalGames == u.stats.value.totalGames
  {
  }

  /** A recorded win is worth 3 rating points, a draw 1, a loss -1. */
  lemma RecordShiftsRating(s: Stats, winner: Outcome, symbol: Symbol, forfeited: bool)
    ensures var before := RowOf(UserDoc("", Some(s))).overallRating;
      var after := RowOf(UserDoc("", Some(Record(s, winner, symbol, forfeited)))).overallRating;
      after - before == (if winner == Draw then 1 else if winner == WonBy(symbol) then 3 else -1)
  {
  }

  // ---------------------------------------------------------------------------------------
  // The sort

  /** The comparator as written: negative puts `a` first. */
  function Compare(a: Row, b: Row, f: Filter): int {
    match f
    case Wins => b.wins - a.wins
    case WinRate =>
      if a.totalGames < 5 && b.totalGames < 5 then b.wins - a.wins
      else if a.totalGames < 5 then 1
      else if b.totalGames < 5 then -1
      else b.winRate - a.winRate
    case Streak => b.currentStreak - a.currentStreak
    case Overall => b.overallRating - a.overallRating
  }

  /** The tier of a row: in winRate mode, players with at least 5 games form the upper
      tier; every other mode has a single tier. */
  function Tier(r: Row, f: Filter): nat {
    if f == WinRate && r.totalGames >= 5 then 1 else 0
  }

  /** The metric within a tier. */
  function Score(r: Row, f: Filter): int {
    match f
    case Wins => r.wins
    case WinRate => if r.totalGames >= 5 then r.winRate else r.wins
    case Streak => r.currentStreak
    case Overall => r.overallRating
  }

  /** `a` may come before `b`: a higher tier, or the same tier and a score at least as
      high. */
  predicate AtLeast(a: Row, b: Row, f: Filter) {
    Tier(a, f) > Tier(b, f) || (Tier(a, f) == Tier(b, f) && Score(a, f) >= Score(b, f))
  }

  /** The comparator orders rows by tier, then by score, highest first. */
  lemma CompareIsKeyOrder(a: Row, b: Row, f: Filter)
    ensures Compare(a, b, f) <= 0 <==> AtLeast(a, b, f)
  {
  }

  lemma AtLeastTransitive(a: Row, b: Row, c: Row, f: Filter)
    requires AtLeast(a, b, f) && AtLeast(b, c, f)
    ensures AtLeast(a, c, f)
  {
  }

  lemma AtLeastTotal(a: Row, b: Row, f: Filter)
    ensures AtLeast(a, b, f) || AtLeast(b, a, f)
  {
  }

  /** Every row may come before every later one. */
  predicate SortedBy(s: seq<Row>, f: Filter) {
    forall p, q :: 0 <= p < q < |s| ==> AtLeast(s[p], s[q], f)
  }

  /** `leaderboard.sort(comparator)`: afterwards the array is ordered by the comparator
      and holds the same rows. */
  method SortRows(a: array<Row>, f: Filter)
    modifies a
    ensures SortedBy(a[..], f)
    ensures multiset(a[..]) == multiset(old(a[..]))
  {
    if a.Length == 0 {
      return;
    }
    var i := 1;
    while i < a.Length
      invariant 1 <= i <= a.Length
      invariant SortedBy(a[..i], f)
      invariant multiset(a[..]) == multiset(old(a[..]))
    {
      Insert(a, i, f);
      i := i + 1;
    }
    assert a[..a.Length] == a[..];
  }

  /** The state of an insertion step with the moving row at j <= i: every two rows of
      s[..i + 1] other than the moving one are in order, and the moving one may come
      before every row after it. */
  predicate Gapped(s: seq<Row>, i: nat, j: nat, f: Filter)
    requires j <= i < |s|
  {
    (forall p, q :: 0 <= p < q <= i && p != j && q != j ==> AtLeast(s[p], s[q], f))
    && (forall q :: j < q <= i ==> AtLeast(s[j], s[q], f))
  }

  /** Moving the row one place down, past a row it may come before, keeps the state. */
  lemma SwapStep(s: seq<Row>, i: nat, j: nat, f: Filter)
    requires 0 < j <= i < |s| && Gapped(s, i, j, f) && !AtLeast(s[j - 1], s[j], f)
    ensures Gapped(s[j - 1 := s[j]][j := s[j - 1]], i, j - 1, f)
  {
    AtLeastTotal(s[j - 1], s[j], f);
    var t := s[j - 1 := s[j]][j := s[j - 1]];
    forall q | j - 1 < q <= i ensures AtLeast(t[j - 1], t[q], f) {
      if q > j {
        AtLeastTransitive(s[j], s[j - 1], s[q], f);
      }
    }
  }

  /** The moving row stopped below a row that may come before it: the prefix is sorted. */
  lemma InsertDone(s: seq<Row>, i: nat, j: nat, f: Filter)
    requires j <= i < |s| && Gapped(s, i, j, f) && (j > 0 ==> AtLeast(s[j - 1], s[j], f))
    ensures SortedBy(s[..i + 1], f)
  {
    forall p | 0 <= p < j ensures AtLeast(s[p], s[j], f) {
      if p < j - 1 {
        AtLeastTransitive(s[p], s[j - 1], s[j], f);
      }
    }
  }

  /** One insertion step: the sorted prefix a[..i] absorbs a[i]. */
  method Insert(a: array<Row>, i: nat, f: Filter)
    requires 0 < i < a.Length && SortedBy(a[..i], f)
    modifies a
    ensures SortedBy(a[..i + 1], f)
    ensures multiset(a[..]) == multiset(old(a[..]))
  {
    var j := i;
    while j > 0 && Compare(a[j - 1], a[j], f) > 0
      invariant 0 <= j <= i
      invariant multiset(a[..]) == multiset(old(a[..]))
      invariant Gapped(a[..], i, j, f)
    {
      CompareIsKeyOrder(a[j - 1], a[j], f);
      SwapStep(a[..], i, j, f);
      Swap(a, j - 1, j);
      j := j - 1;
    }
    if j > 0 {
      CompareIsKeyOrder(a[j - 1], a[j], f);
    }
    InsertDone(a[..], i, j, f);
  }

  /** Exchanges two cells. */
  method Swap(a: array<Row>, x: nat, y: nat)
    requires x < y < a.Length
    modifies a
    ensures a[..] == old(a[..])[x := old(a[y])][y := old(a[x])]
    ensures multiset(a[..]) == multiset(old(a[..]))
  {
    a[x], a[y] := a[y], a[x];
  }

  /** GET /: the rows of the first `limit` users (100 when the query gives none, all of
      them for a limit of 0, as the database reads it), sorted for the filter. */
  method GetLeaderboard(users: seq<UserDoc>, filter: Filter, limit: Option<nat>) returns (rows: seq<Row>)
    ensures |rows| == |Limited(users, UnwrapOr(limit, 100))|
    ensures limit.None? ==> |rows| == if |users| <= 100 then |users| else 100
    ensures multiset(rows) == multiset(RowsOf(Limited(users, UnwrapOr(limit, 100))))
    ensures SortedBy(rows, filter)
    ensures forall p, q :: 0 <= p < q < |rows| ==> Compare(rows[p], rows[q], filter) <= 0
  {
    var found := Limited(users, UnwrapOr(limit, 100));
    var a := new Row[|found|](k requires 0 <= k < |found| => RowOf(found[k]));
    assert a[..] == RowsOf(found);
    SortRows(a, filter);
    rows := a[..];
    assert |multiset(rows)| == |multiset(RowsOf(found))|;
    forall p, q | 0 <= p < q < |rows| ensures Compare(rows[p], rows[q], filter) <= 0 {
      CompareIsKeyOrder(rows[p], rows[q], filter);
    }
  }

  /** `User.find().limit(limit)`, with 0 for no limit. */
  function Limited(users: seq<UserDoc>, limit: nat): (r: seq<UserDoc>)
    ensures limit == 0 || |users| <= limit ==> r == users
    ensures 0 < limit < |users| ==> r == users[..limit]
  {
    if limit == 0 || |users| <= limit then users else users[..limit]
  }

  function RowsOf(users: seq<UserDoc>): (r: seq<Row>)
    ensures |r| == |users| && forall k :: 0 <= k < |users| ==> r[k] == RowOf(users[k])
  {
    seq(|users|, k requires 0 <= k < |users| => RowOf(users[k]))
  }

  /** In winRate mode, every player with at least 5 games comes before every player with
      fewer, and those with fewer come in decreasing order of wins. */
  lemma WinRateOrder(s: seq<Row>, p: nat, q: nat)
    requires SortedBy(s, WinRate) && p < q < |s|
    ensures s[q].totalGames >= 5 ==> s[p].totalGames >= 5
    ensures s[p].totalGames < 5 && s[q].totalGames < 5 ==> s[p].wins >= s[q].wins
    ensures s[p].totalGames >= 5 && s[q].totalGames >= 5 ==> s[p].winRate >= s[q].winRate
  {
    assert AtLeast(s[p], s[q], WinRate);
  }

  /** In the other modes the rows come in non-increasing order of the metric. */
  lemma MetricOrder(s: seq<Row>, p: nat, q: nat)
    requires p < q < |s|
    ensures SortedBy(s, Wins) ==> s[p].wins >= s[q].wins
    ensures SortedBy(s, Streak) ==> s[p].currentStreak >= s[q].currentStreak
    ensures SortedBy(s, Overall) ==> s[p].overallRating >= s[q].overallRating
  {
    if SortedBy(s, Wins) { assert AtLeast(s[p], s[q], Wins); }
    if SortedBy(s, Streak) { assert AtLeast(s[p], s[q], Streak); }
    if SortedBy(s, Overall) { assert AtLeast(s[p], s[q], Overall); }
  }

  // ---------------------------------------------------------------------------------------
  // Rank

  /** Whether `u` is strictly better than `me` for GET /rank. For wins and streak the
      database compares the stored field, which a user without stats lacks; winRate and
      overall read missing stats as zeros. The win rates are compared exactly. */
  predicate Beats(u: UserDoc, me: Stats, f: Filter) {
    match f
    case Wins => u.stats.Some? && u.stats.value.wins > me.wins
    case Streak => u.stats.Some? && u.stats.value.currentStreak > me.currentStreak
    case WinRate =>
      var us := StatsOf(u);
      var uTotal := us.wins + us.losses + us.draws;
      var myTotal := me.wins + me.losses + me.draws;
      if myTotal < 5 && uTotal >= 5 then true
      else if myTotal >= 5 && uTotal < 5 then false
      else if myTotal < 5 && uTotal < 5 then us.wins > me.wins
      else RateAbove(us.wins, uTotal, me.wins, myTotal)
    case Overall =>
      var us := StatsOf(u);
      us.wins * 3 + us.draws - us.losses > me.wins * 3 + me.draws * 1 - me.losses * 1
  }

  /** wins1/total1 > wins2/total2, both totals positive. */
  predicate RateAbove(wins1: nat, total1: nat, wins2: nat, total2: nat) {
    wins1 * total2 > wins2 * total1
  }

  /** The number of users that beat `me`. */
  function BetterCount(users: seq<UserDoc>, me: Stats, f: Filter): (n: nat)
    ensures n <= |users|
  {
    if |users| == 0 then 0
    else BetterCount(users[..|users| - 1], me, f) + (if Beats(users[|users| - 1], me, f) then 1 else 0)
  }

  /** `rank: betterUsersCount + 1`. */
  function Rank(users: seq<UserDoc>, me: Stats, f: Filter): (rank: nat)
    ensures 1 <= rank <= |users| + 1
  {
    BetterCount(users, me, f) + 1
  }

  /** Users whose metrics tie are beaten by the same users, so they share a rank. */
  lemma {:induction false} TiedShareRank(users: seq<UserDoc>, a: Stats, b: Stats, f: Filter)
    requires forall u :: Beats(u, a, f) <==> Beats(u, b, f)
    ensures Rank(users, a, f) == Rank(users, b, f)
  {
    if |users| > 0 {
      TiedShareRank(users[..|users| - 1], a, b, f);
    }
  }

  /** Two users with the same wins, losses, draws and streak tie in every mode. */
  lemma SameRecordSameRank(users: seq<UserDoc>, a: Stats, b: Stats, f: Filter)
    requires a.wins == b.wins && a.losses == b.losses && a.draws == b.draws && a.currentStreak == b.currentStreak
    ensures Rank(users, a, f) == Rank(users, b, f)
  {
    TiedShareRank(users, a, b, f);
  }

  /** The "strictly better" of every mode is transitive. */
  lemma BeatsTransitive(u: UserDoc, a: Stats, b: Stats, f: Filter)
    requires Beats(u, a, f) && Beats(UserDoc("", Some(a)), b, f)
    ensures Beats(u, b, f)
  {
    if f == WinRate {
      var us := StatsOf(u);
      var uTotal := us.wins + us.losses + us.draws;
      var aTotal := a.wins + a.losses + a.draws;
      var bTotal := b.wins + b.losses + b.draws;
      if uTotal >= 5 && aTotal >= 5 && bTotal >= 5 {
        RateAboveTransitive(us.wins, uTotal, a.wins, aTotal, b.wins, bTotal);
      }
    }
  }

  lemma RateAboveTransitive(w1: nat, t1: nat, w2: nat, t2: nat, w3: nat, t3: nat)
    requires t1 > 0 && t2 > 0 && t3 > 0
    requires RateAbove(w1, t1, w2, t2) && RateAbove(w2, t2, w3, t3)
    ensures RateAbove(w1, t1, w3, t3)
  {
    MulStrict(w1 * t2, w2 * t1, t3);
    MulStrict(w2 * t3, w3 * t2, t1);
    assert (w1 * t2) * t3 == (w1 * t3) * t2;
    assert (w2 * t1) * t3 == (w2 * t3) * t1;
    assert (w3 * t2) * t1 == (w3 * t1) * t2;
    if w1 * t3 <= w3 * t1 {
      MulMonotone(w1 * t3, w3 * t1, t2);
    }
  }

  lemma MulStrict(x: nat, y: nat, k: nat)
    requires x > y && k > 0
    ensures x * k > y * k
  {
    MulMonotone(y + 1, x, k);
  }

  /** A user strictly better than another never ranks below them: whoever beats the
      better one also beats the other. */
  lemma {:induction false} BetterRanksNoLower(users: seq<UserDoc>, a: Stats, b: Stats, f: Filter)
    requires Beats(UserDoc("", Some(a)), b, f)
    ensures Rank(users, a, f) <= Rank(users, b, f)
  {
    if |users| > 0 {
      BetterRanksNoLower(users[..|users| - 1], a, b, f);
      if Beats(users[|users| - 1], a, f) {
        BeatsTransitive(users[|users| - 1], a, b, f);
      }
    }
  }

  /** GET /rank: 404 when the requesting user is missing, else the rank of their stats
      (missing stats read as zeros) among all users. */
  function GetRank(users: seq<UserDoc>, me: Option<UserDoc>, f: Filter): (r: Result<nat, string>)
    ensures me.None? <==> r == Failure("User not found")
    ensures me.Some? ==> r.Success? && r.value >= 1 && r.value == BetterCount(users, StatsOf(me.value), f) + 1
  {
    if me.None? then Failure("User not found") else Success(Rank(users, StatsOf(me.value), f))
  }
}
