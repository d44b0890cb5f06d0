/** A registered user's game statistics and the per-player step of updatePlayerStats
    (backend/socket/gameSocket.js:740-779). */
module PlayerStats {
  import opened BoardEngine
  import opened GameDocument

  /** `user.stats`; totalGames and forfeits are the counters updatePlayerStats writes. */
  datatype Stats = Stats(wins: nat, losses: nat, draws: nat, totalGames: nat, forfeits: nat, currentStreak: int)

  /** The record of a user with no games. */
  const NoGames := Stats(0, 0, 0, 0, 0, 0)

  /** totalGames counts exactly the games counted as a win, a loss or a draw. */
  predicate TotalsAgree(s: Stats) {
    s.totalGames == s.wins + s.losses + s.draws
  }

  /** One finished game for a player holding `symbol`: a draw, a win when the winner is
      that symbol, a loss otherwise; one more game in total; one more forfeit when this
      player forfeited. */
  function Record(s: Stats, winner: Outcome, symbol: Symbol, forfeited: bool): (r: Stats)
    ensures r.totalGames == s.totalGames + 1
    ensures winner == Draw ==> r.draws == s.draws + 1 && r.wins == s.wins && r.losses == s.losses
    ensures winner == WonBy(symbol) ==> r.wins == s.wins + 1 && r.draws == s.draws && r.losses == s.losses
    ensures winner != Draw && winner != WonBy(symbol) ==>
      r.losses == s.losses + 1 && r.wins == s.wins && r.draws == s.draws
    ensures r.forfeits == s.forfeits + (if forfeited then 1 else 0)
    ensures r.currentStreak == s.currentStreak
  {
    var counted :=
      if winner == Draw then s.(draws := s.draws + 1)
      else if winner == WonBy(symbol) then s.(wins := s.wins + 1)
      else s.(losses := s.losses + 1);
    var totalled := counted.(totalGames := counted.totalGames + 1);
    if forfeited then totalled.(forfeits := totalled.forfeits + 1) else totalled
  }

  /** Recording a game keeps totalGames equal to wins + losses + draws, and in every case
      exactly one of the three grows. */
  lemma RecordKeepsTotals(s: Stats, winner: Outcome, symbol: Symbol, forfeited: bool)
    requires TotalsAgree(s)
    ensures TotalsAgree(Record(s, winner, symbol, forfeited))
    ensures var r := Record(s, winner, symbol, forfeited);
      (r.wins - s.wins) + (r.losses - s.losses) + (r.draws - s.draws) == 1
      && r.wins >= s.wins && r.losses >= s.losses && r.draws >= s.draws
  {
  }
}
