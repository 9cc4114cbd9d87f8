/**
 * The 0/1 indicator columns derived from one team row, and their sums.
 */
module Tally {
  import opened Games

  /** Indicator counts, or their sums over a set of team rows. */
  datatype Tally = Tally(
    wins: int,
    homeWins: int,
    roadWins: int,
    confWins: int,
    homeGames: int,
    roadGames: int,
    confGames: int,
    totalGames: int)

  const Zero := Tally(0, 0, 0, 0, 0, 0, 0, 0)

  /** A boolean cast to an integer column: true is 1, false is 0. */
  function Bit(b: bool): int {
    if b then 1 else 0
  }

  /**
   * The relations every sum of indicator rows satisfies: no count is negative,
   * every game is a home or a road game, every win a home or a road win, and
   * wins never exceed the games they are counted over.
   */
  predicate Consistent(t: Tally) {
    && t.wins >= 0 && t.homeWins >= 0 && t.roadWins >= 0 && t.confWins >= 0
    && t.homeGames >= 0 && t.roadGames >= 0 && t.confGames >= 0
    && t.homeWins + t.roadWins == t.wins
    && t.homeGames + t.roadGames == t.totalGames
    && t.homeWins <= t.homeGames
    && t.roadWins <= t.roadGames
    && t.confWins <= t.confGames <= t.totalGames
    && t.confWins <= t.wins
  }

  /** Column-wise sum. */
  function Add(a: Tally, b: Tally): (r: Tally)
    ensures r.totalGames == a.totalGames + b.totalGames
  {
    Tally(a.wins + b.wins, a.homeWins + b.homeWins, a.roadWins + b.roadWins,
          a.confWins + b.confWins, a.homeGames + b.homeGames, a.roadGames + b.roadGames,
          a.confGames + b.confGames, a.totalGames + b.totalGames)
  }

  lemma ZeroConsistent()
    ensures Consistent(Zero)
  {
  }

  /** Summing keeps the indicator relations. */
  lemma AddConsistent(a: Tally, b: Tally)
    requires Consistent(a) && Consistent(b)
    ensures Consistent(Add(a, b))
  {
  }

  lemma AddZero(t: Tally)
    ensures Add(Zero, t) == t
  {
  }

  /**
   * The indicator row of one team row: a win, a home win, a road win, a
   * conference win, a home game, a road game, a conference game, and one game
   * counted towards the total.
   */
  function Indicators(row: TeamGame): (t: Tally)
    ensures t.totalGames == 1
    ensures t.wins == 1 <==> row.won
    ensures t.homeGames == 1 <==> row.isHome
    ensures t.confGames == 1 <==> IsConfGame(row)
    ensures t.confWins == 1 <==> row.won && IsConfGame(row)
  {
    Tally(
      Bit(row.won),
      Bit(row.won && row.isHome),
      Bit(row.won && !row.isHome),
      Bit(row.won && IsConfGame(row)),
      Bit(row.isHome),
      Bit(!row.isHome),
      Bit(IsConfGame(row)),
      1)
  }

  /** Every indicator row satisfies the relations its sums keep. */
  lemma IndicatorsConsistent(row: TeamGame)
    ensures Consistent(Indicators(row))
  {
  }
}
