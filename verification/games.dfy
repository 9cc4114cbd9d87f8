/**
 * The first two stages of the season-record computation: keep the completed
 * games of a schedule, then pivot every game into a home-perspective and an
 * away-perspective team row.
 */
module Games {

  /** One row of the season schedule table, reduced to the columns the records use. */
  datatype RawGame = RawGame(
    gameId: int,
    homeId: int,
    awayId: int,
    homeWinner: bool,
    awayWinner: bool,
    homeConferenceId: int,
    awayConferenceId: int,
    statusTypeCompleted: bool)

  /** One team's view of one game. */
  datatype TeamGame = TeamGame(
    gameId: int,
    teamId: int,
    opponentId: int,
    isHome: bool,
    won: bool,
    conferenceId: int,
    opponentConferenceId: int)

  /** A game is a conference game when both sides belong to the same conference. */
  predicate IsConfGame(row: TeamGame) {
    row.conferenceId == row.opponentConferenceId
  }

  /** The completed games of a schedule, in schedule order. */
  function CompletedGames(schedule: seq<RawGame>): (games: seq<RawGame>)
    ensures |games| <= |schedule|
    ensures forall g :: g in games ==> g in schedule && g.statusTypeCompleted
    ensures forall g :: g in schedule && g.statusTypeCompleted ==> g in games
  {
    if |schedule| == 0 then []
    else if schedule[0].statusTypeCompleted then [schedule[0]] + CompletedGames(schedule[1..])
    else CompletedGames(schedule[1..])
  }

  /** Filtering distributes over concatenation, so the filter keeps schedule order. */
  lemma {:induction false} CompletedGamesAppend(a: seq<RawGame>, b: seq<RawGame>)
    ensures CompletedGames(a + b) == CompletedGames(a) + CompletedGames(b)
    decreases |a|
  {
    if |a| > 0 {
      assert (a + b)[1..] == a[1..] + b;
      CompletedGamesAppend(a[1..], b);
    } else {
      assert a + b == b;
    }
  }

  /** A game that is not completed contributes nothing, wherever it sits in the schedule. */
  lemma IncompleteGameDropped(a: seq<RawGame>, g: RawGame, b: seq<RawGame>)
    requires !g.statusTypeCompleted
    ensures CompletedGames(a + [g] + b) == CompletedGames(a + b)
  {
    CompletedGamesAppend(a + [g], b);
    CompletedGamesAppend(a, [g]);
    CompletedGamesAppend(a, b);
    assert [g][1..] == [];
  }

  /** The row of the home team: home columns become the team columns. */
  function HomePerspective(g: RawGame): TeamGame {
    TeamGame(g.gameId, g.homeId, g.awayId, true, g.homeWinner, g.homeConferenceId, g.awayConferenceId)
  }

  /** The row of the away team: away columns become the team columns. */
  function AwayPerspective(g: RawGame): TeamGame {
    TeamGame(g.gameId, g.awayId, g.homeId, false, g.awayWinner, g.awayConferenceId, g.homeConferenceId)
  }

  /** The home row reads the home side of the game and the away row its away side. */
  predicate Reflects(g: RawGame, home: TeamGame, away: TeamGame) {
    && home.gameId == g.gameId && away.gameId == g.gameId
    && home.teamId == g.homeId && away.teamId == g.awayId
    && home.won == g.homeWinner && away.won == g.awayWinner
    && home.conferenceId == g.homeConferenceId && away.conferenceId == g.awayConferenceId
    && home.isHome && !away.isHome
  }

  /** Two rows are the two perspectives of one game: team and opponent swapped. */
  predicate Mirrors(home: TeamGame, away: TeamGame) {
    && home.gameId == away.gameId
    && home.isHome && !away.isHome
    && home.teamId == away.opponentId && home.opponentId == away.teamId
    && home.conferenceId == away.opponentConferenceId
    && home.opponentConferenceId == away.conferenceId
  }

  /** The two perspectives of a game reflect it and mirror each other. */
  lemma PerspectivesMirror(g: RawGame)
    ensures Reflects(g, HomePerspective(g), AwayPerspective(g))
    ensures Mirrors(HomePerspective(g), AwayPerspective(g))
    ensures g.homeWinner != g.awayWinner ==> HomePerspective(g).won != AwayPerspective(g).won
  {
  }

  /** Mirrored rows agree on whether the game is a conference game. */
  lemma MirrorsAgreeOnConfGame(home: TeamGame, away: TeamGame)
    requires Mirrors(home, away)
    ensures IsConfGame(home) <==> IsConfGame(away)
  {
  }

  /**
   * All home-perspective rows followed by all away-perspective rows, as the
   * concatenation of the two relabelled tables.
   */
  function Pivot(games: seq<RawGame>): (rows: seq<TeamGame>)
    ensures |rows| == 2 * |games|
    ensures forall i :: 0 <= i < |games| ==> Reflects(games[i], rows[i], rows[|games| + i])
    ensures forall i :: 0 <= i < |games| ==> Mirrors(rows[i], rows[|games| + i])
  {
    var home := seq(|games|, i requires 0 <= i < |games| => HomePerspective(games[i]));
    var away := seq(|games|, i requires 0 <= i < |games| => AwayPerspective(games[i]));
    home + away
  }

  /** Every row of the pivot is one of the two perspectives of some game. */
  lemma PivotRowsFromGames(games: seq<RawGame>, row: TeamGame)
    requires row in Pivot(games)
    ensures exists g :: g in games && (row == HomePerspective(g) || row == AwayPerspective(g))
  {
    var rows := Pivot(games);
    var k :| 0 <= k < |rows| && rows[k] == row;
    if k < |games| {
      assert row == HomePerspective(games[k]);
    } else {
      assert row == AwayPerspective(games[k - |games|]);
    }
  }
}
