# Conference season records and live scoreboard, in Dafny

This project models the two data pipelines of a college-basketball dashboard.

- **Season records** (`schedules.py`). The pipeline works on one sport's season schedule:
  - keep the completed games;
  - pivot each game into a home-team row and an away-team row;
  - flag conference games and turn each row into 0/1 indicator columns;
  - group by (team, conference), summing the indicators and counting the rows;
  - derive losses as complements, `"W-L"` display strings, and win ratios rounded to three decimals (0 when the denominator is 0);
  - keep one conference (id 10) and sort descending on (conference win ratio, overall win ratio).
- **Live scoreboard** (`scoreboard.py`). The pipeline flattens the scoreboard document into one row per competition of every event. Each row holds:
  - the event id;
  - the home and away team ids and scores;
  - the period;
  - a status text.

Every stage is a pure function over immutable datatypes. Each comes with a reference definition or a partner lemma:

| file | module | what it holds |
|---|---|---|
| `wrappers.dfy` | `Wrappers` | `Option` |
| `decimal.dfy` | `Decimal` | decimal rendering of integers and its parser (the `"{}"` of a format string) |
| `games.dfy` | `Games` | the schedule rows, the completed-game filter, and the home/away pivot |
| `tally.dfy` | `Tally` | the indicator columns of one row and their sum |
| `grouping.dfy` | `Grouping` | group-by as a fold into an association list, with reference sums `TallyOf` and counts `CountKey` |
| `records.dfy` | `Records` | column subtraction and division, rounding, display strings, the season record, and the conference filter |
| `ranking.dfy` | `Ranking` | the descending two-key order and an insertion sort |
| `schedules.dfy` | `Schedules`, `SchedulesExample` | the composed pipeline, its end-to-end properties, and a worked two-game season |
| `scoreboard.dfy` | `Scoreboard` | the scoreboard document and its flattening |

Modelling choices:

- **Ratios.** The column division yields an exact `real`. The rounded column is kept as an integer number of thousandths: 0.667 is `667`.
- **Absent keys.** An absent JSON key is `None`. An absent list is read as empty, as the source's defaults do.
- **Group order.** Groups appear in the order their key first occurs among the team rows.
- **Row order.** The pivot lists all home rows, then all away rows.

## Model

| member | source | states |
|---|---|---|
| `Games.CompletedGames` | schedules.py:34-44 | The result holds exactly the schedule's games whose completed flag is set. It is never longer than the schedule. |
| `Games.CompletedGamesAppend` | schedules.py:34-35 | Filtering a concatenation is the concatenation of the filtered parts, so the filter keeps schedule order. |
| `Games.IncompleteGameDropped` | schedules.py:34-35 | A game that is not completed, inserted anywhere, leaves the filtered games unchanged. |
| `Games.Pivot` | schedules.py:46-96 | Each game becomes two rows, its home row at position i and its away row at position n+i. The pair reflects the game: team and opponent swapped, each side's own winner flag and conference, and home flags true and false. |
| `Games.PerspectivesMirror` | schedules.py:46-86 | `HomePerspective` and `AwayPerspective` relabel a game. The home row takes the home side's team, winner flag and conference with `is_home` true. The away row takes the away side's with `is_home` false. The two rows mirror each other: team and opponent swapped, and conference and opponent conference swapped. When exactly one side won, exactly one row has won set. |
| `Games.MirrorsAgreeOnConfGame` | schedules.py:98-103 | Both rows of a game agree on whether it is a conference game. |
| `Games.PivotRowsFromGames` | schedules.py:88-96 | Every team row is the home or away perspective of some completed game. |
| `Tally.Indicators` | schedules.py:104-112 | A row's indicators count one game towards the total. Wins is 1 iff the row won, home games is 1 iff it is a home row, conference games is 1 iff the two conference ids are equal, and conference wins is 1 iff both hold. |
| `Tally.IndicatorsConsistent` | schedules.py:104-112 | Every indicator row satisfies the relations: home and road wins split the wins, home and road games split the one game, and wins never exceed games. |
| `Tally.AddConsistent` | schedules.py:113-125 | `Add`, the column-wise sum, keeps every indicator relation of two consistent tallies: home plus road wins equals wins, home plus road games equals total, and wins never exceed games. |
| `Tally.AddZero` | schedules.py:113-125 | Adding a tally to the zero tally gives that tally back, so a newly opened group holds exactly its first row's indicators. |
| `Grouping.CountKeyPositive` | schedules.py:113-124 | A key is counted at least once iff some team row carries it. |
| `Grouping.TallyOf` | schedules.py:113-125 | The reference sum for a key counts exactly the rows with that key, which is the row count `total_games`. |
| `Grouping.TallyOfConsistent` | schedules.py:104-125 | Every reference sum satisfies the indicator relations. |
| `Grouping.AddRowKeys` | schedules.py:113-125 | One step of the group-by, `AddRow`, keeps the key list when the row's key already has a group. Otherwise it appends that key at the end. |
| `Grouping.AddRowLookup` | schedules.py:113-125 | After `AddRow`, the row's key holds its old tally (zero when it had no group) plus the row's indicators. Every other key keeps its tally. |
| `Grouping.AddRowSum` | schedules.py:113-125 | `AddRow` raises the sum of the group totals by exactly one. |
| `Grouping.GroupRowsSummarize` | schedules.py:113-125 | `GroupRows`, the group-by as a fold of `AddRow`, gives distinct keys. They are exactly the keys of the rows. Each key's tally is the reference sum of that key's rows. The group totals add up to the number of rows. |
| `Grouping.GroupRowsTallies` | schedules.py:113-125 | Every group holds the reference tally of its key, counts at least one row, and is consistent. |
| `Records.ColSub` | schedules.py:7-8 | The difference added back to the subtrahend gives the minuend. It is non-negative iff the subtrahend is at most the minuend. |
| `Records.ColDiv` | schedules.py:11-13 | A zero divisor yields 0. Otherwise the result times the divisor is the dividend. A count over a larger count lies in [0, 1]. |
| `Records.Round3` | schedules.py:137-138 | The result is the nearest thousandth of its argument. |
| `Records.Pct` | schedules.py:137-138 | The ratio column is 0 for a zero denominator and otherwise the ratio's nearest thousandth, halves up. It lies in [0, 1000] thousandths whenever 0 <= a <= b. |
| `Records.DisplayRoundTrip` | schedules.py:133-136 | `Display`, the `"W-L"` string of a non-negative win count and any loss count, parses back to the same pair. |
| `Records.WellFormedDisplaysReadBack` | schedules.py:133-136 | The four display strings of a well-formed record parse back to their (wins, losses) pairs. |
| `Records.ToRecord` | schedules.py:126-138 | A record keeps its group's key and sums, and wins plus losses is the total. |
| `Records.ToRecordWellFormed` | schedules.py:126-138 | A group whose sums are consistent yields a well-formed record. Every losses column is the non-negative complement of its wins. Each display string is the decimal `"{}-{}"` rendering of its pair, with no leading zeros. Both ratio columns are correct. |
| `Records.FilterConference` | schedules.py:140 | The filter keeps exactly the records of the given conference, each as many times as it occurs in the input. A conference no record belongs to gives an empty result. |
| `Records.FilterConferenceAppend` | schedules.py:140 | Filtering a concatenation is the concatenation of the filtered parts, so the filter keeps input order. |
| `Ranking.Insert` | schedules.py:141 | Inserting into a ranked sequence keeps it ranked, and the result is a permutation of the input plus the new record. |
| `Ranking.SortRecords` | schedules.py:141 | The result is a permutation of the input, descending on conference win ratio and then on overall win ratio. |
| `Schedules.TeamGames` | schedules.py:88-96 | There are twice as many team rows as completed games. |
| `Schedules.GroupedRecordsFaithful` | schedules.py:98-139 | Every record before the conference filter is the derivation of the reference tally of its (team, conference) key. It is well formed and counts at least one game. |
| `Schedules.GroupedRecordsKeys` | schedules.py:113-125 | There is one record per (team, conference) pair of the team rows, with no duplicates. |
| `Schedules.RowKeyRecorded` | schedules.py:98-139 | Every (team, conference) key of the team rows has a record, derived from the reference tally of that key. |
| `Schedules.GroupedTotalGames` | schedules.py:98-125 | Summed over all records, `total_games` is twice the number of completed games. |
| `Schedules.ConferenceStandingsCorrect` | schedules.py:140-141 | The standings of a conference are a permutation of exactly that conference's records, ranked descending on the two ratios. Every member is well formed, and no (team, conference) key appears twice. |
| `Schedules.StandingsDistinctKeys` | schedules.py:113-141 | No (team, conference) key appears twice in a conference's standings. |
| `Schedules.SeasonRecords` | schedules.py:34-141 | The published standings are ranked descending on the two ratios and hold one record per key. Every record is of conference 10, well formed, and among the grouped records, and every grouped record of conference 10 is published. |
| `Schedules.AbsentConferenceEmpty` | schedules.py:140 | A conference no completed game involves has empty standings. |
| `Schedules.IncompleteGameIgnored` | schedules.py:34-35 | An incomplete game, inserted anywhere, leaves the grouped records unchanged. |
| `Schedules.IncompleteGameKeepsStandings` | schedules.py:34-35 | An incomplete game, inserted anywhere, leaves the published standings unchanged. |
| `SchedulesExample.SeasonTeamRows` | schedules.py:46-96 | A two-game season pivots to its four team rows. |
| `SchedulesExample.Team100Tally` | schedules.py:104-125 | In the two-game season, team 100's rows sum to one win in two games, one home win and one conference win. |
| `SchedulesExample.Team100Published` | schedules.py:34-141 | The standings of the two-game season contain team 100's record: 1-1 overall, 1-0 at home, 0-1 on the road, 1-0 in conference, ratios 500 and 1000. |
| `SchedulesExample.Team100Record` | schedules.py:126-138 | Worked record: a 1-1 team with a home conference win and a road non-conference loss has displays "1-1", "1-0", "0-1" and "1-0", a win ratio of 500 and a conference ratio of 1000. |
| `Decimal.IntToString` | schedules.py:133-136 | The decimal text of an integer is a non-empty digit string without a leading zero, after a `-` sign for negative values. |
| `Decimal.IntToStringRoundTrip` | schedules.py:133-136 | The decimal text of any integer parses back to that integer. |
| `Scoreboard.AssignSlot` | scoreboard.py:42-52 | A competitor tagged "home" overwrites the home slot with its team id and score. One tagged "away" overwrites the away slot. Any other slot stays unchanged. |
| `Scoreboard.ScanFromSlot` | scoreboard.py:36-52 | After `ScanFrom`, the scan over the competitors, each side's slot holds the team id and score of the last competitor tagged for that side. With no such competitor it keeps its initial value. |
| `Scoreboard.ScanFromAppend` | scoreboard.py:42-52 | Scanning a concatenation scans one part after the other. |
| `Scoreboard.UntaggedCompetitorIgnored` | scoreboard.py:47-52 | A competitor tagged neither "home" nor "away", wherever it appears, changes no slot. |
| `Scoreboard.Period` | scoreboard.py:33-55 | The period is present iff the status and its period are present, and then it equals that period. |
| `Scoreboard.StatusText` | scoreboard.py:56-57 | The status text is the short detail when present. Otherwise it is the description when present. Otherwise, including when the status or its type is absent, it is the empty string. |
| `Scoreboard.CompetitionRow` | scoreboard.py:31-67 | A competition's row carries the event id, the period and the status text. Home and away hold the last competitor tagged for each side, or null when none is. |
| `Scoreboard.TeamlessCompetitorNullId` | scoreboard.py:43-52 | When the last competitor tagged for a side has no team object, that side's team id is null and its score is still taken. |
| `Scoreboard.EventRows` | scoreboard.py:29-31 | An event yields one row per competition, in list order, each with the event's id. A missing competitions key yields none. |
| `Scoreboard.EventsRowsAppend` | scoreboard.py:28-31 | The rows of concatenated event lists are the concatenated rows, and the competition counts add. |
| `Scoreboard.EventsRowsCount` | scoreboard.py:28-31 | The number of rows is the total number of competitions. |
| `Scoreboard.RowPosition` | scoreboard.py:28-67 | Competition j of event e is the row right after the competitions of the earlier events, so rows come in event-then-competition order. |
| `Scoreboard.ParseScoreboard` | scoreboard.py:26-69 | There is one row per competition of every event. Each row carries the id of one of the events. A document with no events key yields no rows. |
| `Scoreboard.RowsCarryEventIds` | scoreboard.py:28-29 | Every row's game id is the id of one of the events. |
| `Scoreboard.StatusTextExamples` | scoreboard.py:56-57 | Worked status texts: "Final" when both texts exist, "Game Ended" when only the description exists, and "" when neither does or the status is absent. |

## Left out

- **Fetching and writing.** The model leaves out the HTTP fetches and the parquet reading in both pipelines, and the JSON output file. The schedule and the scoreboard document are inputs, and the result is the returned value. The URL constants and the sport list are not modelled; the per-sport loop runs the same pipeline once per schedule.
- **JSON parsing.** Leaf values are typed: ids, scores and texts are strings, and the period is an integer.
- **Explicit JSON null.** A key present with the value null is not distinguished from an absent key. For object-valued keys the source would fail on a null (`.get` on `None`), and the model does not represent that failure.
- **`api.py`.** This module serves the generated files and is not part of this model.
- **Polars nulls.** A null id, conference or winner flag in the schedule is not modelled: fields are plain `int`/`bool`. The winner flags and the completed flag are taken as non-null booleans.
- **Integer widths.** The `Int8` indicator casts and the integer widths of the summed and counted columns are not modelled. Sums are unbounded integers, and a season never comes near those limits.
- Records.Round3: rounds the exact real ratio to the nearest thousandth, halves up. The source rounds an IEEE-754 double, so at or just around a half-thousandth it may differ by one thousandth.
- Grouping.GroupRowsSummarize: Polars' group_by returns groups in an unspecified order. The model fixes first-occurrence order and states its properties without depending on it.
- Ranking.SortRecords: Polars' sort does not promise an order among records tied on both keys. The contract states only ranking and permutation and leaves ties unordered, and the insertion sort is one admissible order.
- **Nulls in the sort.** Where Polars places nulls in the sort is not modelled: the model has no null ratios.
- **Scoreboard URL.** The model follows `parse_scoreboard` in scoreboard.py, whose URL is fixed.
- **End-to-end example.** For the two-game season, `SchedulesExample.Team100Published` proves that one record is published: team 100's. The full ranked list of that season, including team 200's record, is not evaluated.
