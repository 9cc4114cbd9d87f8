/**
 * The season-record pipeline of one sport, stage by stage: completed games,
 * team rows, groups by (team, conference), derived records, the target
 * conference, ranking order.
 */
module Schedules {
  import opened Games
  import opened Tally
  import opened Grouping
  import opened Records
  import opened Ranking

  /** The conference whose standings are published. */
  const CaaConfId := 10

  /** The team rows of a schedule: both perspectives of every completed game. */
  function TeamGames(schedule: seq<RawGame>): (rows: seq<TeamGame>)
    ensures |rows| == 2 * |CompletedGames(schedule)|
  {
    Pivot(CompletedGames(schedule))
  }

  /** The derived record of every group, in group order. */
  function ToRecords(gs: seq<Group>): (recs: seq<TeamRecord>)
    ensures |recs| == |gs|
  {
    seq(|gs|, i requires 0 <= i < |gs| => ToRecord(gs[i]))
  }

  /** The records of every (team, conference) pair, before the conference filter. */
  function GroupedRecords(schedule: seq<RawGame>): seq<TeamRecord> {
    ToRecords(GroupRows(TeamGames(schedule)))
  }

  /** The ranked records of one conference. */
  function ConferenceStandings(schedule: seq<RawGame>, conf: int): seq<TeamRecord> {
    SortRecords(FilterConference(GroupedRecords(schedule), conf))
  }

  /**
   * The published standings: every well-formed record of the target
   * conference, one per team, ranked on the two ratios.
   */
  function SeasonRecords(schedule: seq<RawGame>): (recs: seq<TeamRecord>)
    ensures Ranked(recs)
    ensures DistinctKeys(recs)
    ensures forall rec :: rec in recs ==>
      rec.conferenceId == CaaConfId && WellFormed(rec) && rec in GroupedRecords(schedule)
    ensures forall rec :: rec in GroupedRecords(schedule) && rec.conferenceId == CaaConfId ==> rec in recs
  {
    ConferenceStandingsCorrect(schedule, CaaConfId);
    ConferenceStandings(schedule, CaaConfId)
  }

  function RecordKey(rec: TeamRecord): Key {
    Key(rec.teamId, rec.conferenceId)
  }

  /** No two records of the sequence share a (team, conference) key. */
  predicate DistinctKeys(recs: seq<TeamRecord>) {
    forall i, j :: 0 <= i < j < |recs| ==> RecordKey(recs[i]) != RecordKey(recs[j])
  }

  /** A record that appears at two positions occurs at least twice in the multiset. */
  lemma RepeatCountsTwice(s: seq<TeamRecord>, i: int, j: int)
    requires 0 <= i < j < |s| && s[i] == s[j]
    ensures multiset(s)[s[i]] >= 2
  {
    assert s == s[..j] + s[j..];
    assert s[i] in s[..j];
    assert s[j] in s[j..];
  }

  /** With distinct keys every record occurs at most once. */
  lemma {:induction false} KeyOccursOnce(s: seq<TeamRecord>, x: TeamRecord)
    requires DistinctKeys(s)
    ensures multiset(s)[x] <= 1
    decreases |s|
  {
    if |s| > 0 {
      assert s == [s[0]] + s[1..];
      assert DistinctKeys(s[1..]) by {
        forall i, j | 0 <= i < j < |s[1..]| ensures RecordKey(s[1..][i]) != RecordKey(s[1..][j]) {
          assert s[1..][i] == s[i + 1] && s[1..][j] == s[j + 1];
        }
      }
      KeyOccursOnce(s[1..], x);
      if s[0] == x {
        assert x !in s[1..] by {
          forall k | 0 <= k < |s[1..]| ensures s[1..][k] != x {
            assert RecordKey(s[0]) != RecordKey(s[k + 1]);
          }
        }
      }
    }
  }

  /** A sub-bag of records with distinct keys has distinct keys, whatever its order. */
  lemma SubBagDistinctKeys(recs: seq<TeamRecord>, out: seq<TeamRecord>)
    requires DistinctKeys(recs)
    requires multiset(out) <= multiset(recs)
    ensures DistinctKeys(out)
  {
    forall i, j | 0 <= i < j < |out| ensures out[i] != out[j] {
      if out[i] == out[j] {
        RepeatCountsTwice(out, i, j);
        KeyOccursOnce(recs, out[i]);
      }
    }
    forall i, j | 0 <= i < j < |out| ensures RecordKey(out[i]) != RecordKey(out[j]) {
      assert out[i] in multiset(recs) && out[j] in multiset(recs);
      var a :| 0 <= a < |recs| && recs[a] == out[i];
      var b :| 0 <= b < |recs| && recs[b] == out[j];
      if a < b {
        assert RecordKey(recs[a]) != RecordKey(recs[b]);
      } else {
        assert RecordKey(recs[b]) != RecordKey(recs[a]);
      }
    }
  }

  function SumRecordTotals(recs: seq<TeamRecord>): int {
    if |recs| == 0 then 0 else recs[0].totalGames + SumRecordTotals(recs[1..])
  }

  lemma {:induction false} SumRecordTotalsOfGroups(gs: seq<Group>)
    ensures SumRecordTotals(ToRecords(gs)) == SumTotals(gs)
    decreases |gs|
  {
    if |gs| > 0 {
      assert ToRecords(gs)[1..] == ToRecords(gs[1..]);
      SumRecordTotalsOfGroups(gs[1..]);
    }
  }

  /** The record derived from one group of the grouping. */
  lemma RecordOfGroup(rows: seq<TeamGame>, g: Group)
    requires g in GroupRows(rows)
    ensures var rec := ToRecord(g);
      && rec == ToRecord(Group(rec.teamId, rec.conferenceId, TallyOf(rows, RecordKey(rec))))
      && WellFormed(rec)
      && CountsOf(rec) == TallyOf(rows, RecordKey(rec))
      && rec.totalGames == CountKey(rows, RecordKey(rec)) >= 1
  {
    GroupRowsTallies(rows);
    ToRecordWellFormed(g);
    assert RecordKey(ToRecord(g)) == GroupKey(g);
  }

  /**
   * Every record before the conference filter is the derivation of the
   * reference tally of its (team, conference) key, is well formed, and
   * counts at least one team row.
   */
  lemma GroupedRecordsFaithful(schedule: seq<RawGame>)
    ensures forall rec :: rec in GroupedRecords(schedule) ==>
      && rec == ToRecord(Group(rec.teamId, rec.conferenceId, TallyOf(TeamGames(schedule), RecordKey(rec))))
      && WellFormed(rec)
      && CountsOf(rec) == TallyOf(TeamGames(schedule), RecordKey(rec))
      && rec.totalGames == CountKey(TeamGames(schedule), RecordKey(rec)) >= 1
  {
    var rows := TeamGames(schedule);
    var gs := GroupRows(rows);
    var recs := GroupedRecords(schedule);
    forall rec | rec in recs
      ensures rec == ToRecord(Group(rec.teamId, rec.conferenceId, TallyOf(rows, RecordKey(rec))))
      ensures WellFormed(rec) && CountsOf(rec) == TallyOf(rows, RecordKey(rec))
      ensures rec.totalGames == CountKey(rows, RecordKey(rec)) >= 1
    {
      var i :| 0 <= i < |recs| && recs[i] == rec;
      RecordOfGroup(rows, gs[i]);
    }
  }

  /** There is exactly one record per (team, conference) key of the team rows. */
  lemma GroupedRecordsKeys(schedule: seq<RawGame>)
    ensures DistinctKeys(GroupedRecords(schedule))
    ensures forall row :: row in TeamGames(schedule) ==>
      exists rec :: rec in GroupedRecords(schedule) && RecordKey(rec) == RowKey(row)
  {
    var rows := TeamGames(schedule);
    var gs := GroupRows(rows);
    var recs := GroupedRecords(schedule);
    GroupRowsSummarize(rows);
    forall i, j | 0 <= i < j < |recs| ensures RecordKey(recs[i]) != RecordKey(recs[j]) {
      assert Keys(gs)[i] != Keys(gs)[j];
    }
    forall row | row in rows ensures exists rec :: rec in recs && RecordKey(rec) == RowKey(row) {
      var i :| 0 <= i < |gs| && Keys(gs)[i] == RowKey(row);
      assert recs[i] in recs;
    }
  }

  /** Every (team, conference) key of the team rows has the record derived from its reference tally. */
  lemma RowKeyRecorded(schedule: seq<RawGame>, row: TeamGame)
    requires row in TeamGames(schedule)
    ensures ToRecord(Group(row.teamId, row.conferenceId, TallyOf(TeamGames(schedule), RowKey(row))))
         in GroupedRecords(schedule)
  {
    GroupedRecordsKeys(schedule);
    GroupedRecordsFaithful(schedule);
    var rec :| rec in GroupedRecords(schedule) && RecordKey(rec) == RowKey(row);
  }

  /** Summed over all groups, total_games is twice the number of completed games. */
  lemma GroupedTotalGames(schedule: seq<RawGame>)
    ensures SumRecordTotals(GroupedRecords(schedule)) == 2 * |CompletedGames(schedule)|
  {
    var rows := TeamGames(schedule);
    GroupRowsSummarize(rows);
    SumRecordTotalsOfGroups(GroupRows(rows));
  }

  /**
   * The standings of a conference hold exactly the well-formed records of that
   * conference, ranked by (conference ratio, overall ratio) descending.
   */
  lemma ConferenceStandingsCorrect(schedule: seq<RawGame>, conf: int)
    ensures Ranked(ConferenceStandings(schedule, conf))
    ensures multiset(ConferenceStandings(schedule, conf))
         == multiset(FilterConference(GroupedRecords(schedule), conf))
    ensures forall rec :: rec in ConferenceStandings(schedule, conf) ==>
      rec.conferenceId == conf && WellFormed(rec) && rec in GroupedRecords(schedule)
    ensures forall rec :: rec in GroupedRecords(schedule) && rec.conferenceId == conf ==>
      rec in ConferenceStandings(schedule, conf)
    ensures DistinctKeys(ConferenceStandings(schedule, conf))
  {
    var filtered := FilterConference(GroupedRecords(schedule), conf);
    var out := ConferenceStandings(schedule, conf);
    StandingsDistinctKeys(schedule, conf);
    GroupedRecordsFaithful(schedule);
    forall rec | rec in out ensures rec in filtered {
      assert rec in multiset(out);
    }
    forall rec | rec in filtered ensures rec in out {
      assert rec in multiset(filtered);
    }
  }

  /** Each (team, conference) key appears at most once in a conference's standings. */
  lemma StandingsDistinctKeys(schedule: seq<RawGame>, conf: int)
    ensures DistinctKeys(ConferenceStandings(schedule, conf))
  {
    var recs := GroupedRecords(schedule);
    var filtered := FilterConference(recs, conf);
    GroupedRecordsKeys(schedule);
    assert multiset(filtered) <= multiset(recs);
    SubBagDistinctKeys(recs, ConferenceStandings(schedule, conf));
  }

  /** A conference no completed game involves has empty standings, not an error. */
  lemma AbsentConferenceEmpty(schedule: seq<RawGame>, conf: int)
    requires forall g :: g in CompletedGames(schedule) ==>
      g.homeConferenceId != conf && g.awayConferenceId != conf
    ensures ConferenceStandings(schedule, conf) == []
  {
    var games := CompletedGames(schedule);
    var rows := TeamGames(schedule);
    GroupedRecordsFaithful(schedule);
    forall rec | rec in GroupedRecords(schedule) ensures rec.conferenceId != conf {
      var k := RecordKey(rec);
      CountKeyPositive(rows, k);
      var row :| row in rows && RowKey(row) == k;
      PivotRowsFromGames(games, row);
    }
    assert FilterConference(GroupedRecords(schedule), conf) == [];
  }

  /** A game that is not completed changes no record, wherever it appears. */
  lemma IncompleteGameIgnored(a: seq<RawGame>, g: RawGame, b: seq<RawGame>)
    requires !g.statusTypeCompleted
    ensures GroupedRecords(a + [g] + b) == GroupedRecords(a + b)
  {
    IncompleteGameDropped(a, g, b);
  }

  /** Nor does it change the published standings. */
  lemma IncompleteGameKeepsStandings(a: seq<RawGame>, g: RawGame, b: seq<RawGame>)
    requires !g.statusTypeCompleted
    ensures SeasonRecords(a + [g] + b) == SeasonRecords(a + b)
  {
    IncompleteGameIgnored(a, g, b);
  }

}

module SchedulesExample {
  import opened Games
  import opened Tally
  import opened Grouping
  import opened Decimal
  import opened Records
  import opened Schedules

  /**
   * Team 100 beats team 200 at home (both in conference 10), then loses away
   * to team 300 (conference 7).
   */
  const Season := [RawGame(1, 100, 200, true, false, 10, 10, true),
                   RawGame(2, 300, 100, true, false, 7, 10, true)]

  /** The pivot of the season: both home rows, then both away rows. */
  const SeasonRows := [TeamGame(1, 100, 200, true, true, 10, 10),
                       TeamGame(2, 300, 100, true, true, 7, 10),
                       TeamGame(1, 200, 100, false, false, 10, 10),
                       TeamGame(2, 100, 300, false, false, 10, 7)]

  /** The indicator rows of team 100's two games: a home conference win and a road non-conference loss. */
  const HomeConfWin := Tally(1, 1, 0, 1, 1, 0, 1, 1)
  const RoadLoss := Tally(0, 0, 0, 0, 0, 1, 0, 1)

  /** Team 100's group: one win in two games, one home win, one conference win. */
  const Team100 := Group(100, 10, Tally(1, 1, 0, 1, 1, 1, 1, 2))

  lemma SeasonTeamRows()
    ensures TeamGames(Season) == SeasonRows
  {
    assert CompletedGames(Season[1..]) == Season[1..];
    assert CompletedGames(Season) == Season;
  }

  /** Team 100's derived record: 1-1 overall, 1-0 at home, 0-1 on the road, 1-0 in conference, ratios 0.500 and 1.000. */
  lemma Team100Record()
    ensures ToRecord(Team100) == TeamRecord(100, 10, 1, 1, 0, 1, 1, 1, 1, 2, 1, 0, 1, 0,
                                            "1-1", "1-0", "0-1", "1-0", 500, 1000)
  {
    assert IntToString(0) == "0" && IntToString(1) == "1";
    assert Display(1, 1) == "1-1" && Display(1, 0) == "1-0" && Display(0, 1) == "0-1";
    assert Pct(1, 2) == 500 by {
      assert ColDiv(1, 2) == 0.5;
      assert (1000.0 * 0.5 + 0.5).Floor == 500;
    }
    assert Pct(1, 1) == 1000 by {
      assert ColDiv(1, 1) == 1.0;
      assert (1000.0 * 1.0 + 0.5).Floor == 1000;
    }
    assert ToRecord(Team100) == MakeRecord(Team100, 1, 0, 1, 0);
  }

  /** The sum of four rows of which only the first and the last carry the key. */
  lemma FourRowTally(a: TeamGame, b: TeamGame, c: TeamGame, d: TeamGame, k: Key)
    requires RowKey(a) == k && RowKey(b) != k && RowKey(c) != k && RowKey(d) == k
    ensures TallyOf([a, b, c, d], k) == Add(Indicators(a), Indicators(d))
  {
    var r := [a, b, c, d];
    assert r[..1] == [a];
    assert r[..2] == r[..1] + [b];
    assert r[..3] == r[..2] + [c];
    assert r == r[..3] + [d];
    TallyOfSingleton(a, k);
    TallyOfSnoc(r[..1], b, k);
    TallyOfSnoc(r[..2], c, k);
    TallyOfSnoc(r[..3], d, k);
  }

  lemma Team100Indicators()
    ensures Indicators(SeasonRows[0]) == HomeConfWin
    ensures Indicators(SeasonRows[3]) == RoadLoss
  {
  }

  /** Summing team 100's two indicator rows gives its group's tally. */
  lemma Team100Sum(win: Tally, loss: Tally)
    requires win == HomeConfWin && loss == RoadLoss
    ensures Add(win, loss) == Team100.tally
  {
  }

  /** Team 100's group is the reference sum of its rows in the season. */
  lemma Team100Tally()
    ensures TallyOf(SeasonRows, Key(100, 10)) == Team100.tally
  {
    var r := SeasonRows;
    FourRowTally(r[0], r[1], r[2], r[3], Key(100, 10));
    Team100Indicators();
    Team100Sum(Indicators(r[0]), Indicators(r[3]));
    assert r == [r[0], r[1], r[2], r[3]];
  }

  lemma Team100Recorded(schedule: seq<RawGame>)
    requires TeamGames(schedule) == SeasonRows
    ensures ToRecord(Team100) in SeasonRecords(schedule)
  {
    Team100Tally();
    RowKeyRecorded(schedule, SeasonRows[0]);
  }

  /** The season's published standings list team 100 as 1-1 with ratios 0.500 and 1.000. */
  lemma Team100Published()
    ensures TeamRecord(100, 10, 1, 1, 0, 1, 1, 1, 1, 2, 1, 0, 1, 0,
                       "1-1", "1-0", "0-1", "1-0", 500, 1000) in SeasonRecords(Season)
  {
    SeasonTeamRows();
    Team100Recorded(Season);
    Team100Record();
  }
}
