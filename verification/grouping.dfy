/**
 * Grouping of the team rows by (team, conference) with the indicator columns
 * summed per group: a left fold of the rows into an association list whose
 * keys are distinct. Groups appear in the order their key first occurs.
 */
module Grouping {
  import opened Games
  import opened Tally

  /** A grouping key: a team within a conference. */
  datatype Key = Key(teamId: int, conferenceId: int)

  function RowKey(row: TeamGame): Key {
    Key(row.teamId, row.conferenceId)
  }

  /** One output row of the group-by: the key and the summed indicators. */
  datatype Group = Group(teamId: int, conferenceId: int, tally: Tally)

  function GroupKey(g: Group): Key {
    Key(g.teamId, g.conferenceId)
  }

  function Keys(gs: seq<Group>): (ks: seq<Key>)
    ensures |ks| == |gs|
    ensures forall i :: 0 <= i < |gs| ==> ks[i] == GroupKey(gs[i])
  {
    if |gs| == 0 then [] else [GroupKey(gs[0])] + Keys(gs[1..])
  }

  predicate Distinct(ks: seq<Key>) {
    forall i, j :: 0 <= i < j < |ks| ==> ks[i] != ks[j]
  }

  /** Reference definition: the number of rows carrying key k. */
  function CountKey(rows: seq<TeamGame>, k: Key): (n: nat)
    ensures n <= |rows|
  {
    if |rows| == 0 then 0
    else CountKey(rows[..|rows| - 1], k) + (if RowKey(rows[|rows| - 1]) == k then 1 else 0)
  }

  /** A key is counted at least once exactly when some row carries it. */
  lemma {:induction false} CountKeyPositive(rows: seq<TeamGame>, k: Key)
    ensures CountKey(rows, k) >= 1 <==> exists row :: row in rows && RowKey(row) == k
    decreases |rows|
  {
    if |rows| > 0 {
      var init := rows[..|rows| - 1];
      var last := rows[|rows| - 1];
      CountKeyPositive(init, k);
      assert rows == init + [last];
      if CountKey(init, k) >= 1 {
        var row :| row in init && RowKey(row) == k;
        assert row in rows;
      }
    }
  }

  /** Reference definition: the sum of the indicator rows of the rows carrying key k. */
  function TallyOf(rows: seq<TeamGame>, k: Key): (t: Tally)
    ensures t.totalGames == CountKey(rows, k)
  {
    if |rows| == 0 then Zero
    else
      var last := rows[|rows| - 1];
      var before := TallyOf(rows[..|rows| - 1], k);
      if RowKey(last) == k then Add(before, Indicators(last)) else before
  }

  /** Every reference sum satisfies the indicator relations. */
  lemma {:induction false} TallyOfConsistent(rows: seq<TeamGame>, k: Key)
    ensures Consistent(TallyOf(rows, k))
    decreases |rows|
  {
    if |rows| == 0 {
      ZeroConsistent();
    } else {
      var init := rows[..|rows| - 1];
      var last := rows[|rows| - 1];
      TallyOfConsistent(init, k);
      if RowKey(last) == k {
        IndicatorsConsistent(last);
        AddConsistent(TallyOf(init, k), Indicators(last));
        assert TallyOf(rows, k) == Add(TallyOf(init, k), Indicators(last));
      } else {
        assert TallyOf(rows, k) == TallyOf(init, k);
      }
    }
  }

  /** The reference sum of a single row. */
  lemma TallyOfSingleton(row: TeamGame, k: Key)
    ensures TallyOf([row], k) == if RowKey(row) == k then Indicators(row) else Zero
  {
    assert [row][..0] == [];
    AddZero(Indicators(row));
  }

  /** Appending a row adds its indicators to the reference sum of its own key only. */
  lemma TallyOfSnoc(rows: seq<TeamGame>, row: TeamGame, k: Key)
    ensures TallyOf(rows + [row], k) == if RowKey(row) == k then Add(TallyOf(rows, k), Indicators(row)) else TallyOf(rows, k)
  {
    assert (rows + [row])[..|rows|] == rows;
  }

  /** The tally stored under key k, or the zero tally when k has no group. */
  function Lookup(gs: seq<Group>, k: Key): Tally {
    if |gs| == 0 then Zero
    else if GroupKey(gs[0]) == k then gs[0].tally
    else Lookup(gs[1..], k)
  }

  /** One fold step: add the row's indicators to its group, opening the group if needed. */
  function AddRow(gs: seq<Group>, row: TeamGame): seq<Group> {
    if |gs| == 0 then [Group(row.teamId, row.conferenceId, Indicators(row))]
    else if GroupKey(gs[0]) == RowKey(row) then [gs[0].(tally := Add(gs[0].tally, Indicators(row)))] + gs[1..]
    else [gs[0]] + AddRow(gs[1..], row)
  }

  /** The group-by with summed columns: a fold of AddRow over the rows. */
  function GroupRows(rows: seq<TeamGame>): seq<Group> {
    if |rows| == 0 then [] else AddRow(GroupRows(rows[..|rows| - 1]), rows[|rows| - 1])
  }

  /** The sum of the total_games column over all groups. */
  function SumTotals(gs: seq<Group>): int {
    if |gs| == 0 then 0 else gs[0].tally.totalGames + SumTotals(gs[1..])
  }

  lemma {:induction false} AddRowKeys(gs: seq<Group>, row: TeamGame)
    ensures Keys(AddRow(gs, row)) == if RowKey(row) in Keys(gs) then Keys(gs) else Keys(gs) + [RowKey(row)]
    decreases |gs|
  {
    if |gs| > 0 && GroupKey(gs[0]) != RowKey(row) {
      AddRowKeys(gs[1..], row);
      assert Keys(gs) == [GroupKey(gs[0])] + Keys(gs[1..]);
      assert AddRow(gs, row)[1..] == AddRow(gs[1..], row);
    } else if |gs| > 0 {
      assert AddRow(gs, row)[1..] == gs[1..];
    }
  }

  lemma {:induction false} AddRowLookup(gs: seq<Group>, row: TeamGame, k: Key)
    ensures Lookup(AddRow(gs, row), k)
         == if k == RowKey(row) then Add(Lookup(gs, k), Indicators(row)) else Lookup(gs, k)
    decreases |gs|
  {
    var r := AddRow(gs, row);
    if |gs| == 0 {
      AddZero(Indicators(row));
    } else if GroupKey(gs[0]) == RowKey(row) {
      assert r[1..] == gs[1..];
    } else {
      assert r[1..] == AddRow(gs[1..], row);
      AddRowLookup(gs[1..], row, k);
    }
  }

  lemma SumTotalsCons(g: Group, rest: seq<Group>)
    ensures SumTotals([g] + rest) == g.tally.totalGames + SumTotals(rest)
  {
    assert ([g] + rest)[1..] == rest;
  }

  lemma {:induction false} AddRowSum(gs: seq<Group>, row: TeamGame)
    ensures SumTotals(AddRow(gs, row)) == SumTotals(gs) + 1
    decreases |gs|
  {
    if |gs| == 0 {
      SumTotalsCons(Group(row.teamId, row.conferenceId, Indicators(row)), []);
    } else {
      SumTotalsCons(gs[0], gs[1..]);
      assert gs == [gs[0]] + gs[1..];
      if GroupKey(gs[0]) == RowKey(row) {
        SumTotalsCons(gs[0].(tally := Add(gs[0].tally, Indicators(row))), gs[1..]);
      } else {
        AddRowSum(gs[1..], row);
        SumTotalsCons(gs[0], AddRow(gs[1..], row));
      }
    }
  }

  /** With distinct keys, looking up a group's own key finds that group. */
  lemma {:induction false} LookupDistinct(gs: seq<Group>, i: nat)
    requires Distinct(Keys(gs))
    requires i < |gs|
    ensures Lookup(gs, GroupKey(gs[i])) == gs[i].tally
    decreases i
  {
    if i > 0 {
      assert Keys(gs)[0] != Keys(gs)[i];
      assert Keys(gs[1..]) == Keys(gs)[1..];
      LookupDistinct(gs[1..], i - 1);
    }
  }

  /**
   * The grouping summarises the rows: its keys are distinct and are exactly
   * the keys of the rows, the tally under every key is the reference sum of
   * that key's indicator rows, and the group totals add up to the row count.
   */
  lemma {:induction false} GroupRowsSummarize(rows: seq<TeamGame>)
    ensures Distinct(Keys(GroupRows(rows)))
    ensures forall row :: row in rows ==> RowKey(row) in Keys(GroupRows(rows))
    ensures forall k :: k in Keys(GroupRows(rows)) ==> CountKey(rows, k) >= 1
    ensures forall k :: Lookup(GroupRows(rows), k) == TallyOf(rows, k)
    ensures SumTotals(GroupRows(rows)) == |rows|
    decreases |rows|
  {
    if |rows| > 0 {
      var init := rows[..|rows| - 1];
      var last := rows[|rows| - 1];
      var gs := GroupRows(init);
      GroupRowsSummarize(init);
      AddRowKeys(gs, last);
      AddRowSum(gs, last);
      forall k ensures Lookup(GroupRows(rows), k) == TallyOf(rows, k) {
        AddRowLookup(gs, last, k);
      }
      forall row | row in rows ensures RowKey(row) in Keys(GroupRows(rows)) {
        if row != last {
          assert row in init;
        }
      }
      forall k | k in Keys(GroupRows(rows)) ensures CountKey(rows, k) >= 1 {
        if k !in Keys(gs) {
          assert k == RowKey(last);
        } else {
          assert CountKey(init, k) >= 1;
          assert rows[..|rows| - 1] == init;
        }
      }
    }
  }

  /**
   * Every group of the grouping holds the reference tally of its key, counts
   * at least one row, and satisfies the indicator relations.
   */
  lemma GroupRowsTallies(rows: seq<TeamGame>)
    ensures forall g :: g in GroupRows(rows) ==>
      && g.tally == TallyOf(rows, GroupKey(g))
      && g.tally.totalGames == CountKey(rows, GroupKey(g)) >= 1
      && Consistent(g.tally)
  {
    var gs := GroupRows(rows);
    GroupRowsSummarize(rows);
    forall g | g in gs
      ensures g.tally == TallyOf(rows, GroupKey(g)) && CountKey(rows, GroupKey(g)) >= 1
      ensures Consistent(g.tally)
    {
      var i :| 0 <= i < |gs| && gs[i] == g;
      LookupDistinct(gs, i);
      TallyOfConsistent(rows, GroupKey(g));
      assert GroupKey(g) in Keys(gs);
    }
  }
}
