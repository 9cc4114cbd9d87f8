/**
 * Ordering of the season records: descending on conference win ratio, then
 * on overall win ratio. Records tied on both keys may come in any order.
 */
module Ranking {
  import opened Records

  /** a may precede b: a's (conference ratio, overall ratio) is lexicographically at least b's. */
  predicate RanksBefore(a: TeamRecord, b: TeamRecord) {
    a.confWinPct > b.confWinPct || (a.confWinPct == b.confWinPct && a.winPct >= b.winPct)
  }

  predicate Ranked(s: seq<TeamRecord>) {
    forall i, j :: 0 <= i < j < |s| ==> RanksBefore(s[i], s[j])
  }

  /** Inserts x into a ranked sequence, before the first record x may precede. */
  function Insert(x: TeamRecord, s: seq<TeamRecord>): (r: seq<TeamRecord>)
    requires Ranked(s)
    ensures Ranked(r)
    ensures multiset(r) == multiset(s) + multiset{x}
  {
    if |s| == 0 then [x]
    else if RanksBefore(x, s[0]) then [x] + s
    else
      var tail := Insert(x, s[1..]);
      HeadStaysFirst(x, s, tail);
      [s[0]] + tail
  }

  /** When x may not precede the head, the head ranks before every record of the insertion into the tail. */
  lemma HeadStaysFirst(x: TeamRecord, s: seq<TeamRecord>, tail: seq<TeamRecord>)
    requires Ranked(s) && |s| > 0 && !RanksBefore(x, s[0])
    requires Ranked(tail) && multiset(tail) == multiset(s[1..]) + multiset{x}
    ensures Ranked([s[0]] + tail)
    ensures multiset([s[0]] + tail) == multiset(s) + multiset{x}
  {
    forall j | 0 <= j < |tail| ensures RanksBefore(s[0], tail[j]) {
      assert tail[j] in multiset(tail);
      if tail[j] != x {
        assert tail[j] in multiset(s[1..]);
        var k :| 1 <= k < |s| && s[k] == tail[j];
      }
    }
    assert s == [s[0]] + s[1..];
  }

  /** Insertion sort of the records into ranking order. */
  function SortRecords(s: seq<TeamRecord>): (r: seq<TeamRecord>)
    ensures Ranked(r)
    ensures multiset(r) == multiset(s)
  {
    if |s| == 0 then []
    else
      assert s == [s[0]] + s[1..];
      Insert(s[0], SortRecords(s[1..]))
  }
}
