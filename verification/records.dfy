/**
 * Per-team season records derived from the grouped indicator sums: losses as
 * complements, "W-L" display strings, rounded win ratios, and the filter to
 * one conference.
 */
module Records {
  import opened Wrappers
  import opened Decimal
  import opened Tally
  import opened Grouping

  /** Column subtraction: the difference of two integer columns. */
  function ColSub(a: int, b: int): (r: int)
    ensures r + b == a
    ensures r >= 0 <==> b <= a
  {
    a - b
  }

  /** Column division that yields 0 instead of failing when the divisor is 0. */
  function ColDiv(a: int, b: int): (r: real)
    ensures b == 0 ==> r == 0.0
    ensures b != 0 ==> r * (b as real) == a as real
    ensures 0 <= a <= b ==> 0.0 <= r <= 1.0
  {
    if b == 0 then 0.0 else (a as real) / (b as real)
  }

  /**
   * Rounding to three decimals, kept as an integer number of thousandths:
   * the nearest thousandth, halves rounded up.
   */
  function Round3(x: real): (k: int)
    ensures (k as real) - 0.5 <= 1000.0 * x < (k as real) + 0.5
  {
    (1000.0 * x + 0.5).Floor
  }

  /** `p` thousandths is the ratio a/b rounded to the nearest thousandth, halves up. */
  predicate NearestThousandths(p: int, a: int, b: int)
    requires b != 0
  {
    (p as real) - 0.5 <= 1000.0 * ((a as real) / (b as real)) < (p as real) + 0.5
  }

  /** The rounded ratio column: a/b in thousandths, 0 when b is 0. */
  function Pct(a: int, b: int): (p: int)
    ensures b == 0 ==> p == 0
    ensures b != 0 ==> NearestThousandths(p, a, b)
    ensures 0 <= a <= b ==> 0 <= p <= 1000
  {
    var k := Round3(ColDiv(a, b));
    assert 0 <= a <= b ==> 0.0 <= 1000.0 * ColDiv(a, b) <= 1000.0;
    k
  }

  /** The "{}-{}" display string of a pair of counts. */
  function Display(w: int, l: int): string {
    IntToString(w) + "-" + IntToString(l)
  }

  /** The index of the first '-' in s, if any. */
  function FirstDash(s: string): (r: Option<nat>)
    ensures r.Some? ==> r.value < |s| && s[r.value] == '-'
    ensures r.Some? ==> forall i :: 0 <= i < r.value ==> s[i] != '-'
    ensures r.None? ==> forall i :: 0 <= i < |s| ==> s[i] != '-'
  {
    if |s| == 0 then None
    else if s[0] == '-' then Some(0)
    else match FirstDash(s[1..])
      case None => None
      case Some(i) => Some(i + 1)
  }

  lemma {:induction false} FirstDashAfterDigits(a: string, rest: string)
    requires AllDigits(a)
    ensures FirstDash(a + "-" + rest) == Some(|a|)
    decreases |a|
  {
    if |a| > 0 {
      assert (a + "-" + rest)[1..] == a[1..] + "-" + rest;
      FirstDashAfterDigits(a[1..], rest);
    }
  }

  /** Reads a display string back into its two counts, splitting at the first '-'. */
  function ParseDisplay(s: string): Option<(int, int)> {
    match FirstDash(s)
    case None => None
    case Some(i) =>
      match (ParseInt(s[..i]), ParseInt(s[i + 1..]))
      case (Some(w), Some(l)) => Some((w, l))
      case _ => None
  }

  /** A display string of a non-negative win count reads back as the same pair. */
  lemma DisplayRoundTrip(w: int, l: int)
    requires w >= 0
    ensures ParseDisplay(Display(w, l)) == Some((w, l))
  {
    var a := IntToString(w);
    var s := Display(w, l);
    FirstDashAfterDigits(a, IntToString(l));
    assert s[..|a|] == a;
    assert s[|a| + 1..] == IntToString(l);
    IntToStringRoundTrip(w);
    IntToStringRoundTrip(l);
  }

  /** One output record of the season standings. Ratios are in thousandths. */
  datatype TeamRecord = TeamRecord(
    teamId: int,
    conferenceId: int,
    wins: int,
    homeWins: int,
    roadWins: int,
    confWins: int,
    homeGames: int,
    roadGames: int,
    confGames: int,
    totalGames: int,
    losses: int,
    homeLosses: int,
    roadLosses: int,
    confLosses: int,
    overallDisplay: string,
    homeDisplay: string,
    roadDisplay: string,
    confDisplay: string,
    winPct: int,
    confWinPct: int)

  /** The summed indicator columns a record carries. */
  function CountsOf(rec: TeamRecord): Tally {
    Tally(rec.wins, rec.homeWins, rec.roadWins, rec.confWins,
          rec.homeGames, rec.roadGames, rec.confGames, rec.totalGames)
  }

  /** A ratio column: 0 for an empty denominator, else the rounded ratio in [0, 1000]. */
  predicate RatioOk(p: int, a: int, b: int) {
    && 0 <= p <= 1000
    && (b == 0 ==> p == 0)
    && (b != 0 ==> NearestThousandths(p, a, b))
  }

  /** Everything a season record promises about its columns. */
  predicate WellFormed(rec: TeamRecord) {
    && Consistent(CountsOf(rec))
    && rec.wins + rec.losses == rec.totalGames
    && rec.homeWins + rec.homeLosses == rec.homeGames
    && rec.roadWins + rec.roadLosses == rec.roadGames
    && rec.confWins + rec.confLosses == rec.confGames
    && rec.homeLosses + rec.roadLosses == rec.losses
    && rec.losses >= 0 && rec.homeLosses >= 0 && rec.roadLosses >= 0 && rec.confLosses >= 0
    && rec.overallDisplay == Display(rec.wins, rec.losses)
    && rec.homeDisplay == Display(rec.homeWins, rec.homeLosses)
    && rec.roadDisplay == Display(rec.roadWins, rec.roadLosses)
    && rec.confDisplay == Display(rec.confWins, rec.confLosses)
    && RatioOk(rec.winPct, rec.wins, rec.totalGames)
    && RatioOk(rec.confWinPct, rec.confWins, rec.confGames)
  }

  /** The display strings of a well-formed record read back as their pairs. */
  lemma WellFormedDisplaysReadBack(rec: TeamRecord)
    requires WellFormed(rec)
    ensures ParseDisplay(rec.overallDisplay) == Some((rec.wins, rec.losses))
    ensures ParseDisplay(rec.homeDisplay) == Some((rec.homeWins, rec.homeLosses))
    ensures ParseDisplay(rec.roadDisplay) == Some((rec.roadWins, rec.roadLosses))
    ensures ParseDisplay(rec.confDisplay) == Some((rec.confWins, rec.confLosses))
  {
    DisplayRoundTrip(rec.wins, rec.losses);
    DisplayRoundTrip(rec.homeWins, rec.homeLosses);
    DisplayRoundTrip(rec.roadWins, rec.roadLosses);
    DisplayRoundTrip(rec.confWins, rec.confLosses);
  }

  /** Derives the losses, display strings and ratios of one group. */
  function ToRecord(g: Group): (rec: TeamRecord)
    ensures rec.teamId == g.teamId && rec.conferenceId == g.conferenceId
    ensures CountsOf(rec) == g.tally
    ensures rec.wins + rec.losses == rec.totalGames
  {
    var t := g.tally;
    MakeRecord(g, ColSub(t.totalGames, t.wins), ColSub(t.homeGames, t.homeWins),
               ColSub(t.roadGames, t.roadWins), ColSub(t.confGames, t.confWins))
  }

  /**
   * A group whose sums satisfy the indicator relations yields a well-formed
   * record: non-negative complements, the display strings of its pairs, and
   * correctly rounded ratios.
   */
  lemma ToRecordWellFormed(g: Group)
    requires Consistent(g.tally)
    ensures WellFormed(ToRecord(g))
  {
    var t := g.tally;
    var rec := ToRecord(g);
    assert rec == MakeRecord(g, t.totalGames - t.wins, t.homeGames - t.homeWins,
                             t.roadGames - t.roadWins, t.confGames - t.confWins);
    assert RatioOk(rec.winPct, rec.wins, rec.totalGames);
    assert RatioOk(rec.confWinPct, rec.confWins, rec.confGames);
  }

  function MakeRecord(g: Group, losses: int, homeLosses: int, roadLosses: int, confLosses: int): TeamRecord {
    var t := g.tally;
    TeamRecord(
      g.teamId, g.conferenceId,
      t.wins, t.homeWins, t.roadWins, t.confWins,
      t.homeGames, t.roadGames, t.confGames, t.totalGames,
      losses, homeLosses, roadLosses, confLosses,
      Display(t.wins, losses), Display(t.homeWins, homeLosses),
      Display(t.roadWins, roadLosses), Display(t.confWins, confLosses),
      Pct(t.wins, t.totalGames), Pct(t.confWins, t.confGames))
  }

  /** The records of one conference, in input order. */
  function FilterConference(records: seq<TeamRecord>, conf: int): (out: seq<TeamRecord>)
    ensures |out| <= |records|
    ensures forall rec :: rec in out ==> rec in records && rec.conferenceId == conf
    ensures forall rec :: rec in records && rec.conferenceId == conf ==> rec in out
    ensures (forall rec :: rec in records ==> rec.conferenceId != conf) ==> out == []
    ensures forall rec :: multiset(out)[rec] == if rec.conferenceId == conf then multiset(records)[rec] else 0
  {
    if |records| == 0 then []
    else
      assert records == [records[0]] + records[1..];
      if records[0].conferenceId == conf then [records[0]] + FilterConference(records[1..], conf)
      else FilterConference(records[1..], conf)
  }

  /** Filtering a concatenation filters each part: the filter keeps input order. */
  lemma {:induction false} FilterConferenceAppend(a: seq<TeamRecord>, b: seq<TeamRecord>, conf: int)
    ensures FilterConference(a + b, conf) == FilterConference(a, conf) + FilterConference(b, conf)
    decreases |a|
  {
    if |a| > 0 {
      assert (a + b)[1..] == a[1..] + b;
      FilterConferenceAppend(a[1..], b, conf);
    } else {
      assert a + b == b;
    }
  }
}
