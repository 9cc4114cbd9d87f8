/**
 * Flattening of the live scoreboard document: one row per competition of
 * every event, with the home and away team ids and scores, the period and
 * the status text. Every key of the document may be absent; an absent key
 * reads as null (None) or as an empty list, never as an error.
 */
module Scoreboard {
  import opened Wrappers

  datatype Team = Team(id: Option<string>)

  datatype Competitor = Competitor(team: Option<Team>, score: Option<string>, homeAway: Option<string>)

  datatype StatusType = StatusType(shortDetail: Option<string>, description: Option<string>)

  datatype Status = Status(period: Option<int>, statusType: Option<StatusType>)

  datatype Competition = Competition(competitors: Option<seq<Competitor>>, status: Option<Status>)

  datatype Event = Event(id: Option<string>, competitions: Option<seq<Competition>>)

  datatype Document = Document(events: Option<seq<Event>>)

  /** One output row per competition. */
  datatype ScoreboardRow = ScoreboardRow(
    gameId: Option<string>,
    homeTeamId: Option<string>,
    awayTeamId: Option<string>,
    homeScore: Option<string>,
    awayScore: Option<string>,
    period: Option<int>,
    status: string)

  /** The two sides a competitor's homeAway tag can select. */
  datatype Side = Home | Away

  function Tag(side: Side): string {
    match side
    case Home => "home"
    case Away => "away"
  }

  /** The team id and score of each side, as filled so far. */
  datatype Slots = Slots(homeTeamId: Option<string>, homeScore: Option<string>,
                         awayTeamId: Option<string>, awayScore: Option<string>)

  const EmptySlots := Slots(None, None, None, None)

  function Slot(s: Slots, side: Side): (Option<string>, Option<string>) {
    match side
    case Home => (s.homeTeamId, s.homeScore)
    case Away => (s.awayTeamId, s.awayScore)
  }

  /** The id of the competitor's team: null when the team object or its id is absent. */
  function TeamId(c: Competitor): Option<string> {
    match c.team
    case None => None
    case Some(t) => t.id
  }

  /**
   * One step of the competitor scan: a "home" tag overwrites the home slot,
   * an "away" tag the away slot, and any other tag, or none, is ignored.
   */
  function AssignSlot(s: Slots, c: Competitor): (r: Slots)
    ensures forall side ::
      Slot(r, side) == (if c.homeAway == Some(Tag(side)) then (TeamId(c), c.score) else Slot(s, side))
  {
    if c.homeAway == Some("home") then s.(homeTeamId := TeamId(c), homeScore := c.score)
    else if c.homeAway == Some("away") then s.(awayTeamId := TeamId(c), awayScore := c.score)
    else s
  }

  /** The slots after scanning the competitors in list order. */
  function ScanFrom(s: Slots, cs: seq<Competitor>): Slots
    decreases |cs|
  {
    if |cs| == 0 then s else ScanFrom(AssignSlot(s, cs[0]), cs[1..])
  }

  function ScanCompetitors(cs: seq<Competitor>): Slots {
    ScanFrom(EmptySlots, cs)
  }

  predicate NoTag(cs: seq<Competitor>, side: Side) {
    forall j :: 0 <= j < |cs| ==> cs[j].homeAway != Some(Tag(side))
  }

  /** cs[i] is the last competitor carrying the side's tag. */
  predicate LastTagged(cs: seq<Competitor>, side: Side, i: int) {
    && 0 <= i < |cs|
    && cs[i].homeAway == Some(Tag(side))
    && forall j :: i < j < |cs| ==> cs[j].homeAway != Some(Tag(side))
  }

  /** Scanning a concatenation is scanning one part after the other. */
  lemma {:induction false} ScanFromAppend(s: Slots, a: seq<Competitor>, b: seq<Competitor>)
    ensures ScanFrom(s, a + b) == ScanFrom(ScanFrom(s, a), b)
    decreases |a|
  {
    if |a| == 0 {
      assert a + b == b;
    } else {
      assert (a + b)[1..] == a[1..] + b;
      ScanFromAppend(AssignSlot(s, a[0]), a[1..], b);
    }
  }

  /**
   * A slot holds the team id and score of the last competitor tagged for its
   * side, and keeps its starting value when no competitor carries the tag.
   */
  lemma {:induction false} ScanFromSlot(s: Slots, cs: seq<Competitor>, side: Side)
    ensures NoTag(cs, side) ==> Slot(ScanFrom(s, cs), side) == Slot(s, side)
    ensures forall i :: LastTagged(cs, side, i) ==> Slot(ScanFrom(s, cs), side) == (TeamId(cs[i]), cs[i].score)
    decreases |cs|
  {
    if |cs| > 0 {
      var s' := AssignSlot(s, cs[0]);
      var rest := cs[1..];
      ScanFromSlot(s', rest, side);
      forall i | LastTagged(cs, side, i)
        ensures Slot(ScanFrom(s, cs), side) == (TeamId(cs[i]), cs[i].score)
      {
        if i > 0 {
          assert LastTagged(rest, side, i - 1);
        } else {
          assert NoTag(rest, side) by {
            forall j | 0 <= j < |rest| ensures rest[j].homeAway != Some(Tag(side)) {
              assert cs[j + 1] == rest[j];
            }
          }
        }
      }
      if NoTag(cs, side) {
        assert NoTag(rest, side) by {
          forall j | 0 <= j < |rest| ensures rest[j].homeAway != Some(Tag(side)) {
            assert cs[j + 1] == rest[j];
          }
        }
      }
    }
  }

  /** A competitor tagged neither "home" nor "away" changes nothing, wherever it appears. */
  lemma UntaggedCompetitorIgnored(a: seq<Competitor>, c: Competitor, b: seq<Competitor>)
    requires c.homeAway != Some("home") && c.homeAway != Some("away")
    ensures ScanCompetitors(a + [c] + b) == ScanCompetitors(a + b)
  {
    ScanFromAppend(EmptySlots, a + [c], b);
    ScanFromAppend(EmptySlots, a, [c]);
    ScanFromAppend(EmptySlots, a, b);
    assert ScanFrom(AssignSlot(ScanCompetitors(a), c), []) == ScanCompetitors(a);
  }

  /** The period of the competition's status; null when the status or its period is absent. */
  function Period(status: Option<Status>): (p: Option<int>)
    ensures p.Some? <==> status.Some? && status.value.period.Some?
    ensures p.Some? ==> p.value == status.value.period.value
  {
    match status
    case None => None
    case Some(st) => st.period
  }

  /** The status text: the short detail, else the description, else the empty string. */
  function StatusText(status: Option<Status>): (text: string)
    ensures var ty := if status.Some? then status.value.statusType else None;
      && (ty.Some? && ty.value.shortDetail.Some? ==> text == ty.value.shortDetail.value)
      && (ty.Some? && ty.value.shortDetail.None? && ty.value.description.Some? ==> text == ty.value.description.value)
      && (ty.None? || (ty.value.shortDetail.None? && ty.value.description.None?) ==> text == "")
  {
    var ty := match status case None => StatusType(None, None) case Some(st) => st.statusType.GetOr(StatusType(None, None));
    ty.shortDetail.GetOr(ty.description.GetOr(""))
  }

  /** The row of one competition of the event whose id is gameId. */
  function CompetitionRow(gameId: Option<string>, comp: Competition): (row: ScoreboardRow)
    ensures row.gameId == gameId
    ensures row.period == Period(comp.status) && row.status == StatusText(comp.status)
    ensures var cs := comp.competitors.GetOr([]);
      && (NoTag(cs, Home) ==> row.homeTeamId.None? && row.homeScore.None?)
      && (NoTag(cs, Away) ==> row.awayTeamId.None? && row.awayScore.None?)
      && (forall i :: LastTagged(cs, Home, i) ==> row.homeTeamId == TeamId(cs[i]) && row.homeScore == cs[i].score)
      && (forall i :: LastTagged(cs, Away, i) ==> row.awayTeamId == TeamId(cs[i]) && row.awayScore == cs[i].score)
  {
    var cs := comp.competitors.GetOr([]);
    var slots := ScanCompetitors(cs);
    ScanFromSlot(EmptySlots, cs, Home);
    ScanFromSlot(EmptySlots, cs, Away);
    ScoreboardRow(gameId, slots.homeTeamId, slots.awayTeamId, slots.homeScore, slots.awayScore,
                  Period(comp.status), StatusText(comp.status))
  }

  /** A side filled by a competitor without a team object has a null team id but keeps the score. */
  lemma TeamlessCompetitorNullId(gameId: Option<string>, comp: Competition, side: Side, i: int)
    requires LastTagged(comp.competitors.GetOr([]), side, i)
    requires comp.competitors.GetOr([])[i].team.None?
    ensures var row := CompetitionRow(gameId, comp);
      side == Home ==> row.homeTeamId.None? && row.homeScore == comp.competitors.GetOr([])[i].score
    ensures var row := CompetitionRow(gameId, comp);
      side == Away ==> row.awayTeamId.None? && row.awayScore == comp.competitors.GetOr([])[i].score
  {
  }

  /** The competitions of an event; an absent list is empty. */
  function Competitions(ev: Event): seq<Competition> {
    ev.competitions.GetOr([])
  }

  /** The rows of one event: one per competition, in list order, all carrying the event id. */
  function EventRows(ev: Event): (rows: seq<ScoreboardRow>)
    ensures |rows| == |Competitions(ev)|
    ensures forall j :: 0 <= j < |rows| ==> rows[j] == CompetitionRow(ev.id, Competitions(ev)[j])
    ensures forall row :: row in rows ==> row.gameId == ev.id
  {
    var comps := Competitions(ev);
    seq(|comps|, j requires 0 <= j < |comps| => CompetitionRow(ev.id, comps[j]))
  }

  function EventsRows(evs: seq<Event>): seq<ScoreboardRow> {
    if |evs| == 0 then [] else EventRows(evs[0]) + EventsRows(evs[1..])
  }

  /**
   * The flattened scoreboard: one row per competition, each carrying the id
   * of its event; an absent event list yields no rows.
   */
  function ParseScoreboard(doc: Document): (rows: seq<ScoreboardRow>)
    ensures |rows| == CompetitionCount(doc.events.GetOr([]))
    ensures doc.events.None? ==> rows == []
    ensures forall row :: row in rows ==> exists ev :: ev in doc.events.GetOr([]) && row.gameId == ev.id
  {
    EventsRowsCount(doc.events.GetOr([]));
    RowsCarryEventIds(doc.events.GetOr([]));
    EventsRows(doc.events.GetOr([]))
  }

  /** Reference count: the number of competitions over all events. */
  function CompetitionCount(evs: seq<Event>): nat {
    if |evs| == 0 then 0 else |Competitions(evs[0])| + CompetitionCount(evs[1..])
  }

  lemma {:induction false} EventsRowsAppend(a: seq<Event>, b: seq<Event>)
    ensures EventsRows(a + b) == EventsRows(a) + EventsRows(b)
    ensures CompetitionCount(a + b) == CompetitionCount(a) + CompetitionCount(b)
    decreases |a|
  {
    if |a| == 0 {
      assert a + b == b;
    } else {
      assert (a + b)[1..] == a[1..] + b;
      EventsRowsAppend(a[1..], b);
    }
  }

  /** One row per competition: the row count is the total number of competitions. */
  lemma {:induction false} EventsRowsCount(evs: seq<Event>)
    ensures |EventsRows(evs)| == CompetitionCount(evs)
    decreases |evs|
  {
    if |evs| > 0 {
      EventsRowsCount(evs[1..]);
    }
  }

  /**
   * Event-then-competition order: competition j of event e is flattened to
   * the row just after the competitions of the events before e.
   */
  lemma RowPosition(evs: seq<Event>, e: nat, j: nat)
    requires e < |evs| && j < |Competitions(evs[e])|
    ensures CompetitionCount(evs[..e]) + j < |EventsRows(evs)|
    ensures EventsRows(evs)[CompetitionCount(evs[..e]) + j] == CompetitionRow(evs[e].id, Competitions(evs[e])[j])
  {
    var before := evs[..e];
    var after := evs[e + 1..];
    assert evs == before + ([evs[e]] + after);
    EventsRowsAppend(before, [evs[e]] + after);
    EventsRowsAppend([evs[e]], after);
    EventsRowsCount(before);
    assert EventsRows([evs[e]]) == EventRows(evs[e]) + EventsRows([]);
  }

  /** Every row carries the id of the event it came from. */
  lemma {:induction false} RowsCarryEventIds(evs: seq<Event>)
    ensures forall row :: row in EventsRows(evs) ==> exists ev :: ev in evs && row.gameId == ev.id
    decreases |evs|
  {
    if |evs| > 0 {
      RowsCarryEventIds(evs[1..]);
      forall row | row in EventsRows(evs) ensures exists ev :: ev in evs && row.gameId == ev.id {
        if row in EventRows(evs[0]) {
          assert evs[0] in evs;
        } else {
          var ev :| ev in evs[1..] && row.gameId == ev.id;
          assert ev in evs;
        }
      }
    }
  }

  /** The status-text fallbacks on the three usual shapes of the status type. */
  lemma StatusTextExamples()
    ensures StatusText(Some(Status(None, Some(StatusType(Some("Final"), Some("Game Ended")))))) == "Final"
    ensures StatusText(Some(Status(None, Some(StatusType(None, Some("Game Ended")))))) == "Game Ended"
    ensures StatusText(Some(Status(None, Some(StatusType(None, None))))) == ""
    ensures StatusText(None) == ""
  {
  }
}
