/** src/components/GameDetails.jsx: the box score of one game. The effect
    checks its props, fetches the per-player rows, keeps a copy sorted by
    points (most first, a missing value counting as -1), and the view splits
    the rows into the visitor's and the home team's tables. */
module GameDetails {
  import opened Wrappers
  import opened Text
  import opened Records
  import opened Ranking
  import Seqs

  const MissingDataMessage := "Missing required data (Game ID or Team Abbr) for player stats."
  const FetchFailedMessage := "Failed to load player stats."

  /** `s.pts ?? -1`. */
  function Points(s: StatRow): int
  {
    if s.pts.Some? then s.pts.value else -1
  }

  /** The comparator as written: `(b.pts ?? -1) - (a.pts ?? -1)`. */
  function ComparePoints(a: StatRow, b: StatRow): (r: int)
    ensures r <= 0 <==> RankLe(PointsRank(a), PointsRank(b))
    ensures r == 0 <==> Points(a) == Points(b)
  {
    Points(b) - Points(a)
  }

  /** More points rank earlier. */
  function PointsRank(s: StatRow): Rank
  {
    At(-Points(s))
  }

  /** `[...rows].sort(ComparePoints)`: a sorted copy. */
  function SortByPoints(rows: seq<StatRow>): (r: seq<StatRow>)
    ensures |r| == |rows|
    ensures multiset(r) == multiset(rows)
    ensures forall i, j :: 0 <= i < j < |r| ==> Points(r[i]) >= Points(r[j])
  {
    var r := SortBy(rows, PointsRank);
    assert forall i, j :: 0 <= i < j < |r| ==> RankLe(PointsRank(r[i]), PointsRank(r[j]));
    r
  }

  /** The sorted copy agrees with the comparator on every pair, and rows
      with equal points keep the order the backend gave them. */
  lemma SortByPointsOrder(rows: seq<StatRow>, points: int)
    ensures var r := SortByPoints(rows);
      forall i, j :: 0 <= i < j < |r| ==> ComparePoints(r[i], r[j]) <= 0
    ensures WithRank(SortByPoints(rows), PointsRank, At(-points)) == WithRank(rows, PointsRank, At(-points))
  {
    SortByStable(rows, PointsRank, At(-points));
  }

  /** A row without points sorts with the rows that scored -1, after every
      row with non-negative points. */
  lemma MissingPointsLast(rows: seq<StatRow>, i: nat, j: nat)
    requires i < j < |SortByPoints(rows)|
    requires SortByPoints(rows)[i].pts.None?
    ensures Points(SortByPoints(rows)[j]) <= -1
    ensures SortByPoints(rows)[j].pts.Some? ==> SortByPoints(rows)[j].pts.value <= -1
  {
  }

  /** `s.team?.abbreviation === abbr`. */
  predicate OnTeam(s: StatRow, abbr: Option<string>)
  {
    s.teamAbbreviation == abbr
  }

  /** The filter callback for one team. */
  function OnTeamOf(abbr: Option<string>): StatRow -> bool
  {
    s => OnTeam(s, abbr)
  }

  /** The rows of one team, in the order of `rows`. */
  function TeamRows(rows: seq<StatRow>, abbr: Option<string>): (r: seq<StatRow>)
    ensures forall i :: 0 <= i < |r| ==> r[i].teamAbbreviation == abbr
    ensures multiset(r) <= multiset(rows)
  {
    Seqs.Filter(rows, OnTeamOf(abbr))
  }

  /** A team's rows keep the order of the sorted list, so they are sorted
      by points themselves. */
  lemma TeamRowsSorted(rows: seq<StatRow>, abbr: Option<string>)
    ensures var r := TeamRows(SortByPoints(rows), abbr);
      && Seqs.SubsequenceOf(r, SortByPoints(rows))
      && (forall i, j :: 0 <= i < j < |r| ==> Points(r[i]) >= Points(r[j]))
  {
    var sorted := SortByPoints(rows);
    Seqs.FilterIsSubsequence(sorted, OnTeamOf(abbr));
    FilterKeepsSorted(sorted, PointsRank, OnTeamOf(abbr));
    var r := TeamRows(sorted, abbr);
    assert forall i, j :: 0 <= i < j < |r| ==> RankLe(PointsRank(r[i]), PointsRank(r[j]));
  }

  /** A team's table holds each of that team's fetched rows as often as it
      was fetched, and no row of another team or without a team. */
  lemma TeamRowsComplete(rows: seq<StatRow>, abbr: string, s: StatRow)
    ensures var r := TeamRows(SortByPoints(rows), Some(abbr));
      multiset(r)[s] == if s.teamAbbreviation == Some(abbr) then multiset(rows)[s] else 0
  {
    Seqs.FilterCount(SortByPoints(rows), OnTeamOf(Some(abbr)), s);
  }

  /** With two different abbreviations, no row is in both tables. */
  lemma TeamsDisjoint(rows: seq<StatRow>, home: string, visitor: string, s: StatRow)
    requires home != visitor
    ensures !(s in TeamRows(rows, Some(home)) && s in TeamRows(rows, Some(visitor)))
  {
  }

  /** One team's table body: its rows, or "No stats for this team.". */
  datatype TeamBody = NoStatsForTeam | PlayerRows(rows: seq<StatRow>)

  datatype TeamTable = TeamTable(heading: string, body: TeamBody)

  function TeamTableOf(rows: seq<StatRow>, abbr: Option<string>, fallback: string): (t: TeamTable)
    ensures t.heading == OrElse(abbr, fallback)
    ensures t.body.NoStatsForTeam? <==> TeamRows(rows, abbr) == []
    ensures t.body.PlayerRows? ==> t.body.rows == TeamRows(rows, abbr)
  {
    var teamRows := TeamRows(rows, abbr);
    TeamTable(OrElse(abbr, fallback), if teamRows == [] then NoStatsForTeam else PlayerRows(teamRows))
  }

  /** What the component shows under "Player Stats". */
  datatype StatsView =
    | LoadingStats
    | StatsError(message: string)
    | NoPlayerStats
    | Tables(visitor: TeamTable, home: TeamTable)

  class PlayerStatsState {
    /** The props. */
    const gameId: Option<string>
    const homeAbbr: Option<string>
    const visitorAbbr: Option<string>
    /** The state. */
    var playerStats: seq<StatRow>
    var loading: bool
    var error: Option<string>

    /** The props the fetch needs are all present. */
    predicate PropsPresent()
    {
      Truthy(gameId) && Truthy(homeAbbr) && Truthy(visitorAbbr)
    }

    /** Rows are only ever kept for a complete set of props. */
    ghost predicate Valid()
      reads this
    {
      playerStats != [] ==> PropsPresent()
    }

    /** The first render. */
    constructor (gameId: Option<string>, homeAbbr: Option<string>, visitorAbbr: Option<string>)
      ensures this.gameId == gameId && this.homeAbbr == homeAbbr && this.visitorAbbr == visitorAbbr
      ensures playerStats == [] && loading && error == None
      ensures Valid()
    {
      this.gameId := gameId;
      this.homeAbbr := homeAbbr;
      this.visitorAbbr := visitorAbbr;
      playerStats := [];
      loading := true;
      error := None;
    }

    /** The effect, run to completion with the backend's answer; `fetched`
        tells whether the backend was called. */
    method RunEffect(response: Fetch<seq<StatRow>>) returns (fetched: bool)
      modifies this`playerStats, this`loading, this`error
      ensures fetched <==> PropsPresent()
      ensures !loading
      ensures !fetched ==> playerStats == [] && error == Some(MissingDataMessage)
      ensures fetched && response.Threw? ==>
        playerStats == [] && error == Some(OrElse(response.message, FetchFailedMessage))
      ensures fetched && response.Fetched? ==>
        playerStats == SortByPoints(response.value) && error == None
      ensures Truthy(error) || error.None?
      ensures Valid()
    {
      if !PropsPresent() {
        error := Some(MissingDataMessage);
        loading := false;
        playerStats := [];
        return false;
      }
      loading := true;
      error := None;
      playerStats := [];
      match response {
        case Fetched(rows) =>
          playerStats := SortByPoints(rows);
        case Threw(message) =>
          error := Some(OrElse(message, FetchFailedMessage));
          playerStats := [];
      }
      loading := false;
      return true;
    }

    /** The render. */
    function View(): (v: StatsView)
      reads this
      ensures v.LoadingStats? <==> loading
      ensures v.StatsError? <==> !loading && Truthy(error)
      ensures v.StatsError? ==> v.message == error.value
      ensures v.NoPlayerStats? <==> !loading && !Truthy(error) && playerStats == []
      ensures v.Tables? ==> v.visitor == TeamTableOf(playerStats, visitorAbbr, "Visitor")
      ensures v.Tables? ==> v.home == TeamTableOf(playerStats, homeAbbr, "Home")
    {
      if loading then LoadingStats
      else if Truthy(error) then StatsError(error.value)
      else if playerStats == [] then NoPlayerStats
      else Tables(TeamTableOf(playerStats, visitorAbbr, "Visitor"), TeamTableOf(playerStats, homeAbbr, "Home"))
    }
  }

  /** Tables are shown only for a complete set of props, and then their
      headings are the two abbreviations themselves. */
  lemma TablesNeedProps(st: PlayerStatsState)
    requires st.Valid()
    ensures st.View().Tables? ==> st.PropsPresent()
    ensures st.View().Tables? ==>
      st.View().visitor.heading == st.visitorAbbr.value && st.View().home.heading == st.homeAbbr.value
  {
  }
}
