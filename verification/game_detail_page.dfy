/** src/pages/GameDetailPage.jsx: the page of one game. Its effect checks
    the route's game id and the date carried in the navigation state, in a
    fixed order, before fetching the game; the render is then gated on
    loading, on the error, on the data, on the Final test and on the
    presence of the id and both team abbreviations. */
module GameDetailPage {
  import opened Wrappers
  import opened Text
  import opened Records
  import opened DatePattern
  import GameCard
  import QuarterScoresTable
  import HomePage

  const MissingIdMessage := "Game ID not found in URL."
  const MissingDateMessage := "Game Date not found in navigation state. Please go back and select the game again."
  const BadDateMessage := "Invalid game date format received."
  const FetchFailedMessage := "Failed to load game details."

  /** `location.state?.gameDate`: the date comes from the navigation state
      only; nothing else is consulted. */
  function DetailDate(state: Option<NavState>): (r: Option<string>)
    ensures state.None? ==> r.None?
    ensures r.Some? ==> state.Some? && r == state.value.gameDate
  {
    if state.Some? then state.value.gameDate else None
  }

  /** The ordered checks of the effect: the id, then the presence of the
      date, then its shape (the unanchored pattern). On success, the id
      and date the fetch is called with. */
  function CheckRoute(gameId: Option<string>, gameDate: Option<string>): (r: Result<(string, string), string>)
    ensures !Truthy(gameId) ==> r == Err(MissingIdMessage)
    ensures Truthy(gameId) && !Truthy(gameDate) ==> r == Err(MissingDateMessage)
    ensures Truthy(gameId) && Truthy(gameDate) && !MatchesAnywhere(gameDate.value) ==> r == Err(BadDateMessage)
    ensures r.Ok? <==> Truthy(gameId) && Truthy(gameDate) && MatchesAnywhere(gameDate.value)
    ensures r.Ok? ==> r.value == (gameId.value, gameDate.value)
    ensures r.Err? ==> r.error != ""
  {
    if !Truthy(gameId) then Err(MissingIdMessage)
    else if !Truthy(gameDate) then Err(MissingDateMessage)
    else if !MatchesAnywhere(gameDate.value) then Err(BadDateMessage)
    else Ok((gameId.value, gameDate.value))
  }

  /** The not-found error of a fetch that answered nothing. */
  function NotFoundMessage(gameId: string, gameDate: string): (m: string)
    ensures OccursAt(m, gameId, 31) && OccursAt(m, gameDate, 31 + |gameId| + 9)
  {
    var m := "Game details not found for ID: " + gameId + " on date " + gameDate + ".";
    assert m[31..31 + |gameId|] == gameId;
    assert m[31 + |gameId| + 9..31 + |gameId| + 9 + |gameDate|] == gameDate;
    m
  }

  /** The not-found error names both the id and the date. */
  lemma NotFoundNamesGame(gameId: string, gameDate: string)
    ensures Includes(NotFoundMessage(gameId, gameDate), gameId)
    ensures Includes(NotFoundMessage(gameId, gameDate), gameDate)
  {
    var m := NotFoundMessage(gameId, gameDate);
    assert OccursAt(m, gameId, 31);
    assert OccursAt(m, gameDate, 31 + |gameId| + 9);
  }

  /** A date a card click hands on passes the page's checks whenever the
      game has no date of its own or its date starts with YYYY-MM-DD: the
      two pages agree on the date they exchange. */
  lemma CardDatePassesChecks(g: Game, selectedDate: string)
    requires Truthy(g.id)
    requires MatchesWhole(selectedDate)
    requires g.date.None? || MatchesStart(g.date.value)
    ensures CheckRoute(g.id, Some(HomePage.CardDate(g, selectedDate))).Ok?
  {
    var r := HomePage.CardDate(g, selectedDate);
    if g.date.None? {
      AnchoringWeakens(selectedDate);
    } else {
      var s := g.date.value;
      assert IsDigit(s[0]) by {
        assert AtomMatches(Shape[0], s[0]);
      }
      assert r == BeforeFirst(s, 'T');
      forall k | 0 <= k < |Shape|
        ensures s[k] != 'T' && AtomMatches(Shape[k], s[k])
      {
        assert AtomMatches(Shape[k], s[0 + k]);
      }
      assert |r| >= |Shape|;
      forall k | 0 <= k < |Shape|
        ensures AtomMatches(Shape[k], r[0 + k])
      {
        assert r[k] == s[..|r|][k];
      }
      assert ShapeAt(r, 0);
    }
  }

  /** The score line of the header. */
  datatype ScoreLine =
    | Scores(visitorScore: Option<int>, homeScore: Option<int>, finalTag: bool)
    | StatusLine(text: string)

  datatype Header = Header(title: string, line: ScoreLine)

  /** `team?.full_name || team?.abbreviation`, empty when both are missing. */
  function TeamTitle(team: Option<Team>): (r: string)
    ensures team.Some? && Truthy(team.value.fullName) ==> r == team.value.fullName.value
    ensures team.Some? && !Truthy(team.value.fullName) ==> r == OrElse(team.value.abbreviation, "")
    ensures team.None? ==> r == ""
  {
    if team.None? then "" else OrElse(team.value.fullName, OrElse(team.value.abbreviation, ""))
  }

  /** The header: "visitor @ home", then the scores with the FINAL tag when
      the game has started or is over, else the raw status. */
  function HeaderOf(g: Game): (h: Header)
    ensures h.title == TeamTitle(g.visitorTeam) + " @ " + TeamTitle(g.homeTeam)
    ensures h.line.Scores? <==> GameCard.Started(g) || GameCard.IsFinal(g.status)
    ensures h.line.Scores? ==>
      h.line == Scores(g.visitorScore, g.homeScore, GameCard.IsFinal(g.status))
    ensures h.line.StatusLine? ==> h.line.text == GameCard.StatusText(g.status)
  {
    var isFinal := GameCard.IsFinal(g.status);
    Header(TeamTitle(g.visitorTeam) + " @ " + TeamTitle(g.homeTeam),
           if GameCard.Started(g) || isFinal then Scores(g.visitorScore, g.homeScore, isFinal)
           else StatusLine(GameCard.StatusText(g.status)))
  }

  /** The header and the game card agree: scores show for the games the
      card classifies Final or Live, and the FINAL tag for the Final ones. */
  lemma HeaderAgreesWithCard(g: Game, readDate: string -> GameCard.DateReading)
    ensures var c := GameCard.Classify(g, readDate);
      && (HeaderOf(g).line.Scores? <==> c.Final? || c.Live?)
      && (HeaderOf(g).line.Scores? ==> (HeaderOf(g).line.finalTag <==> c.Final?))
      && (HeaderOf(g).line.Scores? <==> GameCard.ShowScores(g))
  {
  }

  /** The period table: only for a Final game with a non-empty list of
      period scores, and then whatever the table component renders. */
  function PeriodTableOf(g: Game): (t: Option<QuarterScoresTable.Table>)
    ensures t.Some? ==> GameCard.IsFinal(g.status) && g.periodScores.Some? && |g.periodScores.value| > 0
    ensures GameCard.IsFinal(g.status) ==>
      t == QuarterScoresTable.Render(g.periodScores, HomeAbbreviation(g), VisitorAbbreviation(g))
    ensures !GameCard.IsFinal(g.status) ==> t.None?
  {
    if GameCard.IsFinal(g.status) && g.periodScores.Some? && |g.periodScores.value| > 0 then
      QuarterScoresTable.Render(g.periodScores, HomeAbbreviation(g), VisitorAbbreviation(g))
    else None
  }

  /** The player-stats section: the box score with its three props, or the
      "Missing data to load player stats." line. */
  datatype StatsSection = PlayerStats(gameId: string, homeAbbr: string, visitorAbbr: string) | MissingStatsData

  function StatsSectionOf(g: Game): (s: StatsSection)
    ensures s.PlayerStats? <==> Truthy(g.id) && Truthy(HomeAbbreviation(g)) && Truthy(VisitorAbbreviation(g))
    ensures s.PlayerStats? ==>
      && Some(s.gameId) == g.id && s.gameId != ""
      && Some(s.homeAbbr) == HomeAbbreviation(g) && s.homeAbbr != ""
      && Some(s.visitorAbbr) == VisitorAbbreviation(g) && s.visitorAbbr != ""
  {
    if Truthy(g.id) && Truthy(HomeAbbreviation(g)) && Truthy(VisitorAbbreviation(g)) then
      PlayerStats(g.id.value, HomeAbbreviation(g).value, VisitorAbbreviation(g).value)
    else MissingStatsData
  }

  /** What the page shows. */
  datatype DetailView =
    | LoadingDetails
    | ErrorScreen(message: string)
    | NotLoaded(message: string)
    | Main(header: Header, periodTable: Option<QuarterScoresTable.Table>, stats: StatsSection)

  class DetailPageState {
    var gameData: Option<Game>
    var loading: bool
    var error: Option<string>

    /** Once loading is over, there is an error to show or a game. */
    ghost predicate Valid()
      reads this
    {
      !loading ==> Truthy(error) || gameData.Some?
    }

    /** The first render. */
    constructor ()
      ensures gameData == None && loading && error == None
      ensures Valid()
    {
      gameData := None;
      loading := true;
      error := None;
    }

    /** The effect for the route's `gameId` and the navigation state, run to
        completion with the backend's answer (`None` for an empty answer);
        `fetched` tells whether the backend was called. */
    method RunEffect(gameId: Option<string>, state: Option<NavState>, response: Fetch<Option<Game>>)
      returns (fetched: bool)
      modifies this
      ensures var check := CheckRoute(gameId, DetailDate(state));
        && (fetched <==> check.Ok?)
        && (!fetched ==> error == Some(check.error) && gameData == old(gameData))
        && (fetched && response.Fetched? && response.value.Some? ==>
              gameData == response.value && error == None)
        && (fetched && response.Fetched? && response.value.None? ==>
              gameData == None && error == Some(NotFoundMessage(check.value.0, check.value.1)))
        && (fetched && response.Threw? ==>
              gameData == None && error == Some(OrElse(response.message, FetchFailedMessage)))
      ensures !loading
      ensures Valid()
    {
      var check := CheckRoute(gameId, DetailDate(state));
      if check.Err? {
        error := Some(check.error);
        loading := false;
        return false;
      }
      var (id, date) := check.value;
      loading := true;
      error := None;
      gameData := None;
      match response {
        case Fetched(data) =>
          if data.Some? {
            gameData := data;
          } else {
            error := Some(NotFoundMessage(id, date));
          }
        case Threw(message) =>
          error := Some(OrElse(message, FetchFailedMessage));
      }
      loading := false;
      return true;
    }

    /** The render for the route's `gameId`. */
    function View(gameId: Option<string>): (v: DetailView)
      reads this
      ensures v.LoadingDetails? <==> loading
      ensures v.ErrorScreen? <==> !loading && Truthy(error)
      ensures v.ErrorScreen? ==> v.message == error.value
      ensures v.NotLoaded? <==> !loading && !Truthy(error) && gameData.None?
      ensures v.Main? ==>
        && gameData.Some?
        && v.header == HeaderOf(gameData.value)
        && v.periodTable == PeriodTableOf(gameData.value)
        && v.stats == StatsSectionOf(gameData.value)
    {
      if loading then LoadingDetails
      else if Truthy(error) then ErrorScreen(error.value)
      else if gameData.None? then
        NotLoaded("Game details could not be loaded for ID: " + OrElse(gameId, "") + ".")
      else
        var g := gameData.value;
        Main(HeaderOf(g), PeriodTableOf(g), StatsSectionOf(g))
    }
  }

  /** The "could not be loaded" screen is never reached: once loading is
      over there is always an error or a game. */
  lemma NotLoadedUnreachable(page: DetailPageState, gameId: Option<string>)
    requires page.Valid()
    ensures !page.View(gameId).NotLoaded?
  {
  }
}
