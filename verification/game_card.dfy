/** src/components/GameCard.jsx: how one game of the list is shown. The
    centre of the card classifies the game (Final, then Live, then Scheduled,
    then Unknown); the two sides show names, logos, scores once the game has
    started, a winner marker and a dimmed loser once it is over. The same
    Final test is used by the game detail page. */
module GameCard {
  import opened Wrappers
  import opened Text
  import opened Records
  import TeamLogos

  /** `game.status || ""`. */
  function StatusText(status: Option<string>): string
  {
    OrElse(status, "")
  }

  /** The Final test, written three times in the source with the same meaning:
      the lower-cased status is "final" or starts with "f/". A missing status
      is never Final. */
  predicate IsFinal(status: Option<string>)
    ensures IsFinal(status) ==> Truthy(status) && |status.value| >= 2
  {
    var lower := ToLower(StatusText(status));
    lower == "final" || StartsWith(lower, "f/")
  }

  /** The same test spelled out character by character, independent of case
      folding: "final" in any mix of cases, or "f/" or "F/" followed by anything. */
  predicate FinalSpelling(s: string)
  {
    || (|s| == 5 && s[0] in "fF" && s[1] in "iI" && s[2] in "nN" && s[3] in "aA" && s[4] in "lL")
    || (|s| >= 2 && s[0] in "fF" && s[1] == '/')
  }

  lemma LowerCharIsLetter(c: char, l: char)
    requires 'a' <= l <= 'z'
    ensures LowerChar(c) == l <==> c == l || c as int == l as int - 32
  {
  }

  /** The Final test accepts exactly the spellings above, and a missing status
      is not Final. */
  lemma IsFinalBySpelling(s: string)
    ensures IsFinal(Some(s)) <==> FinalSpelling(s)
    ensures !IsFinal(None)
  {
    var lower := ToLower(s);
    assert StatusText(Some(s)) == s;
    if |s| >= 1 {
      LowerCharIsLetter(s[0], 'f');
    }
    if |s| >= 2 {
      assert lower[..2] == [LowerChar(s[0]), LowerChar(s[1])];
      assert LowerChar(s[1]) == '/' <==> s[1] == '/';
    }
    if |s| == 5 {
      LowerCharIsLetter(s[1], 'i');
      LowerCharIsLetter(s[2], 'n');
      LowerCharIsLetter(s[3], 'a');
      LowerCharIsLetter(s[4], 'l');
      assert lower == [LowerChar(s[0]), LowerChar(s[1]), LowerChar(s[2]), LowerChar(s[3]), LowerChar(s[4])];
    }
    assert !IsFinal(None) by {
      assert StatusText(None) == "";
    }
  }

  /** `game.period > 0`; a missing period never counts as started. */
  predicate Started(g: Game)
  {
    g.period.Some? && g.period.value > 0
  }

  /** What the date library says about a `datetime` string: `parseISO`
      threw, produced an invalid date, or produced a valid one, together with
      `isToday`, `format(d, "dd/MM/yy")` and `format(d, "HH:mm")` in the
      local time zone. */
  datatype DateReading = ParseThrows | InvalidDate | ValidDate(isToday: bool, shortDate: string, localTime: string)

  /** The centre of the card. `Scheduled` has no time when the game's time is
      the midnight placeholder. */
  datatype Status = Final | Live(liveLabel: string) | Scheduled(day: string, time: Option<string>) | Unknown(text: string)

  /** The live label: the raw status, unless it is empty or looks like a
      clock time (":", "PM" or "AM"), in which case "LIVE". */
  function LiveLabel(s: string): (r: string)
    ensures r == s || r == "LIVE"
    ensures r == s <==> s != "" && ':' !in s && !Includes(s, "PM") && !Includes(s, "AM")
    ensures r != "" && ':' !in r && !Includes(r, "PM") && !Includes(r, "AM")
  {
    if s != "" && ':' !in s && !Includes(s, "PM") && !Includes(s, "AM") then s
    else
      LiveHasNoClockMarker();
      "LIVE"
  }

  lemma LiveHasNoClockMarker()
    ensures !Includes("LIVE", "PM") && !Includes("LIVE", "AM")
  {
    forall i: nat | i <= 4
      ensures !OccursAt("LIVE", "PM", i) && !OccursAt("LIVE", "AM", i)
    {
      if i == 0 {
        assert "LIVE"[0..2] == "LI";
      } else if i == 1 {
        assert "LIVE"[1..3] == "IV";
      } else if i == 2 {
        assert "LIVE"[2..4] == "VE";
      }
    }
  }

  /** `formatGameTimeOrStatus`: the first rule that applies wins. */
  function Classify(g: Game, readDate: string -> DateReading): (c: Status)
    ensures c.Final? <==> IsFinal(g.status)
    ensures c.Live? <==> !IsFinal(g.status) && Started(g)
    ensures c.Scheduled? <==> !IsFinal(g.status) && !Started(g) && Truthy(g.datetime) && readDate(g.datetime.value).ValidDate?
    ensures c.Live? ==> c.liveLabel == LiveLabel(StatusText(g.status))
    ensures c.Scheduled? ==>
      var d := readDate(g.datetime.value);
      && c.day == (if d.isToday then "Hoy" else d.shortDate)
      && (c.time.None? <==> d.localTime == "00:00" && EndsWith(g.datetime.value, "T00:00:00Z"))
      && (c.time.Some? ==> c.time.value == d.localTime)
    ensures c.Unknown? ==> c.text != "" && c.text == OrElse(g.status, "N/A")
  {
    var text := StatusText(g.status);
    if IsFinal(g.status) then Final
    else if Started(g) then Live(LiveLabel(text))
    else if Truthy(g.datetime) && readDate(g.datetime.value).ValidDate? then
      var d := readDate(g.datetime.value);
      var day := if d.isToday then "Hoy" else d.shortDate;
      if d.localTime == "00:00" && EndsWith(g.datetime.value, "T00:00:00Z") then Scheduled(day, None)
      else Scheduled(day, Some(d.localTime))
    else
      Unknown(if text != "" then text else "N/A")
  }

  /** Final takes precedence over the period: a finished game is Final
      whatever its period says. */
  lemma FinalIgnoresPeriod(g: Game, p: Option<int>, readDate: string -> DateReading)
    requires IsFinal(g.status)
    ensures Classify(g.(period := p), readDate) == Final
  {
  }

  /** A status that names a quarter is not enough to be Live: period 0 is not started. */
  lemma QuarterStatusAtPeriodZero(g: Game, readDate: string -> DateReading)
    requires g.status == Some("Q2") && g.period == Some(0)
    ensures !Classify(g, readDate).Live? && !Classify(g, readDate).Final?
  {
    IsFinalBySpelling("Q2");
  }

  /** A midnight UTC placeholder read as local midnight shows only the day. */
  lemma MidnightPlaceholderHasNoTime(g: Game, readDate: string -> DateReading)
    requires g.status == Some("7:00 PM ET") && g.period == Some(0)
    requires g.datetime == Some("2024-01-01T00:00:00Z")
    requires readDate("2024-01-01T00:00:00Z") == ValidDate(false, "01/01/24", "00:00")
    ensures Classify(g, readDate) == Scheduled("01/01/24", None)
  {
    IsFinalBySpelling("7:00 PM ET");
  }

  /** `showScores`. */
  predicate ShowScores(g: Game)
    ensures Winners(g).homeWins || Winners(g).visitorWins ==> ShowScores(g)
  {
    IsFinal(g.status) || Started(g)
  }

  /** Scores are shown exactly for the games classified Final or Live. */
  lemma ShowScoresMatchesStatus(g: Game, readDate: string -> DateReading)
    ensures ShowScores(g) <==> Classify(g, readDate).Final? || Classify(g, readDate).Live?
  {
  }

  datatype WinFlags = WinFlags(homeWins: bool, visitorWins: bool)

  /** `homeWins` / `visitorWins`: decided only for a Final game with two
      numeric scores, by the strictly greater score. */
  function Winners(g: Game): (w: WinFlags)
    ensures !(w.homeWins && w.visitorWins)
    ensures (w.homeWins || w.visitorWins) ==> IsFinal(g.status) && g.homeScore.Some? && g.visitorScore.Some?
    ensures w.homeWins ==> g.homeScore.value > g.visitorScore.value
    ensures w.visitorWins ==> g.visitorScore.value > g.homeScore.value
  {
    if IsFinal(g.status) && g.homeScore.Some? && g.visitorScore.Some? then
      WinFlags(g.homeScore.value > g.visitorScore.value, g.visitorScore.value > g.homeScore.value)
    else
      WinFlags(false, false)
  }

  /** A finished game with two different scores has exactly one winner; a
      tie has none. */
  lemma WinnerDecided(g: Game)
    requires IsFinal(g.status) && g.homeScore.Some? && g.visitorScore.Some?
    ensures g.homeScore != g.visitorScore ==> Winners(g).homeWins != Winners(g).visitorWins
    ensures g.homeScore == g.visitorScore ==> Winners(g) == WinFlags(false, false)
  {
  }

  /** The same game with home and visitor exchanged. */
  function SwapSides(g: Game): Game
  {
    g.(homeTeam := g.visitorTeam, visitorTeam := g.homeTeam,
       homeScore := g.visitorScore, visitorScore := g.homeScore)
  }

  /** The winner rule treats both sides alike. */
  lemma WinnersSymmetric(g: Game)
    ensures Winners(SwapSides(g)) == WinFlags(Winners(g).visitorWins, Winners(g).homeWins)
  {
  }

  datatype Emphasis = Emphasis(homeDimmed: bool, visitorDimmed: bool)

  /** `opacity-60` on a side: only in a Final game, only on the loser. */
  function Dimming(g: Game): (e: Emphasis)
    ensures !(e.homeDimmed && e.visitorDimmed)
    ensures e.homeDimmed <==> Winners(g).visitorWins
    ensures e.visitorDimmed <==> Winners(g).homeWins
    ensures (e.homeDimmed || e.visitorDimmed) ==> IsFinal(g.status)
  {
    var w := Winners(g);
    Emphasis(IsFinal(g.status) && w.visitorWins, IsFinal(g.status) && w.homeWins)
  }

  /** `getTeamDisplayName`: abbreviation, else name, else "TEAM". */
  function TeamDisplayName(team: Option<Team>): (r: string)
    ensures r != ""
    ensures team.Some? && Truthy(team.value.abbreviation) ==> r == team.value.abbreviation.value
    ensures team.Some? && !Truthy(team.value.abbreviation) && Truthy(team.value.name) ==> r == team.value.name.value
    ensures r == "TEAM" <==> team.None? || OrElse(team.value.abbreviation, OrElse(team.value.name, "TEAM")) == "TEAM"
  {
    match team
    case None => "TEAM"
    case Some(t) => OrElse(t.abbreviation, OrElse(t.name, "TEAM"))
  }

  /** One side of a card: name, logo, the score when shown, and the markers. */
  datatype Side = Side(name: string, logo: Option<string>, score: Option<Cell>, winner: bool, dimmed: bool)

  datatype CardView = CardView(home: Side, center: Status, visitor: Side)

  /** The whole card of `GameCard`. */
  function GameCardView(g: Game, readDate: string -> DateReading): (v: CardView)
    ensures v.center == Classify(g, readDate)
    ensures v.home.score.Some? <==> v.center.Final? || v.center.Live?
    ensures v.visitor.score.Some? <==> v.home.score.Some?
    ensures v.home.score.Some? ==> v.home.score.value == CellOf(g.homeScore) && v.visitor.score.value == CellOf(g.visitorScore)
    ensures !(v.home.winner && v.visitor.winner) && !(v.home.dimmed && v.visitor.dimmed)
    ensures v.home.dimmed <==> v.visitor.winner
    ensures v.visitor.dimmed <==> v.home.winner
    ensures (v.home.winner || v.visitor.winner) ==> v.center.Final?
    ensures v.home.logo == TeamLogos.GetLogoSrc(HomeAbbreviation(g))
    ensures v.visitor.logo == TeamLogos.GetLogoSrc(VisitorAbbreviation(g))
    ensures v.home.name == TeamDisplayName(g.homeTeam) && v.visitor.name == TeamDisplayName(g.visitorTeam)
    ensures v.home.winner == Winners(g).homeWins && v.visitor.winner == Winners(g).visitorWins
  {
    var shown := ShowScores(g);
    var w := Winners(g);
    var e := Dimming(g);
    CardView(
      Side(TeamDisplayName(g.homeTeam), TeamLogos.GetLogoSrc(HomeAbbreviation(g)),
           if shown then Some(CellOf(g.homeScore)) else None, w.homeWins, e.homeDimmed),
      Classify(g, readDate),
      Side(TeamDisplayName(g.visitorTeam), TeamLogos.GetLogoSrc(VisitorAbbreviation(g)),
           if shown then Some(CellOf(g.visitorScore)) else None, w.visitorWins, e.visitorDimmed))
  }
}
