/** src/pages/HomePage.jsx: the list of games for a selected date. The page
    keeps `selectedDate`, `games`, `loading` and `error`, validates the date
    before fetching, sorts the fetched games by start time, remembers the
    date in session storage, and on a card click stores the game's date
    under a per-game key before navigating to the detail page. */
module HomePage {
  import opened Wrappers
  import opened Text
  import opened Records
  import opened DatePattern
  import opened Ranking

  const SelectedDateKey := "kronzSelectedDate"
  const GameDatePrefix := "kronzGameDate_"
  const InvalidDateMessage := "Invalid date selected."
  const NavigationErrorMessage := "Could not prepare navigation. Please try again."

  /** `getTodaysDateString` for a local-clock reading: the year, the month
      index (0 for January) plus one and the day of the month, the last two
      padded to two digits. */
  function TodayString(year: nat, monthIndex: nat, day: nat): (r: string)
    ensures |r| >= |NatToString(year)| + 6
    ensures r[..|NatToString(year)|] == NatToString(year) && r[|NatToString(year)|] == '-'
  {
    NatToString(year) + "-" + PadStart2(NatToString(monthIndex + 1)) + "-" + PadStart2(NatToString(day))
  }

  /** Each field of `y + "-" + m + "-" + d` is found back at its place. */
  lemma FieldSlices(y: string, m: string, d: string)
    requires |y| == 4 && |m| == 2 && |d| == 2
    ensures var r := y + "-" + m + "-" + d;
      |r| == 10 && r[0..4] == y && r[4] == '-' && r[5..7] == m && r[7] == '-' && r[8..10] == d
  {
    var r := y + "-" + m + "-" + d;
    assert r[0..4] == y;
    assert r[5..7] == m;
    assert r[8..10] == d;
  }

  /** Four digits, a dash, two digits, a dash and two digits make a whole
      match. */
  lemma JoinedFields(y: string, m: string, d: string)
    requires |y| == 4 && |m| == 2 && |d| == 2
    requires AllDigits(y) && AllDigits(m) && AllDigits(d)
    ensures MatchesWhole(y + "-" + m + "-" + d)
  {
    var r := y + "-" + m + "-" + d;
    FieldSlices(y, m, d);
    forall k | 0 <= k < |Shape|
      ensures AtomMatches(Shape[k], r[k])
    {
      if k < 4 {
        assert r[k] == r[0..4][k];
      } else if 5 <= k < 7 {
        assert r[k] == r[5..7][k - 5];
      } else if 8 <= k {
        assert r[k] == r[8..10][k - 8];
      }
    }
  }

  /** A month or day number, padded, is two digits that read back as it. */
  lemma PaddedField(n: nat)
    requires 1 <= n <= 99
    ensures var f := PadStart2(NatToString(n));
      |f| == 2 && AllDigits(f) && ParseNat(f) == n
  {
    NatToStringLength(n);
    PadStart2Value(NatToString(n));
  }

  /** For any reading of a clock in years 1000 to 9999, the string is a
      whole YYYY-MM-DD match. */
  lemma TodayStringWellFormed(year: nat, monthIndex: nat, day: nat)
    requires 1000 <= year <= 9999 && monthIndex < 12 && 1 <= day <= 31
    ensures MatchesWhole(TodayString(year, monthIndex, day))
  {
    NatToStringLength(year);
    PaddedField(monthIndex + 1);
    PaddedField(day);
    JoinedFields(NatToString(year), PadStart2(NatToString(monthIndex + 1)), PadStart2(NatToString(day)));
  }

  /** ... whose fields read back as the year, the month number (the month
      index plus one) and the day. */
  lemma TodayStringRoundTrip(year: nat, monthIndex: nat, day: nat)
    requires 1000 <= year <= 9999 && monthIndex < 12 && 1 <= day <= 31
    ensures var r := TodayString(year, monthIndex, day);
      && |r| == 10
      && AllDigits(r[0..4]) && ParseNat(r[0..4]) == year
      && AllDigits(r[5..7]) && ParseNat(r[5..7]) == monthIndex + 1
      && AllDigits(r[8..10]) && ParseNat(r[8..10]) == day
  {
    NatToStringLength(year);
    PaddedField(monthIndex + 1);
    PaddedField(day);
    FieldSlices(NatToString(year), PadStart2(NatToString(monthIndex + 1)), PadStart2(NatToString(day)));
  }

  /** The `selectedDate` initializer: the stored date when it is a whole
      YYYY-MM-DD match, else today's string. */
  function InitialSelectedDate(stored: Option<string>, today: string): (r: string)
    ensures r == today || (stored.Some? && r == stored.value)
    ensures stored.Some? && MatchesWhole(stored.value) ==> r == stored.value
    ensures !(Truthy(stored) && MatchesWhole(stored.value)) ==> r == today
    ensures MatchesWhole(today) ==> MatchesWhole(r)
  {
    if Truthy(stored) && MatchesWhole(stored.value) then stored.value else today
  }

  /** `Date.parse(game.datetime)` when the datetime is present; `None` for a
      missing datetime or a `NaN` parse. */
  function StartTime(g: Game, parseTime: string -> Option<int>): (r: Option<int>)
    ensures r.Some? ==> Truthy(g.datetime) && r == parseTime(g.datetime.value)
    ensures !Truthy(g.datetime) ==> r.None?
    ensures Truthy(g.datetime) ==> r == parseTime(g.datetime.value)
  {
    if Truthy(g.datetime) then parseTime(g.datetime.value) else None
  }

  function StartRank(g: Game, parseTime: string -> Option<int>): Rank
  {
    match StartTime(g, parseTime)
    case Some(t) => At(t)
    case None => Last
  }

  /** The comparator passed to `sort`, as written. A missing datetime reads
      as 0 and an unparseable one as `NaN`. */
  function CompareAsWritten(a: Game, b: Game, parseTime: string -> Option<int>): (r: int)
    ensures StartTime(a, parseTime).None? ==> r >= 0
    ensures StartTime(a, parseTime).Some? && StartTime(b, parseTime).None? ==> r == -1
    ensures !Truthy(a.datetime) ==> r == 1
    ensures Truthy(a.datetime) && Truthy(b.datetime) && StartTime(a, parseTime).None? && StartTime(b, parseTime).None? ==> r == 0
    ensures StartTime(a, parseTime).Some? && StartTime(b, parseTime).Some? ==>
      r == StartTime(a, parseTime).value - StartTime(b, parseTime).value
  {
    var tA := if Truthy(a.datetime) then parseTime(a.datetime.value) else Some(0);
    var tB := if Truthy(b.datetime) then parseTime(b.datetime.value) else Some(0);
    if tA.None? && tB.None? then 0
    else if tA.None? || !Truthy(a.datetime) then 1
    else if tB.None? || !Truthy(b.datetime) then -1
    else tA.value - tB.value
  }

  /** A game without a datetime and a game without a start time (no
      datetime, or one that does not parse) each compare greater than the
      other, so the comparator is not consistent and the whole order `sort`
      gives is implementation-defined. */
  lemma CompareAsWrittenInconsistent(a: Game, b: Game, parseTime: string -> Option<int>)
    requires !Truthy(a.datetime) && StartTime(b, parseTime).None?
    ensures CompareAsWritten(a, b, parseTime) == 1 && CompareAsWritten(b, a, parseTime) == 1
  {
  }

  /** The comparator as evidently intended: dated games in ascending start
      time, then every undated game, undated games being equal. */
  function CompareByStart(a: Game, b: Game, parseTime: string -> Option<int>): (r: int)
    ensures r <= 0 <==> RankLe(StartRank(a, parseTime), StartRank(b, parseTime))
  {
    match (StartTime(a, parseTime), StartTime(b, parseTime))
    case (Some(x), Some(y)) => x - y
    case (Some(_), None) => -1
    case (None, Some(_)) => 1
    case (None, None) => 0
  }

  /** The corrected comparator is consistent: swapping its arguments flips
      its sign, and "not after" is transitive. */
  lemma CompareByStartConsistent(a: Game, b: Game, c: Game, parseTime: string -> Option<int>)
    ensures CompareByStart(a, b, parseTime) < 0 <==> CompareByStart(b, a, parseTime) > 0
    ensures CompareByStart(a, b, parseTime) == 0 <==> CompareByStart(b, a, parseTime) == 0
    ensures CompareByStart(a, b, parseTime) <= 0 && CompareByStart(b, c, parseTime) <= 0 ==> CompareByStart(a, c, parseTime) <= 0
  {
  }

  /** Whenever at least one of the two games has a start time, the comparator
      as written and the corrected one give the same answer. */
  lemma ComparatorsAgreeOnDated(a: Game, b: Game, parseTime: string -> Option<int>)
    requires StartTime(a, parseTime).Some? || StartTime(b, parseTime).Some?
    ensures CompareAsWritten(a, b, parseTime) == CompareByStart(a, b, parseTime)
  {
  }

  /** The sorted copy of the fetched games. */
  function SortGames(games: seq<Game>, parseTime: string -> Option<int>): (r: seq<Game>)
    ensures |r| == |games| && multiset(r) == multiset(games)
  {
    SortBy(games, g => StartRank(g, parseTime))
  }

  /** The sorted list is a permutation of the response; games with a start
      time come first in ascending time, then the undated ones in the order
      the response gave them. */
  lemma SortGamesOrder(games: seq<Game>, parseTime: string -> Option<int>)
    ensures var r := SortGames(games, parseTime);
      && multiset(r) == multiset(games)
      && (forall i, j :: 0 <= i < j < |r| ==> CompareByStart(r[i], r[j], parseTime) <= 0)
      && (forall i, j :: 0 <= i < j < |r| && StartTime(r[j], parseTime).Some? ==>
            StartTime(r[i], parseTime).Some? && StartTime(r[i], parseTime).value <= StartTime(r[j], parseTime).value)
      && WithRank(r, g => StartRank(g, parseTime), Last) == WithRank(games, g => StartRank(g, parseTime), Last)
  {
    var rank := g => StartRank(g, parseTime);
    var r := SortGames(games, parseTime);
    assert SortedBy(r, rank);
    forall i, j | 0 <= i < j < |r|
      ensures CompareByStart(r[i], r[j], parseTime) <= 0
    {
      assert RankLe(rank(r[i]), rank(r[j]));
    }
    SortByStable(games, rank, Last);
  }

  /** The body of a list response: an array of games, or anything else. */
  datatype ListData = GameArray(games: seq<Game>) | NotAnArray

  /** What the page keeps from a successful fetch: the sorted games, or
      nothing when the response is not an array. */
  function GamesFromResponse(data: ListData, parseTime: string -> Option<int>): (r: seq<Game>)
    ensures data.NotAnArray? ==> r == []
    ensures data.GameArray? ==> multiset(r) == multiset(data.games)
  {
    match data
    case NotAnArray => []
    case GameArray(gs) => SortGames(gs, parseTime)
  }

  /** The date a card click hands on: `game.date` up to its first "T", or the
      selected date when that is empty or the game has no date. */
  function CardDate(g: Game, selectedDate: string): (r: string)
    ensures r == selectedDate || (g.date.Some? && StartsWith(g.date.value, r) && r != "" && 'T' !in r)
    ensures g.date.Some? && g.date.value != "" && g.date.value[0] != 'T' ==> r == BeforeFirst(g.date.value, 'T')
    ensures g.date.None? ==> r == selectedDate
  {
    OrElse(if g.date.Some? then Some(BeforeFirst(g.date.value, 'T')) else None, selectedDate)
  }

  /** A date followed by "T" and a time hands on only the date. */
  lemma CardDateOfTimestamp(g: Game, selectedDate: string, day: string, time: string)
    requires day != "" && 'T' !in day
    requires g.date == Some(day + "T" + time)
    ensures CardDate(g, selectedDate) == day
  {
    var s := day + "T" + time;
    var r := BeforeFirst(s, 'T');
    assert s[..|day|] == day;
    assert s[|day|] == 'T';
    assert |r| == |day| by {
      assert |r| <= |day| by {
        assert r[..|r|] == s[..|r|];
      }
    }
  }

  /** The session key of a game's date: the prefix, then the id. */
  function GameDateKey(gameId: string): (k: string)
    ensures StartsWith(k, GameDatePrefix) && k[|GameDatePrefix|..] == gameId
  {
    GameDatePrefix + gameId
  }

  /** Different games get different keys, and no game key overwrites the
      selected date. */
  lemma GameDateKeysDistinct(a: string, b: string)
    ensures GameDateKey(a) == GameDateKey(b) ==> a == b
    ensures GameDateKey(a) != SelectedDateKey
  {
    if GameDateKey(a) == GameDateKey(b) {
      assert a == GameDateKey(a)[|GameDatePrefix|..];
    }
    assert GameDateKey(a)[5] == 'G' && SelectedDateKey[5] == 'S';
  }

  /** What the page shows: the loading message, the error box, the cards,
      or the "no games" message. */
  datatype HomeView = LoadingGames(date: string) | ErrorBox(message: string) | GameList(games: seq<Game>) | NoGames(message: string)

  function HomeViewOf(loading: bool, error: Option<string>, games: seq<Game>, selectedDate: string): (v: HomeView)
    ensures v.LoadingGames? <==> loading
    ensures v.ErrorBox? <==> !loading && Truthy(error)
    ensures v.ErrorBox? ==> v.message == error.value
    ensures v.GameList? ==> v.games == games && |games| > 0
    ensures v.NoGames? <==> !loading && !Truthy(error) && games == []
  {
    if loading then LoadingGames(selectedDate)
    else if Truthy(error) then ErrorBox(error.value)
    else if |games| > 0 then GameList(games)
    else NoGames("No games found scheduled for " + OrElse(Some(selectedDate), "the selected date") + ".")
  }

  class HomePageState {
    var selectedDate: string
    var games: seq<Game>
    var loading: bool
    var error: Option<string>
    /** The browser's session storage. */
    var session: map<string, string>

    /** The selected date is always a whole YYYY-MM-DD match. */
    ghost predicate Valid()
      reads this
    {
      MatchesWhole(selectedDate)
    }

    function View(): HomeView
      reads this
    {
      HomeViewOf(loading, error, games, selectedDate)
    }

    /** The first render, reading the clock and session storage. */
    constructor (storage: map<string, string>, year: nat, monthIndex: nat, day: nat)
      requires monthIndex < 12 && 1 <= day <= 31
      ensures 1000 <= year <= 9999 ==> Valid()
      ensures selectedDate == InitialSelectedDate(Lookup(storage, SelectedDateKey), TodayString(year, monthIndex, day))
      ensures games == [] && loading && error == None && session == storage
    {
      var today := TodayString(year, monthIndex, day);
      var initial := InitialSelectedDate(Lookup(storage, SelectedDateKey), today);
      if 1000 <= year <= 9999 {
        TodayStringWellFormed(year, monthIndex, day);
        assert MatchesWhole(initial);
      }
      selectedDate := initial;
      games := [];
      loading := true;
      error := None;
      session := storage;
    }

    /** The fetch effect run to completion for the current date, with the
        backend's answer. */
    method LoadGames(response: Fetch<ListData>, parseTime: string -> Option<int>)
      modifies this`games, this`loading, this`error
      ensures !loading
      ensures !MatchesAnywhere(selectedDate) ==> games == [] && error == Some(InvalidDateMessage)
      ensures MatchesAnywhere(selectedDate) && response.Threw? ==>
        games == [] && error == Some(OrElse(response.message, "Failed"))
      ensures MatchesAnywhere(selectedDate) && response.Fetched? ==>
        games == GamesFromResponse(response.value, parseTime) && error == None
      ensures View().ErrorBox? <==> error.Some?
    {
      loading := true;
      error := None;
      if !MatchesAnywhere(selectedDate) {
        error := Some(InvalidDateMessage);
        loading := false;
        games := [];
        return;
      }
      match response {
        case Fetched(data) =>
          games := GamesFromResponse(data, parseTime);
          error := None;
        case Threw(message) =>
          error := Some(OrElse(message, "Failed"));
          games := [];
      }
      loading := false;
    }

    /** The save effect: the selected date is written when it starts with a
        YYYY-MM-DD date. */
    method SaveSelectedDate()
      modifies this`session
      ensures MatchesStart(selectedDate) ==> session == old(session)[SelectedDateKey := selectedDate]
      ensures !MatchesStart(selectedDate) ==> session == old(session)
    {
      if selectedDate != "" && MatchesStart(selectedDate) {
        session := session[SelectedDateKey := selectedDate];
      }
    }

    /** `handleDateChange`: only a whole YYYY-MM-DD match replaces the date. */
    method HandleDateChange(value: string)
      modifies this`selectedDate
      ensures selectedDate == if MatchesWhole(value) then value else old(selectedDate)
      ensures old(Valid()) ==> Valid()
    {
      if value != "" && MatchesWhole(value) {
        selectedDate := value;
      }
    }

    /** `handleCardClick`: with an id and a date, store the date under the
        game's key and navigate to its page carrying the date; when storage
        refuses the write, show an error instead. */
    method HandleCardClick(gameId: Option<string>, gameDate: Option<string>, storageWritable: bool)
      returns (nav: Option<Navigation>)
      modifies this`session, this`error
      ensures !Truthy(gameId) || !Truthy(gameDate) ==>
        nav == None && session == old(session) && error == old(error)
      ensures Truthy(gameId) && Truthy(gameDate) && !storageWritable ==>
        nav == None && session == old(session) && error == Some(NavigationErrorMessage)
      ensures Truthy(gameId) && Truthy(gameDate) && storageWritable ==>
        && session == old(session)[GameDateKey(gameId.value) := gameDate.value]
        && error == old(error)
        && nav == Some(Navigation("/game/" + gameId.value, NavState(gameDate)))
    {
      nav := None;
      if !Truthy(gameId) || !Truthy(gameDate) {
        return;
      }
      if storageWritable {
        session := session[GameDateKey(gameId.value) := gameDate.value];
        nav := Some(Navigation("/game/" + gameId.value, NavState(gameDate)));
      } else {
        error := Some(NavigationErrorMessage);
      }
    }

    /** A click on the card of `g`: its id and its resolved date. With a valid
        page state the date is never missing, so only a missing id stops it,
        and only a refused write sets the error. */
    method ClickCard(g: Game, storageWritable: bool) returns (nav: Option<Navigation>)
      requires Valid()
      modifies this`session, this`error
      ensures Valid()
      ensures !Truthy(g.id) ==> nav == None && session == old(session) && error == old(error)
      ensures Truthy(g.id) && !storageWritable ==>
        nav == None && session == old(session) && error == Some(NavigationErrorMessage)
      ensures Truthy(g.id) && storageWritable ==>
        && error == old(error)
        && session == old(session)[GameDateKey(g.id.value) := CardDate(g, selectedDate)]
        && nav == Some(Navigation("/game/" + g.id.value, NavState(Some(CardDate(g, selectedDate)))))
    {
      var date := CardDate(g, selectedDate);
      assert date != "";
      nav := HandleCardClick(g.id, Some(date), storageWritable);
    }
  }
}
