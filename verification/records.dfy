/** The records the client receives from its REST backend, as the components
    read them. Every field the JavaScript reads with `?.`, `||` or `??` is an
    `Option`: `None` stands for a missing, `null` or `undefined` value. */
module Records {
  import opened Wrappers

  datatype Team = Team(abbreviation: Option<string>, name: Option<string>, fullName: Option<string>)

  /** One row of `period_scores`. */
  datatype PeriodScore = PeriodScore(periodName: Option<string>, homeScore: Option<int>, visitorScore: Option<int>)

  datatype Game = Game(
    id: Option<string>,
    date: Option<string>,
    datetime: Option<string>,
    status: Option<string>,
    period: Option<int>,
    homeTeam: Option<Team>,
    visitorTeam: Option<Team>,
    homeScore: Option<int>,
    visitorScore: Option<int>,
    periodScores: Option<seq<PeriodScore>>)

  datatype Player = Player(id: Option<nat>, firstName: Option<string>, lastName: Option<string>)

  /** One per-player row of a box score; `teamAbbreviation` is `team?.abbreviation`. */
  datatype StatRow = StatRow(
    player: Option<Player>,
    teamAbbreviation: Option<string>,
    minutes: Option<string>,
    pts: Option<int>,
    reb: Option<int>,
    ast: Option<int>,
    fgm: Option<int>,
    fga: Option<int>)

  /** The router location state a navigation carries (`location.state`). */
  datatype NavState = NavState(gameDate: Option<string>)

  /** A `navigate(path, { state })` call. */
  datatype Navigation = Navigation(path: string, state: NavState)

  /** How an awaited backend call ended: its value, or a thrown error's `message`. */
  datatype Fetch<T> = Fetched(value: T) | Threw(message: Option<string>)

  /** What `value ?? "-"` renders: a dash for a missing number, else the number. */
  datatype Cell = Dash | Num(n: int)

  function CellOf(o: Option<int>): (c: Cell)
    ensures c.Dash? <==> o.None?
    ensures o.Some? ==> c == Num(o.value)
  {
    match o
    case None => Dash
    case Some(n) => Num(n)
  }

  function HomeAbbreviation(g: Game): Option<string>
  {
    match g.homeTeam
    case None => None
    case Some(t) => t.abbreviation
  }

  function VisitorAbbreviation(g: Game): Option<string>
  {
    match g.visitorTeam
    case None => None
    case Some(t) => t.abbreviation
  }

  /** `storage.getItem(key)` on a Web Storage area: the stored string, or
      `null` for a missing key. */
  function Lookup(storage: map<string, string>, key: string): Option<string>
  {
    if key in storage then Some(storage[key]) else None
  }
}
