# kronz_bet_client: a Dafny model of the client's game logic

The client is a React application that lists the NBA games of a chosen day,
shows each game as a card, and opens a detail page with a score header, a
scores-by-period table and a box score per team. This project models the
decisions that application makes, module by module after the source files:

- `GameCard` (src/components/GameCard.jsx): the Final test, the card
  classification Final → Live → Scheduled → Unknown with its labels, score
  visibility, the winner flags, the dimming of the loser, team names and logos.
- `HomePage` (src/pages/HomePage.jsx): today's date string, the selected-date
  state and its guard, the fetch effect with the start-time sort, the saving
  of the date, and the card click that stores a per-game date and navigates.
  The page is a class whose fields are the component's state and whose
  `session` field stands for session storage.
- `GameDetailPage` (src/pages/GameDetailPage.jsx): the ordered checks of
  the route's id and the navigation date, the fetch outcomes, and the
  render gates (header, period table, player stats). The page state is a class.
- `GameDetails` (src/components/GameDetails.jsx): the prop check, the
  points sort, the per-team filters and the view decisions. The box-score
  state is a class.
- `QuarterScoresTable` (src/components/QuarterScoresTable.jsx): the period
  filter and the table built from it.
- `PlayerStatsRow` (src/components/PlayerStatsRow.jsx): the player name,
  the headshot address, the `imageLoaded` state (a class), and the cell defaults.
- `TeamLogos` (src/utils/teamLogos.js): the logo table and its lookup.
- `ThemeContext` (src/context/ThemeContext.jsx): the initial theme, the
  toggle, the provider (a class with the theme, the root's `dark` class
  and local storage), and the `useTheme` guard.

Supporting modules hold the shared pieces:

- `Wrappers`: `Option` and `Result`.
- `Text`: JavaScript truthiness and `||`, ASCII `toLowerCase`,
  `startsWith`/`endsWith`/`includes`, `String(n)` with its inverse, and
  `padStart(2, "0")`.
- `DatePattern`: the `\d{4}-\d{2}-\d{2}` test, whole, prefix-anchored and
  unanchored.
- `Seqs`: `Array.prototype.filter` and the subsequence order.
- `Ranking`: the stable library sort, for comparators that order by a rank.
- `Records`: the backend's records.

The date library (`parseISO`, `isValid`, `isToday`, `format`), `Date.parse`,
the clock and the backend's answers are parameters. A function
`readDate: string -> DateReading` gives what the library says about a
datetime string. A function `parseTime: string -> Option<int>` gives
`Date.parse`, with `None` for `NaN`. The clock is read as year, month index
and day. Each backend call ends in a `Fetch` value: the data, or a thrown
error's message.

## Model

Small helpers that only name one source expression have no row of their
own; the rows of the members built on them cover them:
`GameCard.Started` (`game.period > 0`, GameCard.jsx:20 and 93,
GameDetailPage.jsx:138; covered by `GameCard.Classify`, `GameCard.ShowScores`
and `GameDetailPage.HeaderOf`), `PlayerStatsRow.FullTitle` (the tooltip,
PlayerStatsRow.jsx:30 and 39; covered by `PlayerStatsRow.PlayerDisplayState.View`
and `PlayerStatsRow.FormattedNameAbbreviatesTitle`), `PlayerStatsRow.RowPlayer`
(`playerStat.player || {}`, PlayerStatsRow.jsx:51; covered by
`PlayerStatsRow.MissingPlayerCell`), `HomePage.HomePageState.View` (the render
of the page state; covered by `HomePage.HomeViewOf`) and
`ThemeContext.ThemeProvider.Value` (the context value, ThemeContext.jsx:37;
covered by `ThemeContext.UseTheme`).

| member | source | states |
|---|---|---|
| GameCard.IsFinal | src/components/GameCard.jsx:10-12 | A game is Final only with a non-empty status of at least two characters; a missing status is never Final. The exact spelling is stated by the next row. |
| GameCard.IsFinalBySpelling | src/components/GameCard.jsx:9-12 | The Final test accepts exactly "final" in any letter case, or a status starting with "f/" or "F/". A missing status is never Final. |
| GameCard.LiveLabel | src/components/GameCard.jsx:21-27 | The live label is the raw status exactly when that is non-empty and has no ":", "PM" or "AM"; otherwise it is "LIVE". The label never contains a clock marker. |
| GameCard.Classify | src/components/GameCard.jsx:7-77 | Final iff the Final test holds. Live iff not Final and period > 0. Scheduled iff neither of those and the datetime reads as a valid date. Unknown otherwise, showing the status or "N/A". A Scheduled game shows "Hoy" or the short date. It has no time exactly when the local time is 00:00 and the string ends in "T00:00:00Z". |
| GameCard.FinalIgnoresPeriod | src/components/GameCard.jsx:10-19 | A Final game is classified Final whatever its period. |
| GameCard.QuarterStatusAtPeriodZero | src/components/GameCard.jsx:20 | A "Q2" status with period 0 is neither Live nor Final. |
| GameCard.MidnightPlaceholderHasNoTime | src/components/GameCard.jsx:40-48 | A midnight UTC placeholder read as local midnight shows the date only. |
| GameCard.ShowScores | src/components/GameCard.jsx:93 | Whenever a side is marked the winner, the scores are shown. |
| GameCard.ShowScoresMatchesStatus | src/components/GameCard.jsx:93 | Scores are shown exactly for games classified Final or Live. |
| GameCard.Winners | src/components/GameCard.jsx:94-103 | The two winner flags are never both set. They are set only for a Final game with two numeric scores, and only for the strictly greater score. |
| GameCard.WinnerDecided | src/components/GameCard.jsx:96-103 | A Final game with two different scores has exactly one winner. A tie has none. |
| GameCard.WinnersSymmetric | src/components/GameCard.jsx:101-102 | Swapping home and visitor swaps the winner flags. |
| GameCard.Dimming | src/components/GameCard.jsx:108-111 | A side is dimmed iff the other side won, so only in a Final game and never both sides. |
| GameCard.TeamDisplayName | src/components/GameCard.jsx:106-107 | The name is the abbreviation, else the name, else "TEAM". It is never empty. |
| GameCard.GameCardView | src/components/GameCard.jsx:89-111 | The card's centre is the classification. Both scores show exactly for Final or Live games, with "-" for a missing score. Each side's name is its display name and its winner marker is that side's winner flag; winner and dimmed markers are consistent. The logos come from the logo lookup of each abbreviation. |
| HomePage.TodayString | src/pages/HomePage.jsx:8-14 | The string starts with the year's digits and a dash, and each padded field adds at least two digits. Its full shape is stated by the next two rows. |
| HomePage.TodayStringWellFormed | src/pages/HomePage.jsx:8-14 | For years 1000 to 9999, today's string is a whole YYYY-MM-DD match. |
| HomePage.TodayStringRoundTrip | src/pages/HomePage.jsx:8-14 | The three fields of today's string read back as the year, the month index plus one, and the day. |
| HomePage.InitialSelectedDate | src/pages/HomePage.jsx:22-28 | The initial date is the stored value when it is a whole match, else today's string. It is a whole match whenever today's string is. |
| DatePattern.AnchoringWeakens | src/pages/HomePage.jsx:24-38 | A whole match passes the prefix-anchored test, and that passes the unanchored test. |
| DatePattern.AnchoringStrict | src/pages/HomePage.jsx:80-85 | The inclusions are strict: a timestamp passes the prefix test but not the whole test, and text around a date passes only the unanchored test. |
| DatePattern.SyntaxOnly | src/pages/HomePage.jsx:112-117 | The test is syntactic: "2024-13-99" passes and "2024-3-1" does not. |
| DatePattern.WholeFields | src/pages/HomePage.jsx:24 | A whole match is digits, a dash, digits, a dash and digits at fixed places. |
| HomePage.StartTime | src/pages/HomePage.jsx:51-52 | A game with a truthy datetime has as start time exactly what `Date.parse` gives for it (none for `NaN`); a game without one has no start time. |
| HomePage.CompareAsWritten | src/pages/HomePage.jsx:50-57 | The comparator as written never puts a game without a start time first, puts a game with one before a game without, returns 1 whenever the first game has no datetime, returns 0 for two datetimes that both fail to parse, and returns the difference of two start times. |
| HomePage.CompareAsWrittenInconsistent | src/pages/HomePage.jsx:50-57 | When the first game has no datetime and the second has no start time (no datetime, or one that does not parse), the comparator as written returns 1 both ways. |
| HomePage.CompareByStart | src/pages/HomePage.jsx:50-57 | The corrected comparator puts a game first exactly when its start rank is not later: dated before undated, earlier before later. |
| HomePage.CompareByStartConsistent | src/pages/HomePage.jsx:50-57 | The corrected comparator is antisymmetric and transitive. |
| HomePage.ComparatorsAgreeOnDated | src/pages/HomePage.jsx:50-57 | When either game has a start time, both comparators give the same answer. |
| HomePage.SortGames | src/pages/HomePage.jsx:48-58 | The sorted copy, under the corrected comparator, has the response's games with their multiplicities. |
| HomePage.SortGamesOrder | src/pages/HomePage.jsx:48-58 | Under the corrected comparator, the sorted games are a permutation of the response, dated games come first in ascending start time, and games without a start time follow in response order. With the comparator as written, which is inconsistent, the whole resulting order is implementation-defined (see Findings). |
| HomePage.GamesFromResponse | src/pages/HomePage.jsx:46-58 | A response that is not an array gives no games. An array gives a permutation of it. |
| HomePage.CardDate | src/pages/HomePage.jsx:157 | The card date is the game's date up to its first "T". It falls back to the selected date when that part is empty or the game has no date. |
| HomePage.CardDateOfTimestamp | src/pages/HomePage.jsx:157 | A date followed by "T" and a time hands on exactly the date. |
| HomePage.GameDateKey | src/pages/HomePage.jsx:98 | The per-game key is the prefix "kronzGameDate_" followed by the id. |
| HomePage.GameDateKeysDistinct | src/pages/HomePage.jsx:15-16 | Different ids give different keys, and no game key equals the selected-date key. |
| HomePage.HomeViewOf | src/pages/HomePage.jsx:134-171 | The page shows loading iff loading; otherwise the error box iff there is an error; otherwise the cards, or the "no games" text for an empty list. |
| HomePage.HomePageState.constructor | src/pages/HomePage.jsx:18-28 | The date is the initializer's choice and a whole match. The games are empty, loading is on and there is no error. |
| HomePage.HomePageState.LoadGames | src/pages/HomePage.jsx:32-78 | An invalid date or a thrown fetch leaves the games empty and sets the error. A successful fetch stores the sorted games and clears the error. Loading ends false. |
| HomePage.HomePageState.SaveSelectedDate | src/pages/HomePage.jsx:81-85 | The date is written under "kronzSelectedDate" exactly when it passes the prefix test. |
| HomePage.HomePageState.HandleDateChange | src/pages/HomePage.jsx:112-117 | Only a whole match replaces the selected date, so a valid state stays valid. |
| HomePage.HomePageState.HandleCardClick | src/pages/HomePage.jsx:88-110 | A missing id or date changes nothing. Otherwise the date is stored under the game's key and the page navigates to "/game/"+id with the date in the state. A refused write sets the error instead. |
| HomePage.HomePageState.ClickCard | src/pages/HomePage.jsx:152-158 | A card click passes the game's id and its card date, which is never missing. A missing id changes nothing. A refused write sets the navigation error and neither stores nor navigates. Otherwise the date is stored under the game's key, the page navigates, and the error is untouched. |
| GameDetailPage.DetailDate | src/pages/GameDetailPage.jsx:18 | The date comes from the navigation state only: without a state there is no date. |
| GameDetailPage.CheckRoute | src/pages/GameDetailPage.jsx:25-43 | A missing id fails first, then a missing date, then a date failing the unanchored test. Each failure has its own message. Only when all pass is the fetch made, with that id and date. |
| GameDetailPage.CardDatePassesChecks | src/pages/GameDetailPage.jsx:18-43 | A card date from the home page passes the detail page's checks when the game has no date or its date starts with YYYY-MM-DD. |
| GameDetailPage.NotFoundMessage | src/pages/GameDetailPage.jsx:59-61 | The message holds the id at a fixed place and the date right after " on date ". |
| GameDetailPage.NotFoundNamesGame | src/pages/GameDetailPage.jsx:59-61 | The not-found error names both the id and the date. |
| GameDetailPage.DetailPageState.constructor | src/pages/GameDetailPage.jsx:20-22 | The page starts with no game, loading on and no error, a state that is valid. |
| GameDetailPage.DetailPageState.RunEffect | src/pages/GameDetailPage.jsx:24-72 | A failed check sets its error and fetches nothing. A game is stored on success. An empty answer gives the not-found error and a thrown error its message or "Failed to load game details.". Loading ends false. |
| GameDetailPage.DetailPageState.View | src/pages/GameDetailPage.jsx:75-175 | Loading, then the error, then "could not be loaded", then the main view, in that order. The "could not be loaded" screen is unreachable in a valid state. |
| GameDetailPage.NotLoadedUnreachable | src/pages/GameDetailPage.jsx:97-112 | After the effect there is always an error or a game, so the "could not be loaded" branch is never shown. |
| GameDetailPage.TeamTitle | src/pages/GameDetailPage.jsx:134-136 | A team's title is its full name, else its abbreviation. |
| GameDetailPage.HeaderOf | src/pages/GameDetailPage.jsx:114-151 | The header shows "visitor - home" scores iff period > 0 or Final, with the FINAL tag iff Final. Otherwise it shows the raw status. |
| GameDetailPage.HeaderAgreesWithCard | src/pages/GameDetailPage.jsx:114-116 | The header and the game card agree on score visibility and on Final. |
| GameDetailPage.PeriodTableOf | src/pages/GameDetailPage.jsx:154-162 | The period table appears only for a Final game with a non-empty period list. |
| GameDetailPage.StatsSectionOf | src/pages/GameDetailPage.jsx:163-175 | Player stats appear iff the id and both abbreviations are present, and they receive exactly those values. |
| GameDetails.ComparePoints | src/components/GameDetails.jsx:35 | The comparator puts a row first exactly when its points, with missing counted as -1, are not lower; it returns 0 exactly for equal points. |
| GameDetails.SortByPoints | src/components/GameDetails.jsx:33-37 | The stored stats are a permutation of the fetched rows, in non-increasing points, with missing points counting as -1. |
| GameDetails.SortByPointsOrder | src/components/GameDetails.jsx:34-36 | The sorted copy agrees with the written comparator on every pair, and rows with equal points keep their fetched order. |
| GameDetails.MissingPointsLast | src/components/GameDetails.jsx:35 | Every row after one without points has at most -1 points. |
| GameDetails.TeamRows | src/components/GameDetails.jsx:50-55 | A team's rows all carry its abbreviation and come from the stats. |
| GameDetails.TeamRowsSorted | src/components/GameDetails.jsx:50-55 | A team's rows are a subsequence of the sorted stats and are themselves sorted by points. |
| GameDetails.TeamRowsComplete | src/components/GameDetails.jsx:50-55 | Each row of the team appears as often as it was fetched. A row of another team or with no team does not appear. |
| GameDetails.TeamsDisjoint | src/components/GameDetails.jsx:50-55 | With two different abbreviations, no row is in both tables. |
| GameDetails.TeamTableOf | src/components/GameDetails.jsx:143-159 | The heading is the abbreviation or the fallback. The body says "No stats for this team." iff the team has no rows. |
| GameDetails.PlayerStatsState.constructor | src/components/GameDetails.jsx:9-12 | Stats start empty, loading on and no error. |
| GameDetails.PlayerStatsState.RunEffect | src/components/GameDetails.jsx:14-47 | Missing props give the missing-data error and empty stats, with no fetch. A thrown fetch gives empty stats and its message or "Failed to load player stats.". A successful fetch stores the sorted copy. Loading ends false. |
| GameDetails.PlayerStatsState.View | src/components/GameDetails.jsx:64-84 | Loading, then the error with its own text, then "No player stats" for empty stats, then the two team tables. |
| GameDetails.TablesNeedProps | src/components/GameDetails.jsx:92-167 | Tables are shown only when all props are present, and their headings are the two abbreviations. |
| QuarterScoresTable.Kept | src/components/QuarterScoresTable.jsx:14-24 | A kept period has a non-empty name starting with "Q" or "O". |
| QuarterScoresTable.KeptPeriods | src/components/QuarterScoresTable.jsx:14-24 | Every period left by the filter is kept, and none is added. |
| QuarterScoresTable.Headers | src/components/QuarterScoresTable.jsx:33 | One header per kept period, its name, in order. |
| QuarterScoresTable.Cells | src/components/QuarterScoresTable.jsx:71-93 | One cell per kept period, the team's score or "-" when it is missing. |
| QuarterScoresTable.Render | src/components/QuarterScoresTable.jsx:7-33 | A missing or empty list, or one where no period is kept, renders nothing. Otherwise every header is a quarter or an overtime, each row has one cell per header, and the labels fall back to "Away"/"Home". |
| QuarterScoresTable.KeptNonEmpty | src/components/QuarterScoresTable.jsx:27-29 | Some period survives the filter iff some period is kept. |
| QuarterScoresTable.RenderColumns | src/components/QuarterScoresTable.jsx:14-95 | The columns are the kept periods in input order, each with its name and two scores. Every kept period has a column and no other period does. |
| QuarterScoresTable.ZeroIsNotDash | src/components/QuarterScoresTable.jsx:76-93 | A cell shows "-" only for a missing score, so 0 shows as 0. |
| QuarterScoresTable.FilterExamples | src/components/QuarterScoresTable.jsx:14-24 | An overtime without a positive score is dropped. A quarter is kept whatever its scores. A period without a name is dropped. |
| PlayerStatsRow.FormattedName | src/components/PlayerStatsRow.jsx:7-10 | The name is the first initial and ".", a space, then the last name, which defaults to "Unknown". |
| PlayerStatsRow.FormattedNameAbbreviatesTitle | src/components/PlayerStatsRow.jsx:9-10 | The shown name and the tooltip end in the same last name and start with the same letter. |
| PlayerStatsRow.HeadshotUrl | src/components/PlayerStatsRow.jsx:13-15 | An address exists iff the id is truthy. It has the CDN prefix and ".png". |
| PlayerStatsRow.HeadshotUrlRoundTrip | src/components/PlayerStatsRow.jsx:14 | The player id reads back from the address. |
| PlayerStatsRow.PlayerDisplayState.constructor | src/components/PlayerStatsRow.jsx:18 | `imageLoaded` starts true exactly when there is an address. |
| PlayerStatsRow.PlayerDisplayState.OnImageError | src/components/PlayerStatsRow.jsx:20-26 | An image error clears `imageLoaded`. |
| PlayerStatsRow.PlayerDisplayState.View | src/components/PlayerStatsRow.jsx:29-47 | The name is shown as text alone iff there is no id or the image failed. Otherwise the image is shown with the name as alt text. |
| PlayerStatsRow.ImageErrorShowsName | src/components/PlayerStatsRow.jsx:20-31 | After an image error the cell shows the name alone. |
| PlayerStatsRow.MissingPlayerCell | src/components/PlayerStatsRow.jsx:51 | A row without a player shows " Unknown" as text. |
| PlayerStatsRow.RowCells | src/components/PlayerStatsRow.jsx:51-57 | The minutes cell is never blank, and the FG cell is at least three characters long and holds a "-". Defaults and read-back are stated by the next rows. |
| PlayerStatsRow.RowDefaults | src/components/PlayerStatsRow.jsx:51-57 | Minutes show "-" for any falsy value. Points, rebounds and assists show "-" only when missing, so 0 shows as 0. A missing made count makes the FG cell start with "--", a missing attempted count makes it end with "--", and both missing give "---". |
| PlayerStatsRow.CellText | src/components/PlayerStatsRow.jsx:56-57 | A missing count renders as "-", and a non-negative count as digits that read back as it. |
| PlayerStatsRow.FieldGoalsRoundTrip | src/components/PlayerStatsRow.jsx:87 | The FG cell splits at its first "-" into the made and attempted counts. |
| TeamLogos.LogoTableShape | src/utils/teamLogos.js:4-35 | Every entry maps a lower-case key k to "/logos/" + k + ".svg". |
| TeamLogos.GetLogoSrc | src/utils/teamLogos.js:38-42 | A falsy abbreviation gives nothing. Otherwise a logo exists iff the lower-cased abbreviation is a key, and it is that key's path. |
| TeamLogos.LogoCaseInsensitive | src/utils/teamLogos.js:40-41 | An abbreviation and its lower-case form find the same logo. |
| TeamLogos.LogoExamples | src/utils/teamLogos.js:38-42 | "LAL" finds "/logos/lal.svg"; "NBA" and "" find nothing. |
| TeamLogos.GetLogoSrcAsWritten | src/utils/teamLogos.js:41 | The bracket lookup as written agrees with the corrected one on table keys and on null. |
| TeamLogos.InheritedMemberLeaks | src/utils/teamLogos.js:41 | "Constructor" reaches an inherited member of the object instead of null. |
| TeamLogos.LogoLookupAgrees | src/utils/teamLogos.js:38-42 | Outside the two inherited names, both lookups agree, and a found logo is a table value. |
| ThemeContext.InitialTheme | src/context/ThemeContext.jsx:14-18 | The initial theme is the stored value when non-empty, else "light". |
| ThemeContext.NextTheme | src/context/ThemeContext.jsx:32-34 | Toggling gives "dark" exactly from "light", and "light" from everything else. |
| ThemeContext.ToggleTwice | src/context/ThemeContext.jsx:32-34 | Toggling twice from "light" or "dark" returns to it. |
| ThemeContext.ToggleTimesAlternates | src/context/ThemeContext.jsx:32-34 | After n ≥ 1 toggles the theme alternates: from "light", odd n gives "dark"; from any other value, odd n gives "light". |
| ThemeContext.ThemeProvider.constructor | src/context/ThemeContext.jsx:14-29 | The provider starts from the initial theme and stores it. The dark class matches the theme. |
| ThemeContext.ThemeProvider.ApplyTheme | src/context/ThemeContext.jsx:21-29 | The dark class is set exactly for "dark", and the theme is saved under "theme" with nothing else changed. |
| ThemeContext.ThemeProvider.ToggleTheme | src/context/ThemeContext.jsx:32-34 | The theme becomes the toggled one, and the class and storage follow it. |
| ThemeContext.UseTheme | src/context/ThemeContext.jsx:45-51 | Outside a provider the hook fails with "useTheme must be used within a ThemeProvider"; inside, it returns the context value. |
| Ranking.SortBy | src/pages/HomePage.jsx:50-57 | The library sort for a consistent comparator that orders by a rank: a permutation, ordered by rank. |
| Ranking.SortByStable | src/components/GameDetails.jsx:34-36 | The sort keeps the relative order of equally ranked elements. |
| Ranking.FilterKeepsSorted | src/components/GameDetails.jsx:50-55 | Filtering a sorted list leaves it sorted. |
| Seqs.Filter | src/components/GameDetails.jsx:50-55 | `filter` keeps only accepted elements and never adds any. |
| Seqs.FilterIsSubsequence | src/components/QuarterScoresTable.jsx:14-24 | `filter` preserves order. |
| Seqs.FilterCount | src/components/QuarterScoresTable.jsx:14-24 | `filter` keeps every accepted element as often as it occurs, and no rejected one. |

## Left out

- The backend calls of src/services/api.js are not part of this model. Each call's outcome is a parameter: data, an empty answer, or a thrown error with its message. `getBoxScoreByGameId` answers `[]` on its own errors, so the box score's thrown-error branch is rarely reached in practice. The model keeps that branch. A non-iterable box-score answer (an object, a number, a boolean) makes `[...data]` throw a TypeError, which the catch turns into its message; the model represents that outcome as a thrown error with that message. A string answer is iterable and is spread into its characters, which then become rows without points; that case is not modelled.
- GameDetailPage.DetailPageState.RunEffect: the detail page imports `getGameDetailsById` (src/pages/GameDetailPage.jsx:6), but src/services/api.js exports only `getGamesByDate` and `getBoxScoreByGameId`. As given, that import does not resolve and the page's module would not load. The model assumes the function exists and lets its answer be any game, an empty answer, or a thrown error.
- The date library and `Date.parse` are parameters. The model does not capture time zones, the ISO parser or the formats "dd/MM/yy" and "HH:mm".
- React's effect scheduling, re-renders, the `isMounted` guards and spinners are left out. Each effect is modelled as run to completion once.
- Routing and JSX markup are left out. Navigation is the value of a `navigate` call, and the header and App components are presentation only.
- The FG% cell is left out, because it is floating-point arithmetic.
- The `Math.random` React keys are left out, because they are randomness with no visible effect.
- Live polling, win probability and a detail-date fallback from session storage do not exist in the code; api.js:35-36 says polling was removed. The detail page reads its date from the navigation state only, and the model does the same.
- Case folding covers ASCII letters only; JavaScript's `toLowerCase` also folds other scripts.
- Player ids are natural numbers. A numeric string id, which JavaScript would also accept, is not modelled.
- Elements of the games array are all game records. `null` or other values inside the array are not modelled.
- Null and undefined are both `None`. The JSX renders both as nothing, and the code never tells them apart, except in `===` with a missing prop. There, stats are always empty, so no table is affected.
- HomePage.HomePageState.constructor: `Valid()` is promised only for clock years 1000 to 9999, because other years do not give a four-digit year field.
- HomePage.HomePageState.LoadGames: stores the games sorted with the corrected comparator (`SortGames`), not the one as written, which is inconsistent, so that the resulting order of the whole list is implementation-defined (see Findings).
- GameCard.GameCardView: the logos come from the corrected own-key lookup `GetLogoSrc`, not the bracket lookup as written, which also finds inherited members (see Findings).
- PlayerStatsRow.RowCells: minutes are a string or missing. A numeric `min` is not modelled; JavaScript's `||` would show "-" for 0 and the number otherwise.
- GameCard.Classify: a parse that throws and a parse giving an invalid date are two values of the date reading that fall through alike. Which inputs make the library throw is not modelled.

## Findings

| source | as written | input that shows it | evidently intended | confidence | as-written member | corrected member |
|---|---|---|---|---|---|---|
| src/pages/HomePage.jsx:50-57 | The sort comparator returns 1 when the first game has no datetime, even when the second has none either or has one that does not parse. | Two games whose `datetime` is null, or one with a null `datetime` and one with `datetime` "TBD": `compare(a, b) == compare(b, a) == 1`. | Undated games compare equal, so the stable sort keeps their order after the dated ones. | medium, not executed | HomePage.CompareAsWrittenInconsistent | HomePage.CompareByStartConsistent |
| src/utils/teamLogos.js:41 | `teamLogos[lowerCaseAbbr] \|\| null` also finds members inherited from `Object.prototype`. | The abbreviation "Constructor" lowers to "constructor" and yields the `Object` function, a truthy non-path. | Only the table's own keys give a logo; anything else gives null. | medium, not executed | TeamLogos.InheritedMemberLeaks | TeamLogos.LogoLookupAgrees |
