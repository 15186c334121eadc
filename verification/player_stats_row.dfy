/** src/components/PlayerStatsRow.jsx: one row of a box-score table. The
    player cell shows a headshot beside the abbreviated name, or the name
    alone when the player has no id or the headshot failed to load; the
    other cells show the stats with "-" for missing values. */
module PlayerStatsRow {
  import opened Wrappers
  import opened Text
  import opened Records

  const HeadshotPrefix := "https://cdn.nba.com/headshots/nba/latest/260x190/"

  /** `player?.first_name || ""`. */
  function FirstName(p: Player): string
  {
    OrElse(p.firstName, "")
  }

  /** `player?.last_name || "Unknown"`. */
  function LastName(p: Player): string
  {
    OrElse(p.lastName, "Unknown")
  }

  /** `${initial} ${lastName}`: the first initial and a dot (nothing without
      a first name), a space, then the last name. */
  function FormattedName(p: Player): (r: string)
    ensures FirstName(p) != "" ==> r == [FirstName(p)[0]] + ". " + LastName(p)
    ensures FirstName(p) == "" ==> r == " " + LastName(p)
    ensures EndsWith(r, LastName(p)) && LastName(p) != ""
  {
    var first := FirstName(p);
    var initial := if first != "" then [first[0]] + "." else "";
    var r := initial + " " + LastName(p);
    assert r[|r| - |LastName(p)|..] == LastName(p);
    r
  }

  /** The tooltip, `${firstName} ${lastName}`. */
  function FullTitle(p: Player): string
  {
    FirstName(p) + " " + LastName(p)
  }

  /** The shown name keeps just enough of the tooltip: the same last name,
      and the first letter of the same first name. */
  lemma FormattedNameAbbreviatesTitle(p: Player)
    ensures var f := FormattedName(p); var t := FullTitle(p);
      && EndsWith(f, LastName(p)) && EndsWith(t, LastName(p))
      && (FirstName(p) != "" ==> f[0] == t[0] && f[1] == '.')
      && |f| <= |t| + 1
  {
    var t := FullTitle(p);
    assert t[|t| - |LastName(p)|..] == LastName(p);
  }

  /** The headshot address: built only for a truthy (non-zero) id. */
  function HeadshotUrl(id: Option<nat>): (r: Option<string>)
    ensures r.Some? <==> id.Some? && id.value != 0
    ensures r.Some? ==> StartsWith(r.value, HeadshotPrefix) && EndsWith(r.value, ".png")
  {
    if id.Some? && id.value != 0 then
      var url := HeadshotPrefix + NatToString(id.value) + ".png";
      assert url[..|HeadshotPrefix|] == HeadshotPrefix;
      assert url[|url| - 4..] == ".png";
      Some(url)
    else None
  }

  /** The id can be read back from the address: different players get
      different headshots. */
  lemma HeadshotUrlRoundTrip(id: nat)
    requires id != 0
    ensures var url := HeadshotUrl(Some(id)).value;
      && AllDigits(url[|HeadshotPrefix|..|url| - 4])
      && ParseNat(url[|HeadshotPrefix|..|url| - 4]) == id
  {
    var url := HeadshotUrl(Some(id)).value;
    assert url[|HeadshotPrefix|..|url| - 4] == NatToString(id);
  }

  /** What the player cell shows. */
  datatype PlayerCell =
    | TextOnly(title: string, text: string)
    | WithImage(src: string, alt: string, title: string, text: string)

  /** `PlayerDisplay` with its `imageLoaded` state. */
  class PlayerDisplayState {
    const player: Player
    var imageLoaded: bool

    /** The first render: the image is assumed loaded when there is an address. */
    constructor (player: Player)
      ensures this.player == player
      ensures imageLoaded <==> HeadshotUrl(player.id).Some?
    {
      this.player := player;
      imageLoaded := HeadshotUrl(player.id).Some?;
    }

    /** `handleImageError`: the headshot failed, fall back to the name. It is
        the only change this state ever undergoes. */
    method OnImageError()
      modifies this`imageLoaded
      ensures !imageLoaded
    {
      imageLoaded := false;
    }

    function View(): (v: PlayerCell)
      reads this
      ensures v.TextOnly? <==> HeadshotUrl(player.id).None? || !imageLoaded
      ensures v.WithImage? ==> Some(v.src) == HeadshotUrl(player.id) && v.alt == FormattedName(player) && v.text == FormattedName(player)
      ensures v.title == FullTitle(player)
      ensures v.TextOnly? ==> v.text == FormattedName(player)
    {
      var url := HeadshotUrl(player.id);
      if url.None? || !imageLoaded then TextOnly(FullTitle(player), FormattedName(player))
      else WithImage(url.value, FormattedName(player), FullTitle(player), FormattedName(player))
    }
  }

  /** A failed headshot stays failed: after an error the cell shows the name
      alone whatever the player. */
  method ImageErrorShowsName(player: Player) returns (v: PlayerCell)
    ensures v == TextOnly(FullTitle(player), FormattedName(player))
  {
    var display := new PlayerDisplayState(player);
    display.OnImageError();
    v := display.View();
  }

  /** How a number cell renders as text: "-" for a missing value. */
  function CellText(c: Cell): (r: string)
    ensures c.Dash? ==> r == "-"
    ensures c.Num? && c.n >= 0 ==> AllDigits(r) && r != "" && ParseNat(r) == c.n
  {
    match c
    case Dash => "-"
    case Num(n) => IntToString(n)
  }

  /** The cells after the player cell. The FG% cell is not modelled. */
  datatype StatCells = StatCells(minutes: string, points: Cell, rebounds: Cell, assists: Cell, fieldGoals: string)

  /** The player a row shows: `playerStat.player || {}`. */
  function RowPlayer(s: StatRow): Player
  {
    if s.player.Some? then s.player.value else Player(None, None, None)
  }

  /** A row without a player shows " Unknown", as text only. */
  method MissingPlayerCell(s: StatRow) returns (v: PlayerCell)
    requires s.player.None?
    ensures v == TextOnly(" Unknown", " Unknown")
  {
    var display := new PlayerDisplayState(RowPlayer(s));
    v := display.View();
  }

  function RowCells(s: StatRow): (r: StatCells)
    ensures r.minutes != ""
    ensures |r.fieldGoals| >= 3 && '-' in r.fieldGoals
  {
    StatCells(OrElse(s.minutes, "-"), CellOf(s.pts), CellOf(s.reb), CellOf(s.ast),
              CellText(CellOf(s.fgm)) + "-" + CellText(CellOf(s.fga)))
  }

  /** Minutes show "-" for any falsy value, so an empty string too; the
      numbers show "-" only when missing, so 0 shows as 0; a missing made or
      attempted count shows "-" on its side of the FG cell's dash. */
  lemma RowDefaults(s: StatRow)
    ensures !Truthy(s.minutes) ==> RowCells(s).minutes == "-"
    ensures Truthy(s.minutes) ==> RowCells(s).minutes == s.minutes.value
    ensures RowCells(s).points.Dash? <==> s.pts.None?
    ensures RowCells(s).rebounds.Dash? <==> s.reb.None?
    ensures RowCells(s).assists.Dash? <==> s.ast.None?
    ensures s.pts.Some? ==> RowCells(s).points == Num(s.pts.value)
    ensures s.minutes == Some("") && s.pts == Some(0) ==> RowCells(s).minutes == "-" && RowCells(s).points == Num(0)
    ensures s.fgm.None? ==> RowCells(s).fieldGoals[..2] == "--"
    ensures s.fga.None? ==> EndsWith(RowCells(s).fieldGoals, "--")
    ensures s.fgm.None? && s.fga.None? ==> RowCells(s).fieldGoals == "---"
  {
  }

  /** The made and attempted counts can be read back from the FG cell: the
      first "-" separates them. */
  lemma FieldGoalsRoundTrip(s: StatRow)
    requires s.fgm.Some? && s.fgm.value >= 0 && s.fga.Some? && s.fga.value >= 0
    ensures var fg := RowCells(s).fieldGoals; var made := BeforeFirst(fg, '-');
      && |made| < |fg| && fg[|made|] == '-'
      && AllDigits(made) && ParseNat(made) == s.fgm.value
      && AllDigits(fg[|made| + 1..]) && ParseNat(fg[|made| + 1..]) == s.fga.value
  {
    var fg := RowCells(s).fieldGoals;
    var m := CellText(CellOf(s.fgm));
    var a := CellText(CellOf(s.fga));
    assert fg == m + "-" + a;
    var made := BeforeFirst(fg, '-');
    assert fg[..|m|] == m;
    assert fg[|m|] == '-';
    assert |made| == |m| by {
      assert fg[..|made|] == made;
    }
    assert made == m;
    assert fg[|m| + 1..] == a;
  }
}
