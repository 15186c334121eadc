/** src/components/QuarterScoresTable.jsx: the scores-by-period table of a
    finished game. Quarters are always shown; an overtime period only when
    one of the teams scored in it. One header per kept period, and one row
    per team with one cell per kept period. */
module QuarterScoresTable {
  import opened Wrappers
  import opened Text
  import opened Records
  import Seqs

  /** `p.period_name || ""`. */
  function PeriodName(p: PeriodScore): string
  {
    OrElse(p.periodName, "")
  }

  /** `score !== null && score > 0`; an absent score is not greater than 0. */
  predicate Scored(score: Option<int>)
  {
    score.Some? && score.value > 0
  }

  /** The filter: a quarter ("Q…"), or an overtime ("OT…") in which some team scored. */
  predicate Kept(p: PeriodScore)
    ensures Kept(p) ==> PeriodName(p) != "" && (PeriodName(p)[0] == 'Q' || PeriodName(p)[0] == 'O')
  {
    var name := PeriodName(p);
    StartsWith(name, "Q") || (StartsWith(name, "OT") && (Scored(p.homeScore) || Scored(p.visitorScore)))
  }

  /** The rendered table: the period headers, then the visitor row and the
      home row, each a label and one cell per header. */
  datatype Table = Table(
    headers: seq<string>,
    visitorLabel: string, visitorCells: seq<Cell>,
    homeLabel: string, homeCells: seq<Cell>)

  function Headers(kept: seq<PeriodScore>): (r: seq<string>)
    ensures |r| == |kept|
    ensures forall i :: 0 <= i < |r| ==> r[i] == PeriodName(kept[i])
  {
    seq(|kept|, i requires 0 <= i < |kept| => PeriodName(kept[i]))
  }

  /** One team's cells, `score ?? "-"` per period. */
  function Cells(kept: seq<PeriodScore>, home: bool): (r: seq<Cell>)
    ensures |r| == |kept|
    ensures forall i :: 0 <= i < |r| ==> r[i] == CellOf(if home then kept[i].homeScore else kept[i].visitorScore)
  {
    seq(|kept|, i requires 0 <= i < |kept| => CellOf(if home then kept[i].homeScore else kept[i].visitorScore))
  }

  /** The kept periods, in their original order. */
  function KeptPeriods(periodScores: seq<PeriodScore>): (r: seq<PeriodScore>)
    ensures forall i :: 0 <= i < |r| ==> Kept(r[i])
    ensures multiset(r) <= multiset(periodScores)
  {
    Seqs.Filter(periodScores, Kept)
  }

  /** The component: nothing for a missing or empty list, nothing when no
      period survives the filter, else the table. */
  function Render(periodScores: Option<seq<PeriodScore>>, homeAbbr: Option<string>, visitorAbbr: Option<string>): (r: Option<Table>)
    ensures periodScores.None? || periodScores.value == [] ==> r.None?
    ensures r.Some? <==> periodScores.Some? && exists p :: p in periodScores.value && Kept(p)
    ensures r.Some? ==>
      && |r.value.headers| >= 1
      && |r.value.visitorCells| == |r.value.headers|
      && |r.value.homeCells| == |r.value.headers|
    ensures r.Some? ==> forall i :: 0 <= i < |r.value.headers| ==>
      StartsWith(r.value.headers[i], "Q") || StartsWith(r.value.headers[i], "OT")
    ensures r.Some? ==> r.value.visitorLabel == OrElse(visitorAbbr, "Away") && r.value.homeLabel == OrElse(homeAbbr, "Home")
  {
    if periodScores.None? || |periodScores.value| == 0 then None
    else
      var kept := KeptPeriods(periodScores.value);
      KeptNonEmpty(periodScores.value);
      if |kept| == 0 then None
      else
        Some(Table(Headers(kept), OrElse(visitorAbbr, "Away"), Cells(kept, false),
                   OrElse(homeAbbr, "Home"), Cells(kept, true)))
  }

  /** Some period survives the filter exactly when some period is kept. */
  lemma KeptNonEmpty(s: seq<PeriodScore>)
    ensures |KeptPeriods(s)| > 0 <==> exists p :: p in s && Kept(p)
  {
    var kept := KeptPeriods(s);
    if |kept| > 0 {
      assert kept[0] in multiset(kept);
      assert kept[0] in s;
    }
    if p :| p in s && Kept(p) {
      Seqs.FilterCount(s, Kept, p);
      assert p in multiset(kept);
    }
  }

  /** The columns are the kept periods in their original order: column `i`
      is headed by the name of the `i`-th kept period and holds its two
      scores; every kept period has a column, and no other period does. */
  lemma {:induction false} RenderColumns(periodScores: seq<PeriodScore>, homeAbbr: Option<string>, visitorAbbr: Option<string>)
    requires Render(Some(periodScores), homeAbbr, visitorAbbr).Some?
    ensures var t := Render(Some(periodScores), homeAbbr, visitorAbbr).value;
      var kept := KeptPeriods(periodScores);
      && Seqs.SubsequenceOf(kept, periodScores)
      && |t.headers| == |kept|
      && (forall i :: 0 <= i < |kept| ==>
            t.headers[i] == PeriodName(kept[i])
            && t.visitorCells[i] == CellOf(kept[i].visitorScore)
            && t.homeCells[i] == CellOf(kept[i].homeScore))
      && (forall p :: p in periodScores ==> (p in kept <==> Kept(p)))
  {
    var kept := KeptPeriods(periodScores);
    Seqs.FilterIsSubsequence(periodScores, Kept);
    forall p | p in periodScores
      ensures p in kept <==> Kept(p)
    {
      Seqs.FilterCount(periodScores, Kept, p);
      assert p in kept <==> multiset(kept)[p] > 0;
    }
  }

  /** A score of 0 is shown as 0; only an absent score shows "-". */
  lemma ZeroIsNotDash(periodScores: seq<PeriodScore>, homeAbbr: Option<string>, visitorAbbr: Option<string>, i: nat)
    requires Render(Some(periodScores), homeAbbr, visitorAbbr).Some?
    requires i < |Render(Some(periodScores), homeAbbr, visitorAbbr).value.headers|
    ensures var t := Render(Some(periodScores), homeAbbr, visitorAbbr).value;
      var p := KeptPeriods(periodScores)[i];
      && (t.homeCells[i] == Dash <==> p.homeScore.None?)
      && (p.homeScore == Some(0) ==> t.homeCells[i] == Num(0))
      && (t.visitorCells[i] == Dash <==> p.visitorScore.None?)
  {
  }

  /** An unplayed overtime is dropped, a quarter is kept whatever its scores,
      and a period without a name is dropped. */
  lemma FilterExamples()
    ensures !Kept(PeriodScore(Some("OT1"), Some(0), Some(0)))
    ensures !Kept(PeriodScore(Some("OT2"), None, Some(0)))
    ensures Kept(PeriodScore(Some("OT1"), Some(0), Some(5)))
    ensures Kept(PeriodScore(Some("Q4"), None, None))
    ensures !Kept(PeriodScore(None, Some(30), Some(28)))
  {
    assert "OT1"[..1] == "O";
    assert "OT2"[..1] == "O";
  }
}
