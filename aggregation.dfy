/** `get_results_df` (evaluation/aggregation.py): extracted records are
    de-duplicated, consolidated, joined with the scores reported in papers,
    de-duplicated again, given win rates and a mean win rate per model, and
    pivoted into one row per model. Directory globbing, JSON and CSV parsing
    happen before this model: the artifacts and the paper table are its
    inputs. */
module Aggregation {
  import opened Wrappers
  import opened Records
  import opened AggregationUtils
  import opened ScoreExtraction
  import opened Consolidation
  import opened Reshape
  import opened WinRate

  /** The long table with its "MWR" rows appended. */
  function WithMeanWinRates(rows: seq<Record>): Result<seq<Record>> {
    var wr :- WinRates(rows);
    Ok(rows + MeanWinRates(rows, wr))
  }

  /** Whenever the pivot succeeds, every model row of the pivoted table has a
      mean win rate, and it lies in `[0, 1]`. */
  lemma PivotHasMeanWinRates(rows: seq<Record>)
    requires WithMeanWinRates(rows).Ok? && Pivot(WithMeanWinRates(rows).value).Ok?
    ensures forall m :: m in Pivot(WithMeanWinRates(rows).value).value ==>
              MeanWinRateScenario in Pivot(WithMeanWinRates(rows).value).value[m] &&
              0.0 <= Pivot(WithMeanWinRates(rows).value).value[m][MeanWinRateScenario] <= 1.0
  {
    var wr := WinRates(rows).value;
    var mwr := MeanWinRates(rows, wr);
    var all := rows + mwr;
    assert all == WithMeanWinRates(rows).value;
    var p := Pivot(all).value;
    WinRatesBounds(rows);
    MeanWinRatesModels(rows, wr);
    MeanWinRatesBounds(rows, wr);
    PivotSpec(all);
    forall m | m in p
      ensures MeanWinRateScenario in p[m] && 0.0 <= p[m][MeanWinRateScenario] <= 1.0
    {
      HasModelConcat(rows, mwr, m);
      var k :| 0 <= k < |mwr| && mwr[k].model == m;
      assert all[|rows| + k] == mwr[k];
    }
  }

  /** Every model of the long table has an "MWR" cell in the pivoted table,
      and it is the mean of the win rates of exactly that model's rows. */
  lemma PivotMeanWinRateCell(rows: seq<Record>, wr: seq<real>, m: string)
    requires WinRates(rows) == Ok(wr)
    requires Pivot(rows + MeanWinRates(rows, wr)).Ok?
    requires HasModel(rows, m)
    ensures WithMeanWinRates(rows) == Ok(rows + MeanWinRates(rows, wr))
    ensures m in Pivot(rows + MeanWinRates(rows, wr)).value
    ensures MeanWinRateScenario in Pivot(rows + MeanWinRates(rows, wr)).value[m]
    ensures Pivot(rows + MeanWinRates(rows, wr)).value[m][MeanWinRateScenario] ==
            Mean(ModelWinRates(rows, wr, m))
  {
    var mwr := MeanWinRates(rows, wr);
    MeanWinRateOfModel(rows, wr, m);
    var k :| 0 <= k < |mwr| && mwr[k] == Record(m, MeanWinRateScenario, Mean(ModelWinRates(rows, wr, m)));
    assert (rows + mwr)[|rows| + k] == mwr[k];
    PivotCell(rows + mwr, |rows| + k);
  }

  /** The final step: the win-rate column and the "MWR" rows are computed
      from the long table, and the whole is pivoted. */
  method AddWinRatesAndPivot(rows: seq<Record>) returns (r: Result<Table>)
    ensures WithMeanWinRates(rows).Err? ==> r == Err(WithMeanWinRates(rows).error)
    ensures WithMeanWinRates(rows).Ok? ==> r == Pivot(WithMeanWinRates(rows).value)
    ensures r.Ok? ==> forall m :: m in r.value ==>
              MeanWinRateScenario in r.value[m] && 0.0 <= r.value[m][MeanWinRateScenario] <= 1.0
  {
    var wr := WinRates(rows);
    if wr.Err? {
      return Err(wr.error);
    }
    var all := rows + MeanWinRates(rows, wr.value);
    r := Pivot(all);
    if r.Ok? {
      PivotHasMeanWinRates(rows);
    }
  }

  /** A table that already holds an "MWR" scenario collides with the mean
      win rate rows and the pivot refuses it. */
  lemma MeanWinRateCollision(rows: seq<Record>, i: int)
    requires 0 <= i < |rows| && rows[i].scenario == MeanWinRateScenario
    requires WithMeanWinRates(rows).Ok?
    ensures Pivot(WithMeanWinRates(rows).value) == Err(DuplicateEntries)
  {
    var mwr := MeanWinRates(rows, WinRates(rows).value);
    var all := rows + mwr;
    MeanWinRatesModels(rows, WinRates(rows).value);
    assert HasModel(rows, rows[i].model);
    var k :| 0 <= k < |mwr| && mwr[k].model == rows[i].model;
    assert all[i] == rows[i] && all[|rows| + k] == mwr[k];
    assert SameKey(all[i], all[|rows| + k]);
  }

  /** `get_results_df`. The extracted records become an empty DataFrame
      without columns when no artifact contributed a score; its duplicate
      check finds nothing in it, and the first column access, the rename of
      `scenario`, then raises a KeyError. */
  method GetResultsDf(artifacts: seq<Artifact>, scenario2metric: map<string, string>, papers: PaperTable)
    returns (r: Result<Table>)
    requires AllWellFormed(artifacts)
    ensures AllRecords(artifacts, scenario2metric).Err? ==> r == Err(AllRecords(artifacts, scenario2metric).error)
    ensures AllRecords(artifacts, scenario2metric) == Ok([]) ==> r == Err(KeyError("scenario"))
    ensures AllRecords(artifacts, scenario2metric).Ok? && HasConflict(AllRecords(artifacts, scenario2metric).value) ==>
              r.Err? && r.error.Inconsistent?
    ensures r.Ok? ==> forall m :: m in r.value ==>
              MeanWinRateScenario in r.value[m] && 0.0 <= r.value[m][MeanWinRateScenario] <= 1.0
  {
    var extracted := ExtractRecords(artifacts, scenario2metric);
    if extracted.Err? {
      return Err(extracted.error);
    }
    var rows := extracted.value;
    if rows == [] {
      return Err(KeyError("scenario"));
    }
    if !DistinctKeys(rows) {
      var checked := HandleDuplicates(rows);
      if checked.Err? {
        return Err(checked.error);
      }
      rows := checked.value;
    } else {
      DistinctUnchanged(rows);
    }

    for k := 0 to |MultiSubsetScenarios| {
      rows := RenameRows(rows, MultiSubsetScenarios[k]);
    }
    rows := GroupMean(rows);
    rows := Rescale(rows);

    var named := MapScenarioNames(rows);
    if named.Err? {
      return Err(named.error);
    }
    rows := named.value + Melt(papers);

    if !DistinctKeys(rows) {
      var checked := HandleDuplicates(rows);
      if checked.Err? {
        return Err(checked.error);
      }
      rows := checked.value;
    }

    rows := RewriteModelIds(rows);
    r := AddWinRatesAndPivot(rows);
  }
}
