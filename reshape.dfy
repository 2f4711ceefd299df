/** The two reshapes of `get_results_df` (evaluation/aggregation.py): the
    wide table of scores reported in papers is melted into long records, and
    the final long table is pivoted into one row per model with one column
    per scenario. */
module Reshape {
  import opened Wrappers
  import opened Records

  /** One CSV row of the paper results: a scenario and one cell per model
      column; an empty cell is `None`. */
  datatype PaperRow = PaperRow(scenario: string, cells: seq<Option<real>>)

  /** The paper results: the model column headers and the rows. */
  datatype PaperTable = PaperTable(models: seq<string>, rows: seq<PaperRow>)

  /** The cell of column `j`; a short row reads as empty cells. */
  function Cell(row: PaperRow, j: nat): Option<real> {
    if j < |row.cells| then row.cells[j] else None
  }

  /** The melted records of column `j`, row by row, empty cells dropped. */
  function MeltColumn(model: string, j: nat, rows: seq<PaperRow>): seq<Record> {
    if rows == [] then []
    else
      var here := match Cell(rows[0], j)
        case Some(v) => [Record(model, rows[0].scenario, v)]
        case None => [];
      here + MeltColumn(model, j, rows[1..])
  }

  function MeltFrom(t: PaperTable, j: nat): seq<Record>
    decreases |t.models| - j
  {
    if j >= |t.models| then [] else MeltColumn(t.models[j], j, t.rows) + MeltFrom(t, j + 1)
  }

  /** `pd.melt(df, id_vars="scenario", var_name="model", value_name="score")`
      followed by `dropna()`: columns one after another. */
  function Melt(t: PaperTable): seq<Record> {
    MeltFrom(t, 0)
  }

  /** The scenarios of the paper rows are pairwise distinct. */
  predicate DistinctScenarios(rows: seq<PaperRow>) {
    forall i, j :: 0 <= i < j < |rows| ==> rows[i].scenario != rows[j].scenario
  }

  /** The model columns are pairwise distinct. */
  predicate DistinctModels(models: seq<string>) {
    forall i, j :: 0 <= i < j < |models| ==> models[i] != models[j]
  }

  /** A melted record of column `j` is exactly a non-empty cell of that
      column, under the column's model and the row's scenario. */
  lemma {:induction false} MeltColumnMembers(model: string, j: nat, rows: seq<PaperRow>, rec: Record)
    ensures rec in MeltColumn(model, j, rows) <==>
              rec.model == model &&
              exists i :: 0 <= i < |rows| && rows[i].scenario == rec.scenario && Cell(rows[i], j) == Some(rec.score)
  {
    if rows != [] {
      var rest := rows[1..];
      MeltColumnMembers(model, j, rest, rec);
      if rec.model == model && exists i :: 0 <= i < |rows| && rows[i].scenario == rec.scenario && Cell(rows[i], j) == Some(rec.score) {
        var i :| 0 <= i < |rows| && rows[i].scenario == rec.scenario && Cell(rows[i], j) == Some(rec.score);
        if i > 0 {
          assert rest[i - 1] == rows[i];
        }
      }
      if rec in MeltColumn(model, j, rest) {
        var i :| 0 <= i < |rest| && rest[i].scenario == rec.scenario && Cell(rest[i], j) == Some(rec.score);
        assert rows[i + 1] == rest[i];
      }
    }
  }

  lemma {:induction false} MeltFromMembers(t: PaperTable, j: nat, rec: Record)
    ensures rec in MeltFrom(t, j) <==>
              exists c, i :: j <= c < |t.models| && 0 <= i < |t.rows| && rec.model == t.models[c] &&
                rec.scenario == t.rows[i].scenario && Cell(t.rows[i], c) == Some(rec.score)
    decreases |t.models| - j
  {
    if j < |t.models| {
      MeltFromMembers(t, j + 1, rec);
      MeltColumnMembers(t.models[j], j, t.rows, rec);
    }
  }

  /** Melting keeps exactly the non-empty cells, each under its column's
      model and its row's scenario. */
  lemma MeltMembers(t: PaperTable, rec: Record)
    ensures rec in Melt(t) <==>
              exists c, i :: 0 <= c < |t.models| && 0 <= i < |t.rows| && rec.model == t.models[c] &&
                rec.scenario == t.rows[i].scenario && Cell(t.rows[i], c) == Some(rec.score)
  {
    MeltFromMembers(t, 0, rec);
  }

  /** Concatenating two tables with distinct keys and no common key gives a
      table with distinct keys. */
  lemma DistinctConcat(a: seq<Record>, b: seq<Record>)
    requires DistinctKeys(a) && DistinctKeys(b)
    requires forall x, y :: x in a && y in b ==> !SameKey(x, y)
    ensures DistinctKeys(a + b)
  {
    var ab := a + b;
    forall i, j | 0 <= i < j < |ab|
      ensures !SameKey(ab[i], ab[j])
    {
      if i < |a| && j >= |a| {
        assert ab[i] in a && ab[j] == b[j - |a|];
      } else if i >= |a| {
        assert ab[i] == b[i - |a|] && ab[j] == b[j - |a|];
      }
    }
  }

  lemma {:induction false} MeltColumnDistinct(model: string, j: nat, rows: seq<PaperRow>)
    requires DistinctScenarios(rows)
    ensures DistinctKeys(MeltColumn(model, j, rows))
  {
    if rows != [] {
      MeltColumnDistinct(model, j, rows[1..]);
      var here := match Cell(rows[0], j)
        case Some(v) => [Record(model, rows[0].scenario, v)]
        case None => [];
      forall x, y | x in here && y in MeltColumn(model, j, rows[1..])
        ensures !SameKey(x, y)
      {
        MeltColumnMembers(model, j, rows[1..], y);
        var i :| 0 <= i < |rows[1..]| && rows[1..][i].scenario == y.scenario && Cell(rows[1..][i], j) == Some(y.score);
        assert rows[1..][i] == rows[i + 1];
      }
      DistinctConcat(here, MeltColumn(model, j, rows[1..]));
    }
  }

  lemma {:induction false} MeltFromDistinct(t: PaperTable, j: nat)
    requires DistinctModels(t.models) && DistinctScenarios(t.rows)
    ensures DistinctKeys(MeltFrom(t, j))
    decreases |t.models| - j
  {
    if j < |t.models| {
      MeltFromDistinct(t, j + 1);
      MeltColumnDistinct(t.models[j], j, t.rows);
      forall x, y | x in MeltColumn(t.models[j], j, t.rows) && y in MeltFrom(t, j + 1)
        ensures !SameKey(x, y)
      {
        MeltColumnMembers(t.models[j], j, t.rows, x);
        MeltFromMembers(t, j + 1, y);
      }
      DistinctConcat(MeltColumn(t.models[j], j, t.rows), MeltFrom(t, j + 1));
    }
  }

  /** With distinct model columns and distinct scenario rows, the melted
      records carry distinct keys. */
  lemma MeltDistinct(t: PaperTable)
    requires DistinctModels(t.models) && DistinctScenarios(t.rows)
    ensures DistinctKeys(Melt(t))
  {
    MeltFromDistinct(t, 0);
  }

  // ---------------------------------------------------------------------
  // res_df.pivot(index="model", columns="scenario", values=["score"])

  /** The pivoted table: model to scenario to score; a missing cell is an
      absent key. */
  type Table = map<string, map<string, real>>

  /** The cells written row by row. */
  function PivotMap(rows: seq<Record>): Table {
    if rows == [] then map[]
    else
      var t := PivotMap(rows[..|rows| - 1]);
      var last := rows[|rows| - 1];
      var row := if last.model in t then t[last.model] else map[];
      t[last.model := row[last.scenario := last.score]]
  }

  /** The pivot refuses a repeated `(model, scenario)` pair with a
      ValueError. */
  function Pivot(rows: seq<Record>): Result<Table> {
    if DistinctKeys(rows) then Ok(PivotMap(rows)) else Err(DuplicateEntries)
  }

  lemma {:induction false} PivotMapModels(rows: seq<Record>, m: string)
    ensures m in PivotMap(rows) <==> HasModel(rows, m)
  {
    if rows != [] {
      var prefix := rows[..|rows| - 1];
      PivotMapModels(prefix, m);
      assert rows == prefix + [rows[|rows| - 1]];
      HasModelSnoc(prefix, rows[|rows| - 1], m);
    }
  }

  lemma {:induction false} PivotMapKeys(rows: seq<Record>, m: string, s: string)
    ensures m in PivotMap(rows) && s in PivotMap(rows)[m] <==> HasKey(rows, m, s)
  {
    if rows != [] {
      var prefix := rows[..|rows| - 1];
      PivotMapKeys(prefix, m, s);
      assert rows == prefix + [rows[|rows| - 1]];
      HasKeySnoc(prefix, rows[|rows| - 1], m, s);
    }
  }

  lemma {:induction false} PivotMapValues(rows: seq<Record>, i: int)
    requires DistinctKeys(rows)
    requires 0 <= i < |rows|
    ensures rows[i].model in PivotMap(rows) && rows[i].scenario in PivotMap(rows)[rows[i].model]
    ensures PivotMap(rows)[rows[i].model][rows[i].scenario] == rows[i].score
  {
    var prefix := rows[..|rows| - 1];
    var last := rows[|rows| - 1];
    if i < |prefix| {
      assert DistinctKeys(prefix);
      PivotMapValues(prefix, i);
      assert rows[i] == prefix[i];
      assert !SameKey(rows[i], last);
    }
  }

  /** A successful pivot holds every row's score in the row's cell. */
  lemma PivotCell(rows: seq<Record>, i: int)
    requires Pivot(rows).Ok?
    requires 0 <= i < |rows|
    ensures rows[i].model in Pivot(rows).value && rows[i].scenario in Pivot(rows).value[rows[i].model]
    ensures Pivot(rows).value[rows[i].model][rows[i].scenario] == rows[i].score
  {
    PivotMapValues(rows, i);
  }

  /** The pivot fails exactly on a repeated key; otherwise it has a row for
      every model, a cell for every key present and no other, and each cell
      holds that key's score. */
  lemma PivotSpec(rows: seq<Record>)
    ensures Pivot(rows).Err? <==> exists i, j :: 0 <= i < j < |rows| && SameKey(rows[i], rows[j])
    ensures Pivot(rows).Ok? ==> forall m :: m in Pivot(rows).value <==> HasModel(rows, m)
    ensures Pivot(rows).Ok? ==>
              forall m, s :: m in Pivot(rows).value && s in Pivot(rows).value[m] <==> HasKey(rows, m, s)
    ensures Pivot(rows).Ok? ==>
              forall i :: 0 <= i < |rows| ==>
                rows[i].model in Pivot(rows).value && rows[i].scenario in Pivot(rows).value[rows[i].model] &&
                Pivot(rows).value[rows[i].model][rows[i].scenario] == rows[i].score
  {
    forall m {
      PivotMapModels(rows, m);
    }
    forall m, s {
      PivotMapKeys(rows, m, s);
    }
    if DistinctKeys(rows) {
      forall i | 0 <= i < |rows| {
        PivotMapValues(rows, i);
      }
    }
  }

  /** One cell of the round trip: the pivot of the melted table has a cell at
      column `c`'s model and row `i`'s scenario exactly when the paper cell is
      non-empty, and then holds its value. */
  lemma MeltPivotCell(t: PaperTable, c: int, i: int)
    requires DistinctModels(t.models) && DistinctScenarios(t.rows)
    requires 0 <= c < |t.models| && 0 <= i < |t.rows|
    ensures Pivot(Melt(t)).Ok?
    ensures (t.models[c] in Pivot(Melt(t)).value && t.rows[i].scenario in Pivot(Melt(t)).value[t.models[c]])
              <==> Cell(t.rows[i], c).Some?
    ensures Cell(t.rows[i], c).Some? ==>
              Pivot(Melt(t)).value[t.models[c]][t.rows[i].scenario] == Cell(t.rows[i], c).value
  {
    var melted := Melt(t);
    MeltDistinct(t);
    var m, s := t.models[c], t.rows[i].scenario;
    PivotMapKeys(melted, m, s);
    if Cell(t.rows[i], c).Some? {
      var rec := Record(m, s, Cell(t.rows[i], c).value);
      MeltMembers(t, rec);
      var k :| 0 <= k < |melted| && melted[k] == rec;
      PivotMapValues(melted, k);
    }
    if HasKey(melted, m, s) {
      var k :| 0 <= k < |melted| && melted[k].model == m && melted[k].scenario == s;
      MeltMembers(t, melted[k]);
      var c', i' :| 0 <= c' < |t.models| && 0 <= i' < |t.rows| && melted[k].model == t.models[c'] &&
        melted[k].scenario == t.rows[i'].scenario && Cell(t.rows[i'], c') == Some(melted[k].score);
      assert c' == c && i' == i;
    }
  }

  /** Melting the paper results and pivoting them back gives every non-empty
      cell back at its model and scenario, and no other cell. */
  lemma MeltPivotRoundTrip(t: PaperTable)
    requires DistinctModels(t.models) && DistinctScenarios(t.rows)
    ensures Pivot(Melt(t)).Ok?
    ensures forall c, i :: 0 <= c < |t.models| && 0 <= i < |t.rows| ==>
              ((t.models[c] in Pivot(Melt(t)).value &&
                t.rows[i].scenario in Pivot(Melt(t)).value[t.models[c]]) <==> Cell(t.rows[i], c).Some?)
    ensures forall c, i :: 0 <= c < |t.models| && 0 <= i < |t.rows| && Cell(t.rows[i], c).Some? ==>
              Pivot(Melt(t)).value[t.models[c]][t.rows[i].scenario] == Cell(t.rows[i], c).value
  {
    MeltDistinct(t);
    forall c, i | 0 <= c < |t.models| && 0 <= i < |t.rows| {
      MeltPivotCell(t, c, i);
    }
  }

}
