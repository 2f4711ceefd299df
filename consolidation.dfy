/** The steps of `get_results_df` (evaluation/aggregation.py) that turn the
    extracted records into one percentage per `(model, scenario)` under its
    display name: subtasks are folded into their umbrella scenario, equal keys
    are averaged, scores are rescaled, scenario names are mapped through the
    curated table, and local model paths are rewritten to hub ids. */
module Consolidation {
  import opened Wrappers
  import opened Strings
  import opened Records
  import opened AggregationUtils
  import opened PrettyNames

  /** `multi_subset_scenarios`. */
  const MultiSubsetScenarios: seq<string> := ["mmlu"]

  /** `scenario_to_avoid`: a scenario whose name contains `mmlu_` but that is
      not an MMLU subtask. */
  const ScenarioToAvoid: string := "mmlu_pro"

  // ---------------------------------------------------------------------
  // Folding subtasks into their umbrella scenario

  /** The lambda applied to every scenario name: a name containing
      `umbrella + "_"` anywhere, other than `mmlu_pro`, becomes `umbrella`. */
  function RenameScenario(x: string, umbrella: string): string {
    if Contains(x, umbrella + "_") && x != ScenarioToAvoid then umbrella else x
  }

  /** `res_df["scenario"].apply(...)`: the rename applied to every row. */
  function RenameRows(rows: seq<Record>, umbrella: string): (out: seq<Record>)
    ensures |out| == |rows|
  {
    seq(|rows|, i requires 0 <= i < |rows| => rows[i].(scenario := RenameScenario(rows[i].scenario, umbrella)))
  }

  /** The rename touches only the scenario column, and each new scenario is
      either the umbrella or the old name. */
  lemma RenameRowsKeeps(rows: seq<Record>, umbrella: string)
    ensures |RenameRows(rows, umbrella)| == |rows|
    ensures forall i :: 0 <= i < |rows| ==>
              var out := RenameRows(rows, umbrella)[i];
              out.model == rows[i].model && out.score == rows[i].score &&
              (out.scenario == umbrella || out.scenario == rows[i].scenario)
  {
  }

  /** `sub in s` fails when `sub` is longer than `s`. */
  lemma {:induction false} ContainsTooLong(s: string, sub: string)
    requires |s| < |sub|
    ensures !Contains(s, sub)
    decreases |s|
  {
    if |s| > 0 {
      ContainsTooLong(s[1..], sub);
    }
  }

  /** Renaming is idempotent: the umbrella name itself is never renamed. */
  lemma RenameScenarioIdempotent(x: string, umbrella: string)
    ensures RenameScenario(RenameScenario(x, umbrella), umbrella) == RenameScenario(x, umbrella)
  {
    ContainsTooLong(umbrella, umbrella + "_");
  }

  /** MMLU subtasks fold into `mmlu`; `mmlu_pro` stays; the test is on a
      substring, so a name with `mmlu_` inside it (not at the start) folds
      as well; a name without it stays. */
  lemma RenameScenarioExamples()
    ensures RenameScenario("mmlu_world_religions", "mmlu") == "mmlu"
    ensures RenameScenario("mmlu_pro", "mmlu") == "mmlu_pro"
    ensures RenameScenario("cmmlu_art", "mmlu") == "mmlu"
    ensures RenameScenario("gsm8k", "mmlu") == "gsm8k"
  {
    assert StartsWith("mmlu_world_religions", "mmlu_");
    assert StartsWith("cmmlu_art"[1..], "mmlu_");
    assert "mmlu" + "_" == "mmlu_";
    assert "gsm8k"[..5][0] != "mmlu_"[0];
    ContainsTooLong("gsm8k"[1..], "mmlu_");
  }

  // ---------------------------------------------------------------------
  // groupby(["model", "scenario"]).agg({"score": "mean"})

  /** The scores of the rows carrying key `(m, s)`, in row order. */
  function ScoresFor(rows: seq<Record>, m: string, s: string): (xs: seq<real>)
    ensures |xs| > 0 <==> HasKey(rows, m, s)
  {
    if rows == [] then []
    else
      var prefix := rows[..|rows| - 1];
      var last := rows[|rows| - 1];
      assert rows == prefix + [last];
      HasKeySnoc(prefix, last, m, s);
      ScoresFor(prefix, m, s) + (if last.model == m && last.scenario == s then [last.score] else [])
  }

  /** Every key of the de-duplicated rows occurs in the rows. */
  lemma GroupKeysPresent(rows: seq<Record>)
    ensures forall i :: 0 <= i < |DropDuplicates(rows)| ==>
              HasKey(rows, DropDuplicates(rows)[i].model, DropDuplicates(rows)[i].scenario)
  {
    var keys := DropDuplicates(rows);
    forall i | 0 <= i < |keys|
      ensures HasKey(rows, keys[i].model, keys[i].scenario)
    {
      DropDuplicatesKeys(rows, keys[i].model, keys[i].scenario);
    }
  }

  /** The aggregated row of the group carrying `key`'s model and scenario. */
  function GroupRecord(rows: seq<Record>, key: Record): Record
    requires HasKey(rows, key.model, key.scenario)
  {
    Record(key.model, key.scenario, Mean(ScoresFor(rows, key.model, key.scenario)))
  }

  /** One row per `(model, scenario)` group holding the mean score of the
      group; groups appear in the order of their first row. */
  function GroupMean(rows: seq<Record>): (out: seq<Record>)
    ensures |out| == |DropDuplicates(rows)|
  {
    var keys := DropDuplicates(rows);
    GroupKeysPresent(rows);
    seq(|keys|, i requires 0 <= i < |keys| => GroupRecord(rows, keys[i]))
  }

  /** The `i`-th group row aggregates the `i`-th key of the input. */
  lemma GroupMeanAt(rows: seq<Record>, i: int)
    requires 0 <= i < |DropDuplicates(rows)|
    ensures HasKey(rows, DropDuplicates(rows)[i].model, DropDuplicates(rows)[i].scenario)
    ensures GroupMean(rows)[i] == GroupRecord(rows, DropDuplicates(rows)[i])
  {
    GroupKeysPresent(rows);
  }

  /** The groups are exactly the keys of the input, each once, and each group
      row holds the mean of all the scores carrying its key. */
  lemma GroupMeanSpec(rows: seq<Record>)
    ensures DistinctKeys(GroupMean(rows))
    ensures forall m, s :: HasKey(GroupMean(rows), m, s) <==> HasKey(rows, m, s)
    ensures forall i :: 0 <= i < |GroupMean(rows)| ==>
              var g := GroupMean(rows)[i];
              |ScoresFor(rows, g.model, g.scenario)| > 0 &&
              g.score == Mean(ScoresFor(rows, g.model, g.scenario))
  {
    var keys := DropDuplicates(rows);
    var out := GroupMean(rows);
    DropDuplicatesDistinct(rows);
    assert forall i :: 0 <= i < |out| ==> SameKey(out[i], keys[i]);
    forall m, s
      ensures HasKey(out, m, s) <==> HasKey(rows, m, s)
    {
      DropDuplicatesKeys(rows, m, s);
      if HasKey(keys, m, s) {
        var i :| 0 <= i < |keys| && keys[i].model == m && keys[i].scenario == s;
        assert out[i].model == m && out[i].scenario == s;
      }
      if HasKey(out, m, s) {
        var i :| 0 <= i < |out| && out[i].model == m && out[i].scenario == s;
        assert keys[i].model == m && keys[i].scenario == s;
      }
    }
  }

  /** A key carried by one row only collects exactly that row's score. */
  lemma {:induction false} ScoresForUnique(rows: seq<Record>, i: int)
    requires DistinctKeys(rows)
    requires 0 <= i < |rows|
    ensures ScoresFor(rows, rows[i].model, rows[i].scenario) == [rows[i].score]
  {
    var prefix := rows[..|rows| - 1];
    var last := rows[|rows| - 1];
    var none: seq<real> := [];
    assert DistinctKeys(prefix);
    if i == |rows| - 1 {
      if HasKey(prefix, last.model, last.scenario) {
        var k :| 0 <= k < |prefix| && prefix[k].model == last.model && prefix[k].scenario == last.scenario;
        assert SameKey(rows[k], rows[i]);
      }
      assert ScoresFor(prefix, last.model, last.scenario) == none;
      assert none + [last.score] == [last.score];
    } else {
      ScoresForUnique(prefix, i);
      assert prefix[i] == rows[i];
      assert !SameKey(rows[i], last);
      assert [rows[i].score] + none == [rows[i].score];
    }
  }

  /** Grouping rows whose keys are already distinct changes nothing. */
  lemma GroupMeanOfDistinct(rows: seq<Record>)
    requires DistinctKeys(rows)
    ensures GroupMean(rows) == rows
  {
    DistinctUnchanged(rows);
    var out := GroupMean(rows);
    forall i | 0 <= i < |rows|
      ensures out[i] == rows[i]
    {
      ScoresForUnique(rows, i);
      var one := [rows[i].score];
      assert one[..0] == [];
      assert Sum(one) == Sum(one[..0]) + one[0];
      assert Mean(one) == rows[i].score;
    }
  }

  /** Group means stay within any bounds the input scores respect. */
  lemma GroupMeanBounds(rows: seq<Record>, lo: real, hi: real)
    requires forall i :: 0 <= i < |rows| ==> lo <= rows[i].score <= hi
    ensures forall i :: 0 <= i < |GroupMean(rows)| ==> lo <= GroupMean(rows)[i].score <= hi
  {
    GroupMeanSpec(rows);
    var out := GroupMean(rows);
    forall i | 0 <= i < |out|
      ensures lo <= out[i].score <= hi
    {
      ScoresForBounds(rows, out[i].model, out[i].scenario, lo, hi);
      MeanBounds(ScoresFor(rows, out[i].model, out[i].scenario), lo, hi);
    }
  }

  lemma {:induction false} ScoresForBounds(rows: seq<Record>, m: string, s: string, lo: real, hi: real)
    requires forall i :: 0 <= i < |rows| ==> lo <= rows[i].score <= hi
    ensures forall k :: 0 <= k < |ScoresFor(rows, m, s)| ==> lo <= ScoresFor(rows, m, s)[k] <= hi
  {
    if rows != [] {
      ScoresForBounds(rows[..|rows| - 1], m, s, lo, hi);
    }
  }

  /** The groups of two rows of one key followed by a row of another key. */
  lemma TwoThenOneKeys(a: Record, b: Record, c: Record)
    requires SameKey(a, b) && !SameKey(a, c)
    ensures DropDuplicates([a, b, c]) == [a, c]
  {
    var empty: seq<Record> := [];
    assert [a, b, c][..2] == [a, b] && [a, b][..1] == [a] && [a][..0] == empty;
    assert [a][0] == a;
    assert HasKey([a], b.model, b.scenario);
    assert !HasKey([a, b], c.model, c.scenario);
    assert DropDuplicates([a]) == empty + [a];
    assert DropDuplicates([a, b]) == [a];
  }

  /** The score series of the two groups. */
  lemma TwoThenOneScores(m: string, u: string, v: string, x: real, y: real, z: real)
    requires u != v
    ensures ScoresFor([Record(m, u, x), Record(m, u, y), Record(m, v, z)], m, u) == [x, y]
    ensures ScoresFor([Record(m, u, x), Record(m, u, y), Record(m, v, z)], m, v) == [z]
  {
    var a, b, c := Record(m, u, x), Record(m, u, y), Record(m, v, z);
    var none: seq<real> := [];
    var empty: seq<Record> := [];
    assert [a, b, c][..2] == [a, b] && [a, b][..1] == [a] && [a][..0] == empty;
    assert ScoresFor([a], m, u) == none + [x];
    assert ScoresFor([a, b], m, u) == [x, y];
    assert ScoresFor([a], m, v) == none;
    assert ScoresFor([a, b], m, v) == none;
    assert ScoresFor([a, b, c], m, v) == none + [z];
  }

  /** The means of a pair and of a single score. */
  lemma MeanOfPairAndSingle(x: real, y: real, z: real)
    ensures Mean([x, y]) == (x + y) / 2.0
    ensures Mean([z]) == z
  {
    var none: seq<real> := [];
    assert [x, y][..1] == [x] && [x][..0] == none && [z][..0] == none;
    assert Sum([x]) == x && Sum([z]) == z;
    assert Sum([x, y]) == x + y;
  }

  /** Two rows of one group followed by a row of another group. */
  lemma GroupTwoThenOne(m: string, u: string, v: string, x: real, y: real, z: real)
    requires u != v
    ensures GroupMean([Record(m, u, x), Record(m, u, y), Record(m, v, z)])
            == [Record(m, u, (x + y) / 2.0), Record(m, v, z)]
  {
    var a, b, c := Record(m, u, x), Record(m, u, y), Record(m, v, z);
    var rows := [a, b, c];
    TwoThenOneKeys(a, b, c);
    TwoThenOneScores(m, u, v, x, y, z);
    MeanOfPairAndSingle(x, y, z);
    GroupMeanAt(rows, 0);
    GroupMeanAt(rows, 1);
    var out := GroupMean(rows);
    assert out[0] == Record(m, u, Mean([x, y]));
    assert out[1] == Record(m, v, Mean([z]));
    assert out == [out[0], out[1]];
  }

  /** Two MMLU subtasks of one model average into a single `mmlu` row, while
      `mmlu_pro` keeps a row of its own. */
  lemma MmluSubtasksAveraged()
    ensures GroupMean(RenameRows([Record("m", "mmlu_world_religions", 0.6),
                                  Record("m", "mmlu_astronomy", 0.8),
                                  Record("m", "mmlu_pro", 0.5)], "mmlu"))
            == [Record("m", "mmlu", 0.7), Record("m", "mmlu_pro", 0.5)]
  {
    RenameScenarioExamples();
    assert StartsWith("mmlu_astronomy", "mmlu_");
    var renamed := RenameRows([Record("m", "mmlu_world_religions", 0.6),
                               Record("m", "mmlu_astronomy", 0.8),
                               Record("m", "mmlu_pro", 0.5)], "mmlu");
    assert renamed == [Record("m", "mmlu", 0.6), Record("m", "mmlu", 0.8), Record("m", "mmlu_pro", 0.5)];
    assert |"mmlu"| != |"mmlu_pro"|;
    GroupTwoThenOne("m", "mmlu", "mmlu_pro", 0.6, 0.8, 0.5);
  }

  // ---------------------------------------------------------------------
  // res_df["score"] * 100

  /** Scores from the unit interval to percentages. */
  function Rescale(rows: seq<Record>): (out: seq<Record>)
    ensures |out| == |rows|
  {
    seq(|rows|, i requires 0 <= i < |rows| => rows[i].(score := rows[i].score * 100.0))
  }

  /** Rescaling keeps every key and multiplies every score by 100, so
      distinct keys stay distinct and unit scores become percentages. */
  lemma RescaleSpec(rows: seq<Record>)
    ensures forall i :: 0 <= i < |rows| ==>
              SameKey(Rescale(rows)[i], rows[i]) && Rescale(rows)[i].score == 100.0 * rows[i].score
    ensures DistinctKeys(rows) ==> DistinctKeys(Rescale(rows))
    ensures (forall i :: 0 <= i < |rows| ==> 0.0 <= rows[i].score <= 1.0) ==>
              forall i :: 0 <= i < |rows| ==> 0.0 <= Rescale(rows)[i].score <= 100.0
  {
  }

  // ---------------------------------------------------------------------
  // res_df["scenario"].apply(lambda x: name2tag[x])

  /** Every scenario replaced by its curated display name; the first scenario
      without one raises a KeyError naming it. */
  function MapScenarioNames(rows: seq<Record>): (r: Result<seq<Record>>)
    ensures r.Err? <==> exists i :: 0 <= i < |rows| && rows[i].scenario !in Name2Tag
    ensures r.Err? ==> exists i :: 0 <= i < |rows| && rows[i].scenario !in Name2Tag &&
                          r.error == KeyError(rows[i].scenario) &&
                          forall j :: 0 <= j < i ==> rows[j].scenario in Name2Tag
    ensures r.Ok? ==> |r.value| == |rows|
    ensures r.Ok? ==> forall i :: 0 <= i < |rows| ==>
                        r.value[i] == rows[i].(scenario := Name2Tag[rows[i].scenario])
  {
    if rows == [] then Ok([])
    else if rows[0].scenario !in Name2Tag then Err(KeyError(rows[0].scenario))
    else
      var rest :- MapScenarioNames(rows[1..]);
      assert forall i :: 1 <= i < |rows| ==> rows[i] == rows[1..][i - 1];
      Ok([rows[0].(scenario := Name2Tag[rows[0].scenario])] + rest)
  }

  /** Since the curated names are pairwise distinct, renaming keeps distinct
      keys distinct. */
  lemma MapScenarioNamesDistinct(rows: seq<Record>)
    requires DistinctKeys(rows)
    requires MapScenarioNames(rows).Ok?
    ensures DistinctKeys(MapScenarioNames(rows).value)
  {
    Name2TagInjective();
    var out := MapScenarioNames(rows).value;
    forall i, j | 0 <= i < j < |out|
      ensures !SameKey(out[i], out[j])
    {
      assert !SameKey(rows[i], rows[j]);
    }
  }

  // ---------------------------------------------------------------------
  // x.replace("/dccstor/fme/users/yotam/models/", "ibm-fms/")

  /** The local checkpoint directory and the hub organisation that replaces
      it in model ids. */
  const LocalModelDir: string := "/dccstor/fme/users/yotam/models/"
  const HubOrg: string := "ibm-fms/"

  function RewriteModelId(m: string): string {
    Replace(m, LocalModelDir, HubOrg)
  }

  /** The rewrite applied to the model column of every row. */
  function RewriteModelIds(rows: seq<Record>): (out: seq<Record>)
    ensures |out| == |rows|
  {
    seq(|rows|, i requires 0 <= i < |rows| => rows[i].(model := RewriteModelId(rows[i].model)))
  }

  /** A model id without the local directory is kept; a local checkpoint path
      becomes the hub id with the same tail. */
  lemma RewriteModelIdSpec(m: string, tail: string)
    ensures !Contains(m, LocalModelDir) ==> RewriteModelId(m) == m
    ensures !Contains(tail, LocalModelDir) ==> RewriteModelId(LocalModelDir + tail) == HubOrg + tail
  {
    if !Contains(m, LocalModelDir) {
      ReplaceAbsent(m, LocalModelDir, HubOrg);
    }
    if !Contains(tail, LocalModelDir) {
      var s := LocalModelDir + tail;
      assert s[..|LocalModelDir|] == LocalModelDir;
      assert s[|LocalModelDir|..] == tail;
      ReplaceAbsent(tail, LocalModelDir, HubOrg);
    }
  }

  /** The rewrite touches only the model column. */
  lemma RewriteModelIdsKeeps(rows: seq<Record>)
    ensures forall i :: 0 <= i < |rows| ==>
              RewriteModelIds(rows)[i].scenario == rows[i].scenario &&
              RewriteModelIds(rows)[i].score == rows[i].score &&
              RewriteModelIds(rows)[i].model == RewriteModelId(rows[i].model)
  {
  }

  /** The rewrite runs after the duplicate check, so a local path and the hub
      id it rewrites to, each scored once, end up as two rows with one key. */
  lemma RewriteMergesKeys()
    ensures !HasConflict([Record(LocalModelDir + "bamba", "MMLU", 60.0), Record(HubOrg + "bamba", "MMLU", 61.0)])
    ensures !DistinctKeys(RewriteModelIds([Record(LocalModelDir + "bamba", "MMLU", 60.0), Record(HubOrg + "bamba", "MMLU", 61.0)]))
  {
    var x := Record(LocalModelDir + "bamba", "MMLU", 60.0);
    var y := Record(HubOrg + "bamba", "MMLU", 61.0);
    assert (LocalModelDir + "bamba")[0] != (HubOrg + "bamba")[0];
    assert !SameKey(x, y);
    ContainsTooLong("bamba", LocalModelDir);
    ContainsTooLong(HubOrg + "bamba", LocalModelDir);
    RewriteModelIdSpec(HubOrg + "bamba", "bamba");
    var out := RewriteModelIds([x, y]);
    assert out[0].model == HubOrg + "bamba" && out[1].model == HubOrg + "bamba";
    assert SameKey(out[0], out[1]);
  }
}
