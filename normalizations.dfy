/** The Open LLM Leaderboard v2 score normaliser (evaluation/normalizations.py).
    A raw accuracy is rescaled against its chance level so that random
    guessing scores 0 and a perfect run scores 100; the composite tasks
    average rescaled subtask scores. */
module Normalizations {
  import opened Wrappers
  import opened Strings
  import opened Records

  /** One result entry of an artifact: metric name to value. */
  type Payload = map<string, real>

  /** The `results` mapping of an artifact: task name to its payload. */
  type Results = map<string, Payload>

  /** `needs_normalization`: the first result key mentions "leaderboard".
      Indexing the first key of an empty list raises IndexError. */
  function NeedsNormalization(entries: seq<string>): (r: Result<bool>)
    ensures r.Err? <==> entries == []
    ensures r.Err? ==> r.error == IndexError
    ensures r.Ok? ==> (r.value <==> Contains(entries[0], "leaderboard"))
  {
    if entries == [] then Err(IndexError) else Ok(Contains(entries[0], "leaderboard"))
  }

  /** Only the first key is inspected: two key lists with the same first key
      get the same verdict, whatever follows. */
  lemma NeedsNormalizationFirstKeyOnly(a: seq<string>, b: seq<string>)
    requires a != [] && b != [] && a[0] == b[0]
    ensures NeedsNormalization(a) == NeedsNormalization(b)
  {
  }

  /** `hfv2_tasks`, in the order the extractor visits them. */
  const Hfv2Tasks: seq<string> := ["bbh", "musr", "mmlu_pro", "gpqa", "math_hard", "ifeval"]

  /** `normalize_within_range`: `max(value - lower, 0) / (higher - lower) * 100`.
      Both bounds are always passed explicitly by the callers. */
  function NormalizeWithinRange(value: real, lower: real, higher: real): (r: real)
    requires lower != higher
    ensures lower < higher ==> r >= 0.0
    ensures lower < higher ==> (r == 0.0 <==> value <= lower)
    ensures lower < higher && value <= higher ==> r <= 100.0
    ensures lower < higher && value == higher ==> r == 100.0
  {
    (if value - lower > 0.0 then value - lower else 0.0) / (higher - lower) * 100.0
  }

  /** For fixed bounds the rescale is monotone, and strictly so above the floor. */
  lemma NormalizeMonotone(v1: real, v2: real, lower: real, higher: real)
    requires lower < higher
    requires v1 <= v2
    ensures NormalizeWithinRange(v1, lower, higher) <= NormalizeWithinRange(v2, lower, higher)
    ensures lower <= v1 < v2 ==>
              NormalizeWithinRange(v1, lower, higher) < NormalizeWithinRange(v2, lower, higher)
  {
    var d := higher - lower;
    var a := if v1 - lower > 0.0 then v1 - lower else 0.0;
    var b := if v2 - lower > 0.0 then v2 - lower else 0.0;
    assert b / d - a / d == (b - a) / d;
    assert (b - a) / d >= 0.0;
    if lower <= v1 < v2 {
      assert (b - a) / d > 0.0;
    }
  }

  /** `bbh_subtasks`: subtask name and number of answer choices. */
  const BbhSubtasks: seq<(string, nat)> := [
    ("sports_understanding", 2),
    ("tracking_shuffled_objects_three_objects", 3),
    ("navigate", 2),
    ("snarks", 2),
    ("date_understanding", 6),
    ("reasoning_about_colored_objects", 18),
    ("object_counting", 19),
    ("logical_deduction_seven_objects", 7),
    ("geometric_shapes", 11),
    ("web_of_lies", 2),
    ("movie_recommendation", 6),
    ("logical_deduction_five_objects", 5),
    ("salient_translation_error_detection", 6),
    ("disambiguation_qa", 3),
    ("temporal_sequences", 4),
    ("hyperbaton", 2),
    ("logical_deduction_three_objects", 3),
    ("causal_judgement", 2),
    ("formal_fallacies", 2),
    ("tracking_shuffled_objects_seven_objects", 7),
    ("ruin_names", 6),
    ("penguins_in_a_table", 5),
    ("boolean_expressions", 2),
    ("tracking_shuffled_objects_five_objects", 5)
  ]

  /** `musr_subtasks`. */
  const MusrSubtasks: seq<(string, nat)> :=
    [("murder_mysteries", 2), ("object_placements", 5), ("team_allocation", 3)]

  /** Every subtask has at least two answer choices, so its chance floor
      `1 / num_choices` lies strictly below the ceiling 1. */
  predicate ValidChoices(table: seq<(string, nat)>) {
    forall i :: 0 <= i < |table| ==> table[i].1 >= 2
  }

  lemma TablesValid()
    ensures ValidChoices(BbhSubtasks) && ValidChoices(MusrSubtasks)
    ensures |BbhSubtasks| == 24 && |MusrSubtasks| == 3
  {
  }

  function BbhKey(subtask: string): string { "leaderboard_bbh_" + subtask }

  function MusrKey(subtask: string): string { "leaderboard_musr_" + subtask }

  /** Chance level of a subtask with `choices` answer choices. */
  function Floor(choices: nat): real
    requires choices >= 2
  {
    1.0 / (choices as real)
  }

  /** `data[key][metric]`, raising KeyError on the first missing level. */
  function Lookup(data: Results, key: string, metric: string): (r: Result<real>)
    ensures r.Ok? <==> key in data && metric in data[key]
    ensures r.Ok? ==> r.value == data[key][metric]
    ensures r.Err? ==> r.error == (if key !in data then KeyError(key) else KeyError(metric))
  {
    if key !in data then Err(KeyError(key))
    else if metric !in data[key] then Err(KeyError(metric))
    else Ok(data[key][metric])
  }

  /** The rescaled `acc_norm,none` of one subtask entry. */
  function SubtaskScore(data: Results, key: string, choices: nat): Result<real>
    requires choices >= 2
  {
    var raw :- Lookup(data, key, "acc_norm,none");
    Ok(NormalizeWithinRange(raw, Floor(choices), 1.0))
  }

  /** The list `bbh_scores` after visiting `table`: absent subtask keys are
      skipped, a present key without `acc_norm,none` raises KeyError. */
  function BbhScores(data: Results, table: seq<(string, nat)>): Result<seq<real>>
    requires ValidChoices(table)
  {
    if table == [] then Ok([])
    else
      var scores :- BbhScores(data, table[..|table| - 1]);
      var (name, choices) := table[|table| - 1];
      if BbhKey(name) in data then
        var s :- SubtaskScore(data, BbhKey(name), choices);
        Ok(scores + [s])
      else Ok(scores)
  }

  /** The list `musr_scores` after visiting `table`: every subtask key must be
      present. */
  function MusrScores(data: Results, table: seq<(string, nat)>): Result<seq<real>>
    requires ValidChoices(table)
  {
    if table == [] then Ok([])
    else
      var scores :- MusrScores(data, table[..|table| - 1]);
      var (name, choices) := table[|table| - 1];
      var s :- SubtaskScore(data, MusrKey(name), choices);
      Ok(scores + [s])
  }

  /** `sum(scores) / len(scores)`, where an empty list divides by zero. */
  function Average(scores: Result<seq<real>>): Result<real> {
    var xs :- scores;
    if xs == [] then Err(ZeroDivision) else Ok(Mean(xs))
  }

  /** `get_hfv2_noramlized_scores` as a function of the task name and the
      results mapping; the composite tasks read their subtask tables. */
  function Hfv2Score(taskName: string, data: Results): Result<real> {
    if taskName == "bbh" then
      TablesValid();
      Average(BbhScores(data, BbhSubtasks))
    else if taskName == "math_hard" then
      var raw :- Lookup(data, "leaderboard_math_hard", "exact_match,none");
      Ok(NormalizeWithinRange(raw, 0.0, 1.0))
    else if taskName == "gpqa" then
      var raw :- Lookup(data, "leaderboard_gpqa", "acc_norm,none");
      Ok(NormalizeWithinRange(raw, 0.25, 1.0))
    else if taskName == "mmlu_pro" then
      var raw :- Lookup(data, "leaderboard_mmlu_pro", "acc,none");
      Ok(NormalizeWithinRange(raw, 0.1, 1.0))
    else if taskName == "ifeval" then
      var inst :- Lookup(data, "leaderboard_ifeval", "inst_level_strict_acc,none");
      var prompt :- Lookup(data, "leaderboard_ifeval", "prompt_level_strict_acc,none");
      Ok((inst * 100.0 + prompt * 100.0) / 2.0)
    else if taskName == "musr" then
      TablesValid();
      Average(MusrScores(data, MusrSubtasks))
    else Err(NotImplemented(taskName))
  }

  /** The `bbh` loop: appends the rescaled score of every present subtask. */
  method BbhScore(data: Results, table: seq<(string, nat)>) returns (r: Result<real>)
    requires ValidChoices(table)
    ensures r == Average(BbhScores(data, table))
  {
    var scores: seq<real> := [];
    for i := 0 to |table|
      invariant BbhScores(data, table[..i]) == Ok(scores)
    {
      assert table[..i + 1][..i] == table[..i];
      var (name, choices) := table[i];
      var key := BbhKey(name);
      if key in data {
        if "acc_norm,none" !in data[key] {
          r := Err(KeyError("acc_norm,none"));
          assert BbhScores(data, table[..i + 1]) == r.PropagateFailure();
          PrefixErrorPropagates(data, table, i + 1, true);
          return;
        }
        scores := scores + [NormalizeWithinRange(data[key]["acc_norm,none"], Floor(choices), 1.0)];
      }
    }
    assert table[..|table|] == table;
    if scores == [] {
      r := Err(ZeroDivision);
    } else {
      r := Ok(Sum(scores) / (|scores| as real));
    }
  }

  /** The `musr` loop: every subtask key is looked up. */
  method MusrScore(data: Results, table: seq<(string, nat)>) returns (r: Result<real>)
    requires ValidChoices(table)
    ensures r == Average(MusrScores(data, table))
  {
    var scores: seq<real> := [];
    for i := 0 to |table|
      invariant MusrScores(data, table[..i]) == Ok(scores)
    {
      assert table[..i + 1][..i] == table[..i];
      var (name, choices) := table[i];
      var key := MusrKey(name);
      var raw := Lookup(data, key, "acc_norm,none");
      if raw.Err? {
        r := Err(raw.error);
        assert MusrScores(data, table[..i + 1]) == Err(raw.error);
        PrefixErrorPropagates(data, table, i + 1, false);
        return;
      }
      scores := scores + [NormalizeWithinRange(raw.value, Floor(choices), 1.0)];
    }
    assert table[..|table|] == table;
    if scores == [] {
      r := Err(ZeroDivision);
    } else {
      r := Ok(Sum(scores) / (|scores| as real));
    }
  }

  /** Once a prefix of the table raises, the whole table raises the same error. */
  lemma {:induction false} PrefixErrorPropagates(data: Results, table: seq<(string, nat)>, n: nat, bbh: bool)
    requires ValidChoices(table)
    requires 0 < n <= |table|
    requires bbh ==> BbhScores(data, table[..n]).Err?
    requires !bbh ==> MusrScores(data, table[..n]).Err?
    ensures bbh ==> BbhScores(data, table) == BbhScores(data, table[..n])
    ensures !bbh ==> MusrScores(data, table) == MusrScores(data, table[..n])
    decreases |table| - n
  {
    if n == |table| {
      assert table[..n] == table;
    } else {
      var next := table[..n + 1];
      assert next[..n] == table[..n];
      PrefixErrorPropagates(data, table, n + 1, bbh);
    }
  }

  /** `get_hfv2_noramlized_scores`: dispatch on the task name. */
  method GetHfv2NormalizedScores(taskName: string, data: Results) returns (r: Result<real>)
    ensures r == Hfv2Score(taskName, data)
  {
    TablesValid();
    if taskName == "bbh" {
      r := BbhScore(data, BbhSubtasks);
    } else if taskName == "math_hard" {
      var raw := Lookup(data, "leaderboard_math_hard", "exact_match,none");
      r := if raw.Err? then Err(raw.error) else Ok(NormalizeWithinRange(raw.value, 0.0, 1.0));
    } else if taskName == "gpqa" {
      var raw := Lookup(data, "leaderboard_gpqa", "acc_norm,none");
      r := if raw.Err? then Err(raw.error) else Ok(NormalizeWithinRange(raw.value, 0.25, 1.0));
    } else if taskName == "mmlu_pro" {
      var raw := Lookup(data, "leaderboard_mmlu_pro", "acc,none");
      r := if raw.Err? then Err(raw.error) else Ok(NormalizeWithinRange(raw.value, 0.1, 1.0));
    } else if taskName == "ifeval" {
      var inst := Lookup(data, "leaderboard_ifeval", "inst_level_strict_acc,none");
      var prompt := Lookup(data, "leaderboard_ifeval", "prompt_level_strict_acc,none");
      if inst.Err? {
        r := Err(inst.error);
      } else if prompt.Err? {
        r := Err(prompt.error);
      } else {
        r := Ok((inst.value * 100.0 + prompt.value * 100.0) / 2.0);
      }
    } else if taskName == "musr" {
      r := MusrScore(data, MusrSubtasks);
    } else {
      r := Err(NotImplemented(taskName));
    }
  }

  // ---------------------------------------------------------------------
  // Properties of the normaliser

  /** The metrics the normaliser reads from the leaderboard entries. */
  const NormalisedMetrics: set<string> :=
    {"acc_norm,none", "acc,none", "exact_match,none", "inst_level_strict_acc,none", "prompt_level_strict_acc,none"}

  /** Every metric the normaliser reads, in every leaderboard entry of the
      artifact, is a fraction in `[0, 1]`; other entries and metrics are
      unconstrained. */
  predicate RawInUnit(data: Results) {
    forall key, metric ::
      key in data && metric in data[key] && StartsWith(key, "leaderboard_") && metric in NormalisedMetrics ==>
        0.0 <= data[key][metric] <= 1.0
  }

  /** A subtask score of a raw fraction lies in `[0, 100]`. */
  lemma SubtaskScoreBounds(data: Results, key: string, choices: nat)
    requires choices >= 2
    requires RawInUnit(data) && StartsWith(key, "leaderboard_")
    requires SubtaskScore(data, key, choices).Ok?
    ensures 0.0 <= SubtaskScore(data, key, choices).value <= 100.0
  {
    assert Floor(choices) < 1.0;
  }

  /** Under `RawInUnit`, every collected subtask score lies in `[0, 100]`. */
  lemma {:induction false} SubtaskScoresBounds(data: Results, table: seq<(string, nat)>, bbh: bool)
    requires ValidChoices(table)
    requires RawInUnit(data)
    ensures bbh && BbhScores(data, table).Ok? ==>
              forall i :: 0 <= i < |BbhScores(data, table).value| ==>
                0.0 <= BbhScores(data, table).value[i] <= 100.0
    ensures !bbh && MusrScores(data, table).Ok? ==>
              forall i :: 0 <= i < |MusrScores(data, table).value| ==>
                0.0 <= MusrScores(data, table).value[i] <= 100.0
  {
    if table != [] {
      var (name, choices) := table[|table| - 1];
      SubtaskScoresBounds(data, table[..|table| - 1], bbh);
      if bbh && SubtaskScore(data, BbhKey(name), choices).Ok? {
        assert BbhKey(name)[..12] == "leaderboard_";
        SubtaskScoreBounds(data, BbhKey(name), choices);
      }
      if !bbh && SubtaskScore(data, MusrKey(name), choices).Ok? {
        assert MusrKey(name)[..12] == "leaderboard_";
        SubtaskScoreBounds(data, MusrKey(name), choices);
      }
    }
  }

  /** Rescale invariant: on raw fractions every task that produces a score
      produces one in `[0, 100]`. */
  lemma Hfv2ScoreBounds(taskName: string, data: Results)
    requires RawInUnit(data)
    requires Hfv2Score(taskName, data).Ok?
    ensures 0.0 <= Hfv2Score(taskName, data).value <= 100.0
  {
    TablesValid();
    if taskName == "bbh" {
      SubtaskScoresBounds(data, BbhSubtasks, true);
      MeanBounds(BbhScores(data, BbhSubtasks).value, 0.0, 100.0);
    } else if taskName == "musr" {
      SubtaskScoresBounds(data, MusrSubtasks, false);
      MeanBounds(MusrScores(data, MusrSubtasks).value, 0.0, 100.0);
    }
  }

  /** The `bbh` and `musr` loops raise only KeyError. */
  lemma {:induction false} SubtaskErrorsAreKeyErrors(data: Results, table: seq<(string, nat)>)
    requires ValidChoices(table)
    ensures BbhScores(data, table).Err? ==> BbhScores(data, table).error.KeyError?
    ensures MusrScores(data, table).Err? ==> MusrScores(data, table).error.KeyError?
  {
    if table != [] {
      SubtaskErrorsAreKeyErrors(data, table[..|table| - 1]);
    }
  }

  /** NotImplementedError is raised exactly for the names outside the six
      handled tasks. */
  lemma UnknownTaskNotImplemented(taskName: string, data: Results)
    ensures Hfv2Score(taskName, data) == Err(NotImplemented(taskName)) <==> taskName !in Hfv2Tasks
  {
    if taskName in Hfv2Tasks {
      KnownTaskErrors(taskName, data);
    }
  }

  /** The six handled tasks fail only on a missing key or, for `bbh` with no
      subtask present, on the division by zero. */
  lemma KnownTaskErrors(taskName: string, data: Results)
    requires taskName in Hfv2Tasks
    ensures Hfv2Score(taskName, data).Err? ==>
              Hfv2Score(taskName, data).error.KeyError? || Hfv2Score(taskName, data).error == ZeroDivision
  {
    TablesValid();
    if taskName == "bbh" {
      SubtaskErrorsAreKeyErrors(data, BbhSubtasks);
    } else if taskName == "musr" {
      SubtaskErrorsAreKeyErrors(data, MusrSubtasks);
    }
  }

  /** A subtask whose key is absent is skipped by `bbh`, not scored as 0. */
  lemma BbhSkipsAbsent(data: Results, table: seq<(string, nat)>, name: string, choices: nat)
    requires ValidChoices(table) && choices >= 2
    requires BbhKey(name) !in data
    ensures ValidChoices(table + [(name, choices)])
    ensures BbhScores(data, table + [(name, choices)]) == BbhScores(data, table)
  {
    assert (table + [(name, choices)])[..|table|] == table;
  }

  /** With no subtask key present, the `bbh` average divides by zero. */
  lemma {:induction false} BbhNonePresent(data: Results, table: seq<(string, nat)>)
    requires ValidChoices(table)
    requires forall i :: 0 <= i < |table| ==> BbhKey(table[i].0) !in data
    ensures BbhScores(data, table) == Ok([])
    ensures Average(BbhScores(data, table)) == Err(ZeroDivision)
  {
    if table != [] {
      BbhNonePresent(data, table[..|table| - 1]);
    }
  }

  /** A missing `musr` subtask key is a lookup error, not a skipped subtask. */
  lemma {:induction false} MusrMissingKey(data: Results, table: seq<(string, nat)>, i: nat)
    requires ValidChoices(table)
    requires i < |table| && MusrKey(table[i].0) !in data
    ensures MusrScores(data, table).Err?
  {
    if i == |table| - 1 {
    } else {
      MusrMissingKey(data, table[..|table| - 1], i);
    }
  }

  /** With all three `musr` entries present, the score is the mean of the
      three rescaled values with floors 1/2, 1/5 and 1/3. */
  lemma MusrMeanOfThree(data: Results, a: real, b: real, c: real)
    requires Lookup(data, MusrKey("murder_mysteries"), "acc_norm,none") == Ok(a)
    requires Lookup(data, MusrKey("object_placements"), "acc_norm,none") == Ok(b)
    requires Lookup(data, MusrKey("team_allocation"), "acc_norm,none") == Ok(c)
    ensures Hfv2Score("musr", data) == Ok(Mean([
      NormalizeWithinRange(a, 1.0 / 2.0, 1.0),
      NormalizeWithinRange(b, 1.0 / 5.0, 1.0),
      NormalizeWithinRange(c, 1.0 / 3.0, 1.0)]))
  {
    TablesValid();
    var t: seq<(string, nat)> := MusrSubtasks;
    var e: seq<(string, nat)> := [];
    var x, y, z := NormalizeWithinRange(a, 1.0 / 2.0, 1.0), NormalizeWithinRange(b, 1.0 / 5.0, 1.0),
                   NormalizeWithinRange(c, 1.0 / 3.0, 1.0);
    assert t[..1][..0] == e && t[..2][..1] == t[..1] && t[..3][..2] == t[..2] && t[..3] == t;
    assert MusrScores(data, e) == Ok([]);
    var none: seq<real> := [];
    assert none + [x] == [x] && [x] + [y] == [x, y] && [x, y] + [z] == [x, y, z];
    assert t[0] == ("murder_mysteries", 2) && t[1] == ("object_placements", 5) && t[2] == ("team_allocation", 3);
    assert SubtaskScore(data, MusrKey("murder_mysteries"), 2) == Ok(x);
    assert SubtaskScore(data, MusrKey("object_placements"), 5) == Ok(y);
    assert SubtaskScore(data, MusrKey("team_allocation"), 3) == Ok(z);
    assert MusrScores(data, t[..1]) == Ok([x]);
    assert MusrScores(data, t[..2]) == Ok([x, y]);
    assert MusrScores(data, t) == Ok([x, y, z]);
  }

  /** The single-metric tasks rescale one metric against a fixed floor. */
  lemma SingleMetricFloors(data: Results)
    ensures "leaderboard_gpqa" in data && "acc_norm,none" in data["leaderboard_gpqa"] ==>
              Hfv2Score("gpqa", data) == Ok(NormalizeWithinRange(data["leaderboard_gpqa"]["acc_norm,none"], 0.25, 1.0))
    ensures "leaderboard_mmlu_pro" in data && "acc,none" in data["leaderboard_mmlu_pro"] ==>
              Hfv2Score("mmlu_pro", data) == Ok(NormalizeWithinRange(data["leaderboard_mmlu_pro"]["acc,none"], 0.1, 1.0))
    ensures "leaderboard_math_hard" in data && "exact_match,none" in data["leaderboard_math_hard"] ==>
              Hfv2Score("math_hard", data) == Ok(NormalizeWithinRange(data["leaderboard_math_hard"]["exact_match,none"], 0.0, 1.0))
  {
  }

  /** `ifeval` is the mean of its two strict accuracies on the percentage scale. */
  lemma IfevalMean(data: Results)
    requires "leaderboard_ifeval" in data
    requires "inst_level_strict_acc,none" in data["leaderboard_ifeval"]
    requires "prompt_level_strict_acc,none" in data["leaderboard_ifeval"]
    ensures Hfv2Score("ifeval", data) == Ok(Mean([
      data["leaderboard_ifeval"]["inst_level_strict_acc,none"] * 100.0,
      data["leaderboard_ifeval"]["prompt_level_strict_acc,none"] * 100.0]))
  {
    var xs := [data["leaderboard_ifeval"]["inst_level_strict_acc,none"] * 100.0,
               data["leaderboard_ifeval"]["prompt_level_strict_acc,none"] * 100.0];
    var e: seq<real> := [];
    assert xs[..1][..0] == e && xs[..1] == [xs[0]] && xs[..|xs| - 1] == xs[..1];
    assert Sum(xs[..1]) == xs[0];
    assert Sum(xs) == xs[0] + xs[1];
  }

  /** Subtask A (3 choices, raw 0.8) rescales to 70, subtask B (5 choices,
      raw 0.9) to 87.5. */
  lemma ExampleSubtaskScores(data: Results)
    requires Lookup(data, BbhKey("a"), "acc_norm,none") == Ok(0.8)
    requires Lookup(data, BbhKey("b"), "acc_norm,none") == Ok(0.9)
    ensures SubtaskScore(data, BbhKey("a"), 3) == Ok(70.0)
    ensures SubtaskScore(data, BbhKey("b"), 5) == Ok(87.5)
  {
    assert NormalizeWithinRange(0.8, Floor(3), 1.0) == 70.0;
    assert NormalizeWithinRange(0.9, Floor(5), 1.0) == 87.5;
  }

  /** With A and B present, the BBH score is the average of 70 and 87.5. */
  lemma BbhTwoSubtaskExample(data: Results)
    requires Lookup(data, BbhKey("a"), "acc_norm,none") == Ok(0.8)
    requires Lookup(data, BbhKey("b"), "acc_norm,none") == Ok(0.9)
    ensures Average(BbhScores(data, [("a", 3), ("b", 5)])) == Ok(78.75)
  {
    var t: seq<(string, nat)> := [("a", 3), ("b", 5)];
    var e: seq<(string, nat)> := [];
    assert t[..1][..0] == e && t[..|t| - 1] == t[..1];
    ExampleSubtaskScores(data);
    var none: seq<real> := [];
    assert none + [70.0] == [70.0] && [70.0] + [87.5] == [70.0, 87.5];
    assert BbhScores(data, t[..1]) == Ok([70.0]);
    assert BbhScores(data, t) == Ok([70.0, 87.5]);
    var xs := [70.0, 87.5];
    assert xs[..1][..0] == none && xs[..|xs| - 1] == xs[..1];
    assert Sum(xs) == 157.5;
  }
}
