/** Per-artifact score extraction, the loop over result files at the top of
    `get_results_df` (evaluation/aggregation.py). An artifact produced by the
    leaderboard harness goes through the normaliser; any other artifact has
    one metric looked up per known scenario. */
module ScoreExtraction {
  import opened Wrappers
  import opened Strings
  import opened Records
  import opened Normalizations

  /** One parsed results file: `model_name`, and `results` together with the
      order of its keys in the JSON object. */
  datatype Artifact = Artifact(modelName: string, keys: seq<string>, results: Results)

  /** `keys` lists every key of `results` exactly once. */
  ghost predicate WellFormed(a: Artifact) {
    && (forall i, j :: 0 <= i < j < |a.keys| ==> a.keys[i] != a.keys[j])
    && (forall k :: k in a.results <==> k in a.keys)
  }

  ghost predicate AllWellFormed(artifacts: seq<Artifact>) {
    forall i :: 0 <= i < |artifacts| ==> WellFormed(artifacts[i])
  }

  function LeaderboardKey(task: string): string { "leaderboard_" + task }

  /** `" " in res_dict.get(f"leaderboard_{task}", {}).keys()`: the entry of a
      task that produced no score. */
  predicate NoScore(results: Results, task: string) {
    LeaderboardKey(task) in results && " " in results[LeaderboardKey(task)]
  }

  /** `any(task in entry for entry in all_res_entries)`. */
  predicate Mentioned(keys: seq<string>, task: string) {
    exists i :: 0 <= i < |keys| && Contains(keys[i], task)
  }

  /** A task the leaderboard branch scores. */
  predicate Eligible(a: Artifact, task: string) {
    !NoScore(a.results, task) && Mentioned(a.keys, task)
  }

  /** `acc` followed by the records of `r`, or the error of `r`. */
  function Then(acc: seq<Record>, r: Result<seq<Record>>): Result<seq<Record>> {
    match r
    case Ok(v) => Ok(acc + v)
    case Err(e) => Err(e)
  }

  /** What the leaderboard branch appends for one task: the normalised score
      divided by 100, or nothing. */
  function LeaderboardEntry(a: Artifact, task: string): Result<seq<Record>> {
    if !Eligible(a, task) then Ok([])
    else
      var score :- Hfv2Score(task, a.results);
      Ok([Record(a.modelName, task, score / 100.0)])
  }

  function LeaderboardRecords(a: Artifact, tasks: seq<string>): Result<seq<Record>> {
    if tasks == [] then Ok([])
    else
      var here :- LeaderboardEntry(a, tasks[0]);
      var rest :- LeaderboardRecords(a, tasks[1..]);
      Ok(here + rest)
  }

  /** The comprehension `metric_key`: the keys equal to the expected metric
      name once ",none" is removed, other than standard-error keys. */
  function MetricCandidates(payload: Payload, metric: string): set<string> {
    set k | k in payload && Replace(k, ",none", "") == metric && !Contains(k, "stderr")
  }

  /** What the metric-lookup branch appends for one result key: nothing for a
      scenario without an expected metric, otherwise the single matching
      metric; zero or several matches fail the assertion. */
  ghost function LookupEntry(a: Artifact, scenario2metric: map<string, string>, scenario: string): Result<seq<Record>>
    requires scenario in a.results
  {
    if scenario !in scenario2metric then Ok([])
    else
      var candidates := MetricCandidates(a.results[scenario], scenario2metric[scenario]);
      if |candidates| != 1 then Err(AssertionFailed("More/Less than one metric?"))
      else
        var k :| k in candidates;
        Ok([Record(a.modelName, scenario, a.results[scenario][k])])
  }

  ghost function LookupRecords(a: Artifact, scenario2metric: map<string, string>, keys: seq<string>): Result<seq<Record>>
    requires forall k :: k in keys ==> k in a.results
  {
    if keys == [] then Ok([])
    else
      var here :- LookupEntry(a, scenario2metric, keys[0]);
      var rest :- LookupRecords(a, scenario2metric, keys[1..]);
      Ok(here + rest)
  }

  /** The records one artifact contributes to `res_list`. */
  ghost function ArtifactRecords(a: Artifact, scenario2metric: map<string, string>): Result<seq<Record>>
    requires WellFormed(a)
  {
    var leaderboard :- NeedsNormalization(a.keys);
    if leaderboard then LeaderboardRecords(a, Hfv2Tasks) else LookupRecords(a, scenario2metric, a.keys)
  }

  /** `res_list` after reading every artifact, in order. */
  ghost function AllRecords(artifacts: seq<Artifact>, scenario2metric: map<string, string>): Result<seq<Record>>
    requires AllWellFormed(artifacts)
  {
    if artifacts == [] then Ok([])
    else
      var here :- ArtifactRecords(artifacts[0], scenario2metric);
      var rest :- AllRecords(artifacts[1..], scenario2metric);
      Ok(here + rest)
  }

  /** A one-element set has no other member. */
  lemma SingletonMember(s: set<string>, a: string, b: string)
    requires |s| == 1 && a in s && b in s
    ensures a == b
  {
    var t := s - {a};
    assert |t| == 0;
    assert t == {};
    assert b in {a} + t;
  }

  lemma ThenNil(r: Result<seq<Record>>)
    ensures Then([], r) == r
  {
    if r.Ok? {
      assert [] + r.value == r.value;
    }
  }

  lemma ThenThen(acc: seq<Record>, here: seq<Record>, r: Result<seq<Record>>)
    ensures Then(acc, Then(here, r)) == Then(acc + here, r)
  {
    if r.Ok? {
      assert acc + (here + r.value) == (acc + here) + r.value;
    }
  }

  /** The leaderboard branch of the loop body: every listed task that has a
      score entry and is mentioned by a result key is scored. */
  method ExtractLeaderboard(a: Artifact, tasks: seq<string>) returns (r: Result<seq<Record>>)
    ensures r == LeaderboardRecords(a, tasks)
  {
    var records: seq<Record> := [];
    ThenNil(LeaderboardRecords(a, tasks));
    for t := 0 to |tasks|
      invariant LeaderboardRecords(a, tasks) == Then(records, LeaderboardRecords(a, tasks[t..]))
    {
      var task := tasks[t];
      assert tasks[t..][1..] == tasks[t + 1..];
      assert tasks[t..][0] == task;
      ghost var rest := LeaderboardRecords(a, tasks[t + 1..]);
      if NoScore(a.results, task) {
        ThenThen(records, [], rest);
        assert records + [] == records;
        continue;
      }
      if Mentioned(a.keys, task) {
        var score := GetHfv2NormalizedScores(task, a.results);
        if score.Err? {
          return Err(score.error);
        }
        ThenThen(records, [Record(a.modelName, task, score.value / 100.0)], rest);
        records := records + [Record(a.modelName, task, score.value / 100.0)];
      } else {
        ThenThen(records, [], rest);
        assert records + [] == records;
      }
    }
    assert records + [] == records;
    return Ok(records);
  }

  /** The metric-lookup branch of the loop body, over the result keys in
      order. */
  method ExtractLookup(a: Artifact, scenario2metric: map<string, string>) returns (r: Result<seq<Record>>)
    requires WellFormed(a)
    ensures r == LookupRecords(a, scenario2metric, a.keys)
  {
    var records: seq<Record> := [];
    ThenNil(LookupRecords(a, scenario2metric, a.keys));
    for i := 0 to |a.keys|
      invariant LookupRecords(a, scenario2metric, a.keys) == Then(records, LookupRecords(a, scenario2metric, a.keys[i..]))
    {
      var scenario := a.keys[i];
      assert a.keys[i..][1..] == a.keys[i + 1..];
      assert a.keys[i..][0] == scenario;
      ghost var rest := LookupRecords(a, scenario2metric, a.keys[i + 1..]);
      if scenario !in scenario2metric {
        ThenThen(records, [], rest);
        assert records + [] == records;
        continue;
      }
      var res := a.results[scenario];
      var metricKey := MetricCandidates(res, scenario2metric[scenario]);
      if |metricKey| != 1 {
        return Err(AssertionFailed("More/Less than one metric?"));
      }
      var k :| k in metricKey;
      forall k' | k' in metricKey
        ensures k' == k
      {
        SingletonMember(metricKey, k, k');
      }
      assert LookupEntry(a, scenario2metric, scenario) == Ok([Record(a.modelName, scenario, res[k])]);
      ThenThen(records, [Record(a.modelName, scenario, res[k])], rest);
      records := records + [Record(a.modelName, scenario, res[k])];
    }
    assert records + [] == records;
    return Ok(records);
  }

  /** The body of the loop over one artifact's results: the branch is chosen
      by the first result key. */
  method ExtractArtifact(a: Artifact, scenario2metric: map<string, string>) returns (r: Result<seq<Record>>)
    requires WellFormed(a)
    ensures r == ArtifactRecords(a, scenario2metric)
  {
    var needs := NeedsNormalization(a.keys);
    if needs.Err? {
      return Err(needs.error);
    }
    if needs.value {
      r := ExtractLeaderboard(a, Hfv2Tasks);
    } else {
      r := ExtractLookup(a, scenario2metric);
    }
  }

  /** The nested loop over all result files, filling `res_list`. */
  method ExtractRecords(artifacts: seq<Artifact>, scenario2metric: map<string, string>) returns (r: Result<seq<Record>>)
    requires AllWellFormed(artifacts)
    ensures r == AllRecords(artifacts, scenario2metric)
  {
    var records: seq<Record> := [];
    ThenNil(AllRecords(artifacts, scenario2metric));
    for i := 0 to |artifacts|
      invariant AllRecords(artifacts, scenario2metric) == Then(records, AllRecords(artifacts[i..], scenario2metric))
    {
      assert artifacts[i..][1..] == artifacts[i + 1..];
      assert artifacts[i..][0] == artifacts[i];
      var here := ExtractArtifact(artifacts[i], scenario2metric);
      if here.Err? {
        return Err(here.error);
      }
      ThenThen(records, here.value, AllRecords(artifacts[i + 1..], scenario2metric));
      records := records + here.value;
    }
    assert records + [] == records;
    return Ok(records);
  }

  // ---------------------------------------------------------------------
  // Properties of the two extraction branches

  /** Leaderboard branch: a record is emitted exactly for each task that has a
      score entry and is mentioned by some result key, and it carries the
      normalised score divided by 100. The branch fails exactly when the
      score of some such task cannot be computed. */
  lemma {:induction false} LeaderboardRecordsSpec(a: Artifact, tasks: seq<string>)
    ensures LeaderboardRecords(a, tasks).Err? <==>
              exists t :: t in tasks && Eligible(a, t) && Hfv2Score(t, a.results).Err?
    ensures LeaderboardRecords(a, tasks).Ok? ==>
              forall rec :: rec in LeaderboardRecords(a, tasks).value ==>
                rec.model == a.modelName && rec.scenario in tasks && Eligible(a, rec.scenario) &&
                Hfv2Score(rec.scenario, a.results) == Ok(rec.score * 100.0)
    ensures LeaderboardRecords(a, tasks).Ok? ==>
              forall t :: t in tasks && Eligible(a, t) ==>
                exists rec :: rec in LeaderboardRecords(a, tasks).value && rec.scenario == t
  {
    if tasks != [] {
      LeaderboardRecordsSpec(a, tasks[1..]);
      var t := tasks[0];
      assert forall x :: x in tasks <==> x == t || x in tasks[1..];
      if LeaderboardRecords(a, tasks).Ok? {
        var all := LeaderboardRecords(a, tasks).value;
        var here := LeaderboardEntry(a, t).value;
        var rest := LeaderboardRecords(a, tasks[1..]).value;
        assert all == here + rest;
        if Eligible(a, t) {
          var rec := Record(a.modelName, t, Hfv2Score(t, a.results).value / 100.0);
          assert here == [rec] && rec in all;
        }
      }
    }
  }

  /** Metric-lookup branch: a scenario without an expected metric is skipped;
      every other result key yields one record holding the value of a metric
      key that matches the expected name; the assertion fails exactly when
      some such scenario has zero or several matching keys. */
  lemma {:induction false} LookupRecordsSpec(a: Artifact, scenario2metric: map<string, string>, keys: seq<string>)
    requires forall k :: k in keys ==> k in a.results
    ensures LookupRecords(a, scenario2metric, keys).Err? <==>
              exists s :: s in keys && s in scenario2metric &&
                |MetricCandidates(a.results[s], scenario2metric[s])| != 1
    ensures LookupRecords(a, scenario2metric, keys).Ok? ==>
              forall rec :: rec in LookupRecords(a, scenario2metric, keys).value ==>
                rec.model == a.modelName && rec.scenario in keys && rec.scenario in scenario2metric &&
                exists k :: k in MetricCandidates(a.results[rec.scenario], scenario2metric[rec.scenario]) &&
                  rec.score == a.results[rec.scenario][k]
    ensures LookupRecords(a, scenario2metric, keys).Ok? ==>
              forall s :: s in keys && s in scenario2metric ==>
                exists rec :: rec in LookupRecords(a, scenario2metric, keys).value && rec.scenario == s
  {
    if keys != [] {
      LookupRecordsSpec(a, scenario2metric, keys[1..]);
      var s := keys[0];
      assert forall x :: x in keys <==> x == s || x in keys[1..];
      if LookupRecords(a, scenario2metric, keys).Ok? {
        var all := LookupRecords(a, scenario2metric, keys).value;
        var here := LookupEntry(a, scenario2metric, s).value;
        var rest := LookupRecords(a, scenario2metric, keys[1..]).value;
        assert all == here + rest;
        if s in scenario2metric {
          assert |here| == 1 && here[0] in all;
        }
      }
    }
  }

  /** No name occurs twice. */
  predicate NoRepeats(names: seq<string>) {
    forall i, j :: 0 <= i < j < |names| ==> names[i] != names[j]
  }

  /** Each record has a scenario of its own. */
  predicate OnePerScenario(recs: seq<Record>) {
    forall p, q :: 0 <= p < q < |recs| ==> recs[p].scenario != recs[q].scenario
  }

  /** What one name contributes, after the records of the later names whose
      scenarios avoid it, keeps one record per scenario. */
  lemma OnePerScenarioCons(here: seq<Record>, rest: seq<Record>, names: seq<string>)
    requires names != [] && NoRepeats(names)
    requires |here| <= 1 && forall p :: 0 <= p < |here| ==> here[p].scenario == names[0]
    requires OnePerScenario(rest) && forall p :: 0 <= p < |rest| ==> rest[p].scenario in names[1..]
    ensures OnePerScenario(here + rest)
    ensures forall p :: 0 <= p < |here + rest| ==> (here + rest)[p].scenario in names
  {
    var all := here + rest;
    assert names[0] !in names[1..] by {
      forall i | 0 <= i < |names[1..]| ensures names[1..][i] != names[0] {
        assert names[1..][i] == names[i + 1];
      }
    }
    forall p | 0 <= p < |all| ensures all[p].scenario in names {
      if p >= |here| {
        assert all[p] == rest[p - |here|];
        var i :| 0 <= i < |names[1..]| && names[1..][i] == all[p].scenario;
        assert names[i + 1] == all[p].scenario;
      }
    }
    forall p, q | 0 <= p < q < |all| ensures all[p].scenario != all[q].scenario {
      assert all[q] == rest[q - |here|];
      if p >= |here| {
        assert all[p] == rest[p - |here|];
      }
    }
  }

  /** Over tasks that are listed once each, the leaderboard branch emits at
      most one record per task. */
  lemma {:induction false} LeaderboardRecordsOnePerTask(a: Artifact, tasks: seq<string>)
    requires NoRepeats(tasks)
    requires LeaderboardRecords(a, tasks).Ok?
    ensures OnePerScenario(LeaderboardRecords(a, tasks).value)
    ensures forall p :: 0 <= p < |LeaderboardRecords(a, tasks).value| ==>
              LeaderboardRecords(a, tasks).value[p].scenario in tasks
  {
    if tasks != [] {
      assert NoRepeats(tasks[1..]);
      LeaderboardRecordsOnePerTask(a, tasks[1..]);
      var here := LeaderboardEntry(a, tasks[0]).value;
      var rest := LeaderboardRecords(a, tasks[1..]).value;
      assert LeaderboardRecords(a, tasks).value == here + rest;
      OnePerScenarioCons(here, rest, tasks);
    }
  }

  /** Over result keys that occur once each, as the keys of a JSON object do,
      the metric-lookup branch emits at most one record per key. */
  lemma {:induction false} LookupRecordsOnePerKey(a: Artifact, scenario2metric: map<string, string>, keys: seq<string>)
    requires forall k :: k in keys ==> k in a.results
    requires NoRepeats(keys)
    requires LookupRecords(a, scenario2metric, keys).Ok?
    ensures OnePerScenario(LookupRecords(a, scenario2metric, keys).value)
    ensures forall p :: 0 <= p < |LookupRecords(a, scenario2metric, keys).value| ==>
              LookupRecords(a, scenario2metric, keys).value[p].scenario in keys
  {
    if keys != [] {
      assert NoRepeats(keys[1..]);
      LookupRecordsOnePerKey(a, scenario2metric, keys[1..]);
      var here := LookupEntry(a, scenario2metric, keys[0]).value;
      var rest := LookupRecords(a, scenario2metric, keys[1..]).value;
      assert LookupRecords(a, scenario2metric, keys).value == here + rest;
      OnePerScenarioCons(here, rest, keys);
    }
  }
}
