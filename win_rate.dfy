/** Win rates (evaluation/aggregation.py, `calculate_win_rate` and the mean
    win rate): within one scenario, the win rate of a score is the fraction of
    the other models it beats strictly; the mean win rate of a model averages
    its win rates over the scenarios it has a score in. */
module WinRate {
  import opened Wrappers
  import opened Records

  const SingleObjectMessage: string := "no meaning for a win rate with only one object"

  /** `sum(1 for value in series if x > value)`. */
  function CountBelow(series: seq<real>, x: real): (n: nat)
    ensures n <= |series|
  {
    if series == [] then 0
    else CountBelow(series[..|series| - 1], x) + (if x > series[|series| - 1] then 1 else 0)
  }

  /** `win_rate(x)`: the beaten values over the number of other entries. */
  function WinRateOf(series: seq<real>, x: real): real
    requires |series| > 1
  {
    CountBelow(series, x) as real / (|series| - 1) as real
  }

  /** `calculate_win_rate(series)`: the win rate of every entry, in order; a
      series of at most one entry fails the assertion. */
  function CalculateWinRate(series: seq<real>): (r: Result<seq<real>>)
    ensures r.Err? <==> |series| <= 1
    ensures r.Err? ==> r.error == AssertionFailed(SingleObjectMessage)
    ensures r.Ok? ==> |r.value| == |series|
  {
    if |series| <= 1 then Err(AssertionFailed(SingleObjectMessage))
    else Ok(seq(|series|, i requires 0 <= i < |series| => WinRateOf(series, series[i])))
  }

  // ---------------------------------------------------------------------
  // Counting

  /** An entry never beats itself, so it beats at most the others. */
  lemma {:induction false} CountBelowMember(series: seq<real>, i: int)
    requires 0 <= i < |series|
    ensures CountBelow(series, series[i]) <= |series| - 1
  {
    var prefix := series[..|series| - 1];
    if i < |prefix| {
      CountBelowMember(prefix, i);
      assert prefix[i] == series[i];
    }
  }

  /** A higher value beats at least as many entries. */
  lemma {:induction false} CountBelowMonotone(series: seq<real>, y: real, x: real)
    requires y <= x
    ensures CountBelow(series, y) <= CountBelow(series, x)
  {
    if series != [] {
      CountBelowMonotone(series[..|series| - 1], y, x);
    }
  }

  /** A value beats strictly more entries than any entry below it. */
  lemma {:induction false} CountBelowStrict(series: seq<real>, i: int, x: real)
    requires 0 <= i < |series| && series[i] < x
    ensures CountBelow(series, series[i]) < CountBelow(series, x)
  {
    var prefix := series[..|series| - 1];
    if i < |prefix| {
      CountBelowStrict(prefix, i, x);
      assert prefix[i] == series[i];
    } else {
      CountBelowMonotone(prefix, series[i], x);
    }
  }

  /** A value no greater than every entry beats none. */
  lemma {:induction false} CountBelowMinimum(series: seq<real>, x: real)
    requires forall k :: 0 <= k < |series| ==> x <= series[k]
    ensures CountBelow(series, x) == 0
  {
    if series != [] {
      CountBelowMinimum(series[..|series| - 1], x);
    }
  }

  /** An entry above every other entry beats all of them. */
  lemma {:induction false} CountBelowMaximum(series: seq<real>, i: int)
    requires 0 <= i < |series|
    requires forall k :: 0 <= k < |series| && k != i ==> series[k] < series[i]
    ensures CountBelow(series, series[i]) == |series| - 1
  {
    var prefix := series[..|series| - 1];
    if i < |prefix| {
      CountBelowMaximum(prefix, i);
      assert prefix[i] == series[i];
    } else {
      CountBelowAll(prefix, series[i]);
    }
  }

  lemma {:induction false} CountBelowAll(series: seq<real>, x: real)
    requires forall k :: 0 <= k < |series| ==> series[k] < x
    ensures CountBelow(series, x) == |series|
  {
    if series != [] {
      CountBelowAll(series[..|series| - 1], x);
    }
  }

  // ---------------------------------------------------------------------
  // Properties of one scenario's win rates

  /** Every win rate of a series lies in `[0, 1]`. */
  lemma CalculateWinRateBounds(series: seq<real>)
    requires |series| > 1
    ensures forall i :: 0 <= i < |series| ==> 0.0 <= CalculateWinRate(series).value[i] <= 1.0
  {
    var wr := CalculateWinRate(series).value;
    var d := (|series| - 1) as real;
    assert d / d == 1.0 by { assert 1.0 * d == d; }
    forall i | 0 <= i < |series|
      ensures 0.0 <= wr[i] <= 1.0
    {
      var c := CountBelow(series, series[i]);
      CountBelowMember(series, i);
      DivideMonotone(c, |series| - 1, |series| - 1);
      assert wr[i] == c as real / d;
    }
  }

  /** Dividing counts by the same positive number keeps their order. */
  lemma DivideMonotone(lo: nat, hi: nat, d: nat)
    requires d > 0
    ensures lo <= hi ==> lo as real / d as real <= hi as real / d as real
    ensures lo < hi ==> lo as real / d as real < hi as real / d as real
  {
    var l, h, e := lo as real, hi as real, d as real;
    assert h / e - l / e == (h - l) / e;
  }

  /** A strictly higher score gets a strictly higher win rate. */
  lemma CalculateWinRateOrder(series: seq<real>, i: int, j: int)
    requires |series| > 1
    requires 0 <= i < |series| && 0 <= j < |series| && series[i] < series[j]
    ensures CalculateWinRate(series).value[i] < CalculateWinRate(series).value[j]
  {
    CountBelowStrict(series, i, series[j]);
    DivideMonotone(CountBelow(series, series[i]), CountBelow(series, series[j]), |series| - 1);
  }

  /** A score no higher than another gets a win rate no higher. */
  lemma CalculateWinRateMonotone(series: seq<real>, i: int, j: int)
    requires |series| > 1
    requires 0 <= i < |series| && 0 <= j < |series| && series[i] <= series[j]
    ensures CalculateWinRate(series).value[i] <= CalculateWinRate(series).value[j]
  {
    CountBelowMonotone(series, series[i], series[j]);
    DivideMonotone(CountBelow(series, series[i]), CountBelow(series, series[j]), |series| - 1);
  }

  /** The lowest score gets 0 and a score above all others gets 1. */
  lemma CalculateWinRateExtremes(series: seq<real>, i: int)
    requires |series| > 1
    requires 0 <= i < |series|
    ensures (forall k :: 0 <= k < |series| ==> series[i] <= series[k]) ==> CalculateWinRate(series).value[i] == 0.0
    ensures (forall k :: 0 <= k < |series| && k != i ==> series[k] < series[i]) ==> CalculateWinRate(series).value[i] == 1.0
  {
    if forall k :: 0 <= k < |series| ==> series[i] <= series[k] {
      CountBelowMinimum(series, series[i]);
    }
    if forall k :: 0 <= k < |series| && k != i ==> series[k] < series[i] {
      WinRateOfMaximum(series, i);
    }
  }

  lemma WinRateOfMaximum(series: seq<real>, i: int)
    requires |series| > 1
    requires 0 <= i < |series|
    requires forall k :: 0 <= k < |series| && k != i ==> series[k] < series[i]
    ensures WinRateOf(series, series[i]) == 1.0
  {
    CountBelowMaximum(series, i);
    var d := (|series| - 1) as real;
    assert CountBelow(series, series[i]) as real == d;
    assert d / d == 1.0 by {
      assert 1.0 * d == d;
    }
  }

  /** A scenario in which every model scored the same gives every model a
      win rate of 0. */
  lemma TiedScenario(series: seq<real>)
    requires |series| > 1
    requires forall i, j :: 0 <= i < |series| && 0 <= j < |series| ==> series[i] == series[j]
    ensures forall i :: 0 <= i < |series| ==> CalculateWinRate(series).value[i] == 0.0
  {
    forall i | 0 <= i < |series| {
      CalculateWinRateExtremes(series, i);
    }
  }

  // ---------------------------------------------------------------------
  // groupby(["scenario"])["score"].transform(calculate_win_rate)

  /** Some row is about scenario `s`. */
  predicate HasScenario(rows: seq<Record>, s: string) {
    exists i :: 0 <= i < |rows| && rows[i].scenario == s
  }

  lemma HasScenarioSnoc(rows: seq<Record>, x: Record, s: string)
    ensures HasScenario(rows + [x], s) <==> HasScenario(rows, s) || x.scenario == s
  {
    var all := rows + [x];
    if HasScenario(rows, s) {
      var i :| 0 <= i < |rows| && rows[i].scenario == s;
      assert all[i] == rows[i];
    }
    assert all[|rows|] == x;
    if HasScenario(all, s) {
      var i :| 0 <= i < |all| && all[i].scenario == s;
      if i < |rows| {
        assert rows[i] == all[i];
      }
    }
  }

  /** The `score` series of the scenario group `s`, in row order. */
  function ScenarioScores(rows: seq<Record>, s: string): (xs: seq<real>)
    ensures |xs| > 0 <==> HasScenario(rows, s)
  {
    if rows == [] then []
    else
      var prefix := rows[..|rows| - 1];
      var last := rows[|rows| - 1];
      assert rows == prefix + [last];
      HasScenarioSnoc(prefix, last, s);
      ScenarioScores(prefix, s) + (if last.scenario == s then [last.score] else [])
  }

  /** Row `i` is the only row of its scenario. */
  predicate Alone(rows: seq<Record>, i: int)
    requires 0 <= i < |rows|
  {
    forall j :: 0 <= j < |rows| && j != i ==> rows[j].scenario != rows[i].scenario
  }

  /** The win-rate column: each row's win rate within its scenario group; a
      scenario with a single row fails the assertion. */
  function WinRates(rows: seq<Record>): (r: Result<seq<real>>)
    ensures r.Ok? ==> |r.value| == |rows|
  {
    if exists i :: 0 <= i < |rows| && |ScenarioScores(rows, rows[i].scenario)| <= 1 then
      Err(AssertionFailed(SingleObjectMessage))
    else
      Ok(seq(|rows|, i requires 0 <= i < |rows| => WinRateOf(ScenarioScores(rows, rows[i].scenario), rows[i].score)))
  }

  /** A row's score is an entry of its scenario's series. */
  lemma {:induction false} ScoreInGroup(rows: seq<Record>, i: int)
    requires 0 <= i < |rows|
    ensures exists k :: 0 <= k < |ScenarioScores(rows, rows[i].scenario)| &&
              ScenarioScores(rows, rows[i].scenario)[k] == rows[i].score
  {
    var prefix := rows[..|rows| - 1];
    var last := rows[|rows| - 1];
    var s := rows[i].scenario;
    if i == |prefix| {
      var xs := ScenarioScores(rows, s);
      assert xs[|xs| - 1] == last.score;
    } else {
      ScoreInGroup(prefix, i);
      assert prefix[i] == rows[i];
      var k :| 0 <= k < |ScenarioScores(prefix, s)| && ScenarioScores(prefix, s)[k] == rows[i].score;
      assert ScenarioScores(rows, s)[k] == rows[i].score;
    }
  }

  /** A group series has two entries exactly when another row shares the
      scenario. */
  lemma {:induction false} GroupSize(rows: seq<Record>, i: int)
    requires 0 <= i < |rows|
    ensures |ScenarioScores(rows, rows[i].scenario)| <= 1 <==> Alone(rows, i)
  {
    var prefix := rows[..|rows| - 1];
    var last := rows[|rows| - 1];
    var s := rows[i].scenario;
    var all := ScenarioScores(rows, s);
    var before := ScenarioScores(prefix, s);
    if i == |prefix| {
      assert |all| == |before| + 1;
      if !Alone(rows, i) {
        var j :| 0 <= j < |rows| && j != i && rows[j].scenario == s;
        assert prefix[j] == rows[j];
      }
      if |before| > 0 {
        var j :| 0 <= j < |prefix| && prefix[j].scenario == s;
        assert rows[j] == prefix[j];
      }
    } else {
      GroupSize(prefix, i);
      assert prefix[i] == rows[i];
      assert |before| >= 1;
      if last.scenario == s {
        assert !Alone(rows, i) by {
          assert rows[|prefix|].scenario == s;
        }
      } else {
        if !Alone(rows, i) {
          var j :| 0 <= j < |rows| && j != i && rows[j].scenario == s;
          assert j < |prefix| && prefix[j] == rows[j];
        }
        if !Alone(prefix, i) {
          var j :| 0 <= j < |prefix| && j != i && prefix[j].scenario == s;
          assert rows[j] == prefix[j];
        }
      }
    }
  }

  /** The win-rate column fails exactly when some scenario has a single row,
      with the assertion's message. */
  lemma WinRatesError(rows: seq<Record>)
    ensures WinRates(rows).Err? <==> exists i :: 0 <= i < |rows| && Alone(rows, i)
    ensures WinRates(rows).Err? ==> WinRates(rows).error == AssertionFailed(SingleObjectMessage)
  {
    forall i | 0 <= i < |rows| {
      GroupSize(rows, i);
    }
  }

  /** The win rate of row `i` is the win rate of its entry in its scenario's
      series. */
  lemma WinRateEntry(rows: seq<Record>, i: int) returns (k: int)
    requires 0 <= i < |rows|
    requires WinRates(rows).Ok?
    ensures |ScenarioScores(rows, rows[i].scenario)| > 1
    ensures 0 <= k < |ScenarioScores(rows, rows[i].scenario)|
    ensures ScenarioScores(rows, rows[i].scenario)[k] == rows[i].score
    ensures WinRates(rows).value[i] == CalculateWinRate(ScenarioScores(rows, rows[i].scenario)).value[k]
  {
    var xs := ScenarioScores(rows, rows[i].scenario);
    ScoreInGroup(rows, i);
    k :| 0 <= k < |xs| && xs[k] == rows[i].score;
  }

  /** Every win rate lies in `[0, 1]`. */
  lemma WinRatesBounds(rows: seq<Record>)
    requires WinRates(rows).Ok?
    ensures forall i :: 0 <= i < |rows| ==> 0.0 <= WinRates(rows).value[i] <= 1.0
  {
    forall i | 0 <= i < |rows|
      ensures 0.0 <= WinRates(rows).value[i] <= 1.0
    {
      var k := WinRateEntry(rows, i);
      CalculateWinRateBounds(ScenarioScores(rows, rows[i].scenario));
    }
  }

  /** Within a scenario, a strictly higher score has a strictly higher win
      rate and nothing else does; equal scores share their win rate. */
  lemma WinRatesOrder(rows: seq<Record>, i: int, j: int)
    requires WinRates(rows).Ok?
    requires 0 <= i < |rows| && 0 <= j < |rows|
    requires rows[i].scenario == rows[j].scenario
    ensures rows[i].score < rows[j].score <==> WinRates(rows).value[i] < WinRates(rows).value[j]
    ensures rows[i].score == rows[j].score ==> WinRates(rows).value[i] == WinRates(rows).value[j]
  {
    var ki := WinRateEntry(rows, i);
    var kj := WinRateEntry(rows, j);
    var xs := ScenarioScores(rows, rows[i].scenario);
    if rows[i].score < rows[j].score {
      CalculateWinRateOrder(xs, ki, kj);
    } else {
      CalculateWinRateMonotone(xs, kj, ki);
    }
  }

  /** Every entry of a scenario's series is the score of a row of that
      scenario. */
  lemma {:induction false} ScenarioScoresMembers(rows: seq<Record>, s: string)
    ensures forall k :: 0 <= k < |ScenarioScores(rows, s)| ==>
              exists j :: 0 <= j < |rows| && rows[j].scenario == s && rows[j].score == ScenarioScores(rows, s)[k]
  {
    if rows != [] {
      var prefix := rows[..|rows| - 1];
      var last := rows[|rows| - 1];
      ScenarioScoresMembers(prefix, s);
      var before := ScenarioScores(prefix, s);
      var xs := ScenarioScores(rows, s);
      assert xs == before + (if last.scenario == s then [last.score] else []);
      forall k | 0 <= k < |xs|
        ensures exists j :: 0 <= j < |rows| && rows[j].scenario == s && rows[j].score == xs[k]
      {
        if k < |before| {
          assert xs[k] == before[k];
          var j :| 0 <= j < |prefix| && prefix[j].scenario == s && prefix[j].score == before[k];
          assert rows[j] == prefix[j];
        } else {
          var j := |rows| - 1;
          assert rows[j].scenario == s && rows[j].score == xs[k];
        }
      }
    } else {
      assert ScenarioScores(rows, s) == [];
    }
  }

  /** The lowest score of a scenario has win rate 0. */
  lemma WinRatesMinimum(rows: seq<Record>, i: int)
    requires WinRates(rows).Ok?
    requires 0 <= i < |rows|
    requires forall j :: 0 <= j < |rows| && rows[j].scenario == rows[i].scenario ==> rows[i].score <= rows[j].score
    ensures WinRates(rows).value[i] == 0.0
  {
    var xs := ScenarioScores(rows, rows[i].scenario);
    var k := WinRateEntry(rows, i);
    ScenarioScoresMembers(rows, rows[i].scenario);
    CountBelowMinimum(xs, rows[i].score);
  }

  // ---------------------------------------------------------------------
  // groupby(["model"]).agg({"wr": "mean"}) under the scenario "MWR"

  const MeanWinRateScenario: string := "MWR"

  /** The models of the rows, each once, in order of first appearance. */
  function UniqueModels(rows: seq<Record>): (ms: seq<string>)
    ensures forall m :: m in ms <==> HasModel(rows, m)
    ensures forall a, b :: 0 <= a < b < |ms| ==> ms[a] != ms[b]
  {
    if rows == [] then []
    else
      var prefix := rows[..|rows| - 1];
      var last := rows[|rows| - 1];
      var before := UniqueModels(prefix);
      assert rows == prefix + [last];
      assert forall m :: HasModel(rows, m) <==> HasModel(prefix, m) || last.model == m by {
        forall m {
          HasModelSnoc(prefix, last, m);
        }
      }
      if last.model in before then before else before + [last.model]
  }

  /** The positions below `n` of the rows about model `m`. */
  ghost function RowsOf(rows: seq<Record>, m: string, n: nat): set<int>
    requires n <= |rows|
  {
    set i | 0 <= i < n && rows[i].model == m
  }

  /** One more row adds its position exactly when it is about `m`. */
  lemma RowsOfStep(rows: seq<Record>, m: string, n: nat)
    requires 0 < n <= |rows|
    ensures |RowsOf(rows, m, n)| == |RowsOf(rows, m, n - 1)| + (if rows[n - 1].model == m then 1 else 0)
  {
    var below := RowsOf(rows, m, n - 1);
    var added: set<int> := if rows[n - 1].model == m then {n - 1} else {};
    forall i ensures i in RowsOf(rows, m, n) <==> i in below + added {
    }
    assert RowsOf(rows, m, n) == below + added;
    assert below * added == {};
  }

  /** The win rates of the first `n` rows that are about model `m`, in row
      order. */
  function ModelWinRatesBelow(rows: seq<Record>, wr: seq<real>, m: string, n: nat): seq<real>
    requires |wr| == |rows| && n <= |rows|
  {
    if n == 0 then []
    else ModelWinRatesBelow(rows, wr, m, n - 1) + (if rows[n - 1].model == m then [wr[n - 1]] else [])
  }

  /** Every entry is the win rate of one of the first `n` rows about `m`, and
      every such row contributes. */
  lemma {:induction false} ModelWinRatesBelowMembers(rows: seq<Record>, wr: seq<real>, m: string, n: nat)
    requires |wr| == |rows| && n <= |rows|
    ensures forall k :: 0 <= k < |ModelWinRatesBelow(rows, wr, m, n)| ==>
              exists i :: 0 <= i < n && rows[i].model == m && ModelWinRatesBelow(rows, wr, m, n)[k] == wr[i]
    ensures forall i :: 0 <= i < n && rows[i].model == m ==> wr[i] in ModelWinRatesBelow(rows, wr, m, n)
  {
    if n > 0 {
      ModelWinRatesBelowMembers(rows, wr, m, n - 1);
      var before := ModelWinRatesBelow(rows, wr, m, n - 1);
      var xs := ModelWinRatesBelow(rows, wr, m, n);
      assert xs == before + (if rows[n - 1].model == m then [wr[n - 1]] else []);
      forall k | 0 <= k < |xs|
        ensures exists i :: 0 <= i < n && rows[i].model == m && xs[k] == wr[i]
      {
        if k < |before| {
          assert before[k] == ModelWinRatesBelow(rows, wr, m, n - 1)[k];
          var i :| 0 <= i < n - 1 && rows[i].model == m && before[k] == wr[i];
          assert xs[k] == before[k];
        } else {
          assert rows[n - 1].model == m && xs[k] == wr[n - 1];
        }
      }
    } else {
      assert ModelWinRatesBelow(rows, wr, m, n) == [];
    }
  }

  /** The win rates of the rows about model `m`, in row order: every entry is
      the win rate of a row of `m`, and every row of `m` contributes. */
  function ModelWinRates(rows: seq<Record>, wr: seq<real>, m: string): (xs: seq<real>)
    requires |wr| == |rows|
    ensures |xs| > 0 <==> HasModel(rows, m)
    ensures forall k :: 0 <= k < |xs| ==>
              exists i :: 0 <= i < |rows| && rows[i].model == m && xs[k] == wr[i]
    ensures forall i :: 0 <= i < |rows| && rows[i].model == m ==> wr[i] in xs
  {
    var xs := ModelWinRatesBelow(rows, wr, m, |rows|);
    ModelWinRatesBelowMembers(rows, wr, m, |rows|);
    assert HasModel(rows, m) ==> |xs| > 0 by {
      if HasModel(rows, m) {
        var i :| 0 <= i < |rows| && rows[i].model == m;
        assert wr[i] in xs;
      }
    }
    assert |xs| > 0 ==> HasModel(rows, m) by {
      if |xs| > 0 {
        var i :| 0 <= i < |rows| && rows[i].model == m && xs[0] == wr[i];
      }
    }
    xs
  }

  /** There is one win rate per row of the model among the first `n`. */
  lemma {:induction false} ModelWinRatesBelowCount(rows: seq<Record>, wr: seq<real>, m: string, n: nat)
    requires |wr| == |rows| && n <= |rows|
    ensures |ModelWinRatesBelow(rows, wr, m, n)| == |RowsOf(rows, m, n)|
  {
    if n > 0 {
      ModelWinRatesBelowCount(rows, wr, m, n - 1);
      RowsOfStep(rows, m, n);
    }
  }

  /** There is one win rate per row of the model. */
  lemma ModelWinRatesCount(rows: seq<Record>, wr: seq<real>, m: string)
    requires |wr| == |rows|
    ensures |ModelWinRates(rows, wr, m)| == |RowsOf(rows, m, |rows|)|
  {
    ModelWinRatesBelowCount(rows, wr, m, |rows|);
  }

  /** The positions below `n` of the rows about model `m` whose win rate is `v`. */
  ghost function RowsWithRate(rows: seq<Record>, wr: seq<real>, m: string, v: real, n: nat): set<int>
    requires |wr| == |rows| && n <= |rows|
  {
    set i | 0 <= i < n && rows[i].model == m && wr[i] == v
  }

  /** One more row adds its position exactly when it is about `m` with win rate `v`. */
  lemma RowsWithRateStep(rows: seq<Record>, wr: seq<real>, m: string, v: real, n: nat)
    requires |wr| == |rows| && 0 < n <= |rows|
    ensures |RowsWithRate(rows, wr, m, v, n)| ==
            |RowsWithRate(rows, wr, m, v, n - 1)| + (if rows[n - 1].model == m && wr[n - 1] == v then 1 else 0)
  {
    var below := RowsWithRate(rows, wr, m, v, n - 1);
    var added: set<int> := if rows[n - 1].model == m && wr[n - 1] == v then {n - 1} else {};
    forall i ensures i in RowsWithRate(rows, wr, m, v, n) <==> i in below + added {
    }
    assert RowsWithRate(rows, wr, m, v, n) == below + added;
    assert below * added == {};
  }

  lemma MultiplicityConcat(xs: seq<real>, ys: seq<real>, v: real)
    ensures multiset(xs + ys)[v] == multiset(xs)[v] + multiset(ys)[v]
  {
    assert multiset(xs + ys) == multiset(xs) + multiset(ys);
  }

  /** Each value occurs among the first `n` rows' win rates of `m` as often as
      there are such rows carrying it. */
  lemma {:induction false} ModelWinRatesBelowMultiplicity(rows: seq<Record>, wr: seq<real>, m: string, v: real, n: nat)
    requires |wr| == |rows| && n <= |rows|
    ensures multiset(ModelWinRatesBelow(rows, wr, m, n))[v] == |RowsWithRate(rows, wr, m, v, n)|
  {
    if n == 0 {
      assert ModelWinRatesBelow(rows, wr, m, n) == [];
      assert RowsWithRate(rows, wr, m, v, n) == {};
    } else {
      var before := ModelWinRatesBelow(rows, wr, m, n - 1);
      ModelWinRatesBelowMultiplicity(rows, wr, m, v, n - 1);
      RowsWithRateStep(rows, wr, m, v, n);
      var here := if rows[n - 1].model == m then [wr[n - 1]] else [];
      assert ModelWinRatesBelow(rows, wr, m, n) == before + here;
      MultiplicityConcat(before, here, v);
    }
  }

  /** The win rates of `m` hold each value exactly as often as `m`'s rows
      carry it, so they are the rows' win rates as a multiset and their mean
      is the rows' mean. */
  lemma ModelWinRatesMultiplicity(rows: seq<Record>, wr: seq<real>, m: string, v: real)
    requires |wr| == |rows|
    ensures multiset(ModelWinRates(rows, wr, m))[v] == |RowsWithRate(rows, wr, m, v, |rows|)|
  {
    ModelWinRatesBelowMultiplicity(rows, wr, m, v, |rows|);
  }

  /** The "MWR" rows: one per model, holding the mean of its win rates. */
  function MeanWinRates(rows: seq<Record>, wr: seq<real>): (out: seq<Record>)
    requires |wr| == |rows|
    ensures |out| == |UniqueModels(rows)|
  {
    var ms := UniqueModels(rows);
    assert forall k :: 0 <= k < |ms| ==> HasModel(rows, ms[k]) by {
      forall k | 0 <= k < |ms| ensures HasModel(rows, ms[k]) {
        assert ms[k] in ms;
      }
    }
    seq(|ms|, k requires 0 <= k < |ms| => Record(ms[k], MeanWinRateScenario, Mean(ModelWinRates(rows, wr, ms[k]))))
  }

  /** There is exactly one "MWR" row per model of the table and none for any
      other model. */
  lemma MeanWinRatesModels(rows: seq<Record>, wr: seq<real>)
    requires |wr| == |rows|
    ensures DistinctKeys(MeanWinRates(rows, wr))
    ensures forall k :: 0 <= k < |MeanWinRates(rows, wr)| ==>
              MeanWinRates(rows, wr)[k].scenario == MeanWinRateScenario
    ensures forall m :: HasModel(MeanWinRates(rows, wr), m) <==> HasModel(rows, m)
  {
    var ms := UniqueModels(rows);
    var out := MeanWinRates(rows, wr);
    forall m
      ensures HasModel(out, m) <==> HasModel(rows, m)
    {
      if m in ms {
        var k :| 0 <= k < |ms| && ms[k] == m;
        assert out[k].model == m;
      }
      if HasModel(out, m) {
        var k :| 0 <= k < |out| && out[k].model == m;
        assert ms[k] in ms;
      }
    }
  }

  /** The "MWR" row of a model of the table holds the mean of exactly the win
      rates of that model's rows. */
  lemma MeanWinRateOfModel(rows: seq<Record>, wr: seq<real>, m: string)
    requires |wr| == |rows|
    requires HasModel(rows, m)
    ensures exists k :: 0 <= k < |MeanWinRates(rows, wr)| &&
              MeanWinRates(rows, wr)[k] == Record(m, MeanWinRateScenario, Mean(ModelWinRates(rows, wr, m)))
  {
    var ms := UniqueModels(rows);
    var out := MeanWinRates(rows, wr);
    assert m in ms;
    var k :| 0 <= k < |ms| && ms[k] == m;
    assert out[k] == Record(m, MeanWinRateScenario, Mean(ModelWinRates(rows, wr, m)));
  }

  /** With win rates in `[0, 1]`, every mean win rate lies in `[0, 1]`. */
  lemma MeanWinRatesBounds(rows: seq<Record>, wr: seq<real>)
    requires |wr| == |rows|
    requires forall i :: 0 <= i < |wr| ==> 0.0 <= wr[i] <= 1.0
    ensures forall k :: 0 <= k < |MeanWinRates(rows, wr)| ==> 0.0 <= MeanWinRates(rows, wr)[k].score <= 1.0
  {
    var ms := UniqueModels(rows);
    var out := MeanWinRates(rows, wr);
    forall k | 0 <= k < |out|
      ensures 0.0 <= out[k].score <= 1.0
    {
      var xs := ModelWinRates(rows, wr, ms[k]);
      MeanBounds(xs, 0.0, 1.0);
    }
  }
}
