/** The long-form score record shared by every stage of the pipeline, and
    the arithmetic mean the pipeline takes of score lists. Scores are exact
    reals: no floating-point rounding is modelled. */
module Records {

  /** One row of the long-form table: `{"model", "scenario", "score"}`. */
  datatype Record = Record(model: string, scenario: string, score: real)

  /** Two rows share the `(model, scenario)` key. */
  predicate SameKey(a: Record, b: Record) {
    a.model == b.model && a.scenario == b.scenario
  }

  /** No two rows share a `(model, scenario)` key. */
  predicate DistinctKeys(rows: seq<Record>) {
    forall i, j :: 0 <= i < j < |rows| ==> !SameKey(rows[i], rows[j])
  }

  /** The key `(m, s)` occurs among `rows`. */
  predicate HasKey(rows: seq<Record>, m: string, s: string) {
    exists i :: 0 <= i < |rows| && rows[i].model == m && rows[i].scenario == s
  }

  /** Appending a row adds exactly its key. */
  lemma HasKeySnoc(rows: seq<Record>, x: Record, m: string, s: string)
    ensures HasKey(rows + [x], m, s) <==> HasKey(rows, m, s) || (x.model == m && x.scenario == s)
  {
    var all := rows + [x];
    if HasKey(rows, m, s) {
      var i :| 0 <= i < |rows| && rows[i].model == m && rows[i].scenario == s;
      assert all[i] == rows[i];
    }
    if x.model == m && x.scenario == s {
      assert all[|rows|] == x;
    }
    if HasKey(all, m, s) {
      var i :| 0 <= i < |all| && all[i].model == m && all[i].scenario == s;
      if i < |rows| {
        assert rows[i] == all[i];
      }
    }
  }

  /** Some row is about model `m`. */
  predicate HasModel(rows: seq<Record>, m: string) {
    exists i :: 0 <= i < |rows| && rows[i].model == m
  }

  lemma HasModelSnoc(rows: seq<Record>, x: Record, m: string)
    ensures HasModel(rows + [x], m) <==> HasModel(rows, m) || x.model == m
  {
    var all := rows + [x];
    if HasModel(rows, m) {
      var i :| 0 <= i < |rows| && rows[i].model == m;
      assert all[i] == rows[i];
    }
    assert all[|rows|] == x;
    if HasModel(all, m) {
      var i :| 0 <= i < |all| && all[i].model == m;
      if i < |rows| {
        assert rows[i] == all[i];
      }
    }
  }

  /** The models of two concatenated tables are the models of either. */
  lemma HasModelConcat(a: seq<Record>, b: seq<Record>, m: string)
    ensures HasModel(a + b, m) <==> HasModel(a, m) || HasModel(b, m)
  {
    var ab := a + b;
    if HasModel(a, m) {
      var i :| 0 <= i < |a| && a[i].model == m;
      assert ab[i] == a[i];
    }
    if HasModel(b, m) {
      var i :| 0 <= i < |b| && b[i].model == m;
      assert ab[|a| + i] == b[i];
    }
    if HasModel(ab, m) {
      var i :| 0 <= i < |ab| && ab[i].model == m;
      if i < |a| {
        assert a[i] == ab[i];
      } else {
        assert b[i - |a|] == ab[i];
      }
    }
  }

  /** Python's `sum(xs)`. */
  function Sum(xs: seq<real>): real {
    if xs == [] then 0.0 else Sum(xs[..|xs| - 1]) + xs[|xs| - 1]
  }

  /** `sum(xs) / len(xs)`, the mean pandas and the normaliser take. */
  function Mean(xs: seq<real>): real
    requires |xs| > 0
  {
    Sum(xs) / (|xs| as real)
  }

  /** Every element in `[lo, hi]` puts the sum in `[n * lo, n * hi]`. */
  lemma {:induction false} SumBounds(xs: seq<real>, lo: real, hi: real)
    requires forall i :: 0 <= i < |xs| ==> lo <= xs[i] <= hi
    ensures (|xs| as real) * lo <= Sum(xs) <= (|xs| as real) * hi
  {
    if xs != [] {
      SumBounds(xs[..|xs| - 1], lo, hi);
    }
  }

  /** The mean of values in `[lo, hi]` lies in `[lo, hi]`. */
  lemma MeanBounds(xs: seq<real>, lo: real, hi: real)
    requires |xs| > 0
    requires forall i :: 0 <= i < |xs| ==> lo <= xs[i] <= hi
    ensures lo <= Mean(xs) <= hi
  {
    SumBounds(xs, lo, hi);
    var n := |xs| as real;
    assert n * lo / n == lo && n * hi / n == hi;
  }
}
