/** The duplicate resolver (evaluation/aggregation_utils.py): rows that share a
    `(model, scenario)` key must agree within 1%; if they do, the first
    occurrence of every key is kept, otherwise a ValueError is raised. */
module AggregationUtils {
  import opened Wrappers
  import opened Records
  import opened Sequences

  /** The tolerance test `abs(s - score) < s / 100`, where `s` is the score of
      the other row of the pair. */
  predicate Close(other: real, score: real) {
    (if other >= score then other - score else score - other) < other / 100.0
  }

  /** Visiting row `i`, the check rejects its duplicate partner row `j`. */
  predicate Conflicting(rows: seq<Record>, i: int, j: int)
    requires 0 <= i < |rows| && 0 <= j < |rows|
  {
    i != j && SameKey(rows[i], rows[j]) && !Close(rows[j].score, rows[i].score)
  }

  /** Some ordered pair of duplicate rows fails the tolerance test. */
  predicate HasConflict(rows: seq<Record>) {
    exists i, j :: 0 <= i < |rows| && 0 <= j < |rows| && Conflicting(rows, i, j)
  }

  /** `drop_duplicates(subset=["model", "scenario"], keep="first")`. */
  function DropDuplicates(rows: seq<Record>): seq<Record> {
    if rows == [] then []
    else
      var prefix := rows[..|rows| - 1];
      var last := rows[|rows| - 1];
      var kept := DropDuplicates(prefix);
      if HasKey(prefix, last.model, last.scenario) then kept else kept + [last]
  }

  /** Row `j` is the first row carrying its key. */
  predicate FirstOccurrence(rows: seq<Record>, j: int)
    requires 0 <= j < |rows|
  {
    forall i :: 0 <= i < j ==> !SameKey(rows[i], rows[j])
  }

  /** `handle_duplicates`. Every row is compared with every other row of its
      key group; a row whose key is unique has no partner, so visiting all rows
      behaves as visiting only the `duplicated(keep=False)` ones. The first
      rejected row names the ValueError. */
  method HandleDuplicates(rows: seq<Record>) returns (r: Result<seq<Record>>)
    ensures r.Err? <==> HasConflict(rows)
    ensures r.Err? ==>
              exists i, j :: 0 <= i < |rows| && 0 <= j < |rows| && Conflicting(rows, i, j) &&
                (forall i', j' :: 0 <= i' < i && 0 <= j' < |rows| ==> !Conflicting(rows, i', j')) &&
                r.error == Inconsistent(rows[i].model, rows[i].scenario, rows[i].score)
    ensures r.Ok? ==> r.value == DropDuplicates(rows)
  {
    if DistinctKeys(rows) {
      DistinctUnchanged(rows);
      return Ok(rows);
    }
    for i := 0 to |rows|
      invariant forall i', j :: 0 <= i' < i && 0 <= j < |rows| ==> !Conflicting(rows, i', j)
    {
      for j := 0 to |rows|
        invariant forall j' :: 0 <= j' < j ==> !Conflicting(rows, i, j')
      {
        if Conflicting(rows, i, j) {
          return Err(Inconsistent(rows[i].model, rows[i].scenario, rows[i].score));
        }
      }
    }
    return Ok(DropDuplicates(rows));
  }

  // ---------------------------------------------------------------------
  // Properties of the de-duplication

  /** Without a repeated key there is nothing to reject and nothing to drop:
      the input is returned unchanged. */
  lemma {:induction false} DistinctUnchanged(rows: seq<Record>)
    requires DistinctKeys(rows)
    ensures !HasConflict(rows)
    ensures DropDuplicates(rows) == rows
  {
    if rows != [] {
      var prefix := rows[..|rows| - 1];
      DistinctUnchanged(prefix);
      assert rows == prefix + [rows[|rows| - 1]];
    }
  }

  /** De-duplication keeps every key and invents none. */
  lemma {:induction false} DropDuplicatesKeys(rows: seq<Record>, m: string, s: string)
    ensures HasKey(DropDuplicates(rows), m, s) <==> HasKey(rows, m, s)
  {
    if rows != [] {
      var prefix := rows[..|rows| - 1];
      var last := rows[|rows| - 1];
      DropDuplicatesKeys(prefix, m, s);
      assert rows == prefix + [last];
      HasKeySnoc(prefix, last, m, s);
      if !HasKey(prefix, last.model, last.scenario) {
        HasKeySnoc(DropDuplicates(prefix), last, m, s);
      }
    }
  }

  /** The output has pairwise-distinct keys. */
  lemma {:induction false} DropDuplicatesDistinct(rows: seq<Record>)
    ensures DistinctKeys(DropDuplicates(rows))
  {
    if rows != [] {
      var prefix := rows[..|rows| - 1];
      var last := rows[|rows| - 1];
      DropDuplicatesDistinct(prefix);
      DropDuplicatesKeys(prefix, last.model, last.scenario);
      var kept := DropDuplicates(prefix);
      if !HasKey(prefix, last.model, last.scenario) {
        var out := kept + [last];
        forall i, j | 0 <= i < j < |out| ensures !SameKey(out[i], out[j]) {
          if j == |kept| {
            assert out[i] == kept[i];
          }
        }
      }
    }
  }

  /** The output is the input with rows removed, the rest in their order. */
  lemma {:induction false} DropDuplicatesSubsequence(rows: seq<Record>)
    ensures IsSubsequence(DropDuplicates(rows), rows)
  {
    if rows != [] {
      var prefix := rows[..|rows| - 1];
      var last := rows[|rows| - 1];
      DropDuplicatesSubsequence(prefix);
      var kept := DropDuplicates(prefix);
      assert prefix + [last] == rows;
      if HasKey(prefix, last.model, last.scenario) {
        SubsequenceExtend(kept, prefix, last);
      } else {
        var out := kept + [last];
        assert out[..|out| - 1] == kept;
      }
    }
  }

  /** Row `x` is the first occurrence of its key somewhere in `rows`. */
  predicate IsFirstOf(rows: seq<Record>, x: Record) {
    exists j :: 0 <= j < |rows| && FirstOccurrence(rows, j) && rows[j] == x
  }

  /** Appending a row keeps earlier first occurrences and adds the new row
      exactly when its key is new. */
  lemma IsFirstOfSnoc(prefix: seq<Record>, last: Record, x: Record)
    ensures IsFirstOf(prefix + [last], x) <==>
              IsFirstOf(prefix, x) || (x == last && !HasKey(prefix, last.model, last.scenario))
  {
    var rows := prefix + [last];
    var n := |prefix|;
    forall j | 0 <= j < n ensures FirstOccurrence(rows, j) == FirstOccurrence(prefix, j) {
      assert forall i :: 0 <= i <= j ==> rows[i] == prefix[i];
    }
    if HasKey(prefix, last.model, last.scenario) {
      var i :| 0 <= i < n && prefix[i].model == last.model && prefix[i].scenario == last.scenario;
      assert rows[i] == prefix[i];
      assert !FirstOccurrence(rows, n);
    } else {
      assert FirstOccurrence(rows, n);
    }
    if IsFirstOf(rows, x) {
      var j :| 0 <= j < |rows| && FirstOccurrence(rows, j) && rows[j] == x;
      if j < n {
        assert FirstOccurrence(prefix, j) && prefix[j] == x;
      }
    }
    if IsFirstOf(prefix, x) {
      var j :| 0 <= j < n && FirstOccurrence(prefix, j) && prefix[j] == x;
      assert FirstOccurrence(rows, j) && rows[j] == x;
    }
  }

  /** The rows kept are exactly the first occurrences of their keys. */
  lemma {:induction false} DropDuplicatesFirstOccurrences(rows: seq<Record>, x: Record)
    ensures x in DropDuplicates(rows) <==> IsFirstOf(rows, x)
  {
    if rows != [] {
      var prefix := rows[..|rows| - 1];
      var last := rows[|rows| - 1];
      DropDuplicatesFirstOccurrences(prefix, x);
      assert rows == prefix + [last];
      IsFirstOfSnoc(prefix, last, x);
    }
  }

  /** Idempotence: the output has no repeated key, so a second pass accepts
      it and returns it unchanged. */
  lemma HandleDuplicatesIdempotent(rows: seq<Record>)
    ensures !HasConflict(DropDuplicates(rows))
    ensures DropDuplicates(DropDuplicates(rows)) == DropDuplicates(rows)
  {
    DropDuplicatesDistinct(rows);
    DistinctUnchanged(DropDuplicates(rows));
  }

  /** For positive scores a duplicate pair is accepted exactly when the two
      scores differ by less than 1% of the smaller one. */
  lemma PairToleranceIsMinBased(a: real, b: real)
    requires a > 0.0 && b > 0.0
    ensures Close(a, b) && Close(b, a) <==>
              (if a >= b then a - b else b - a) < (if a <= b then a else b) / 100.0
  {
  }

  /** 100.0 against 100.99 is accepted; 100.0 against 101.01 is rejected. */
  lemma ToleranceBoundaryExamples()
    ensures !HasConflict([Record("m", "s", 100.0), Record("m", "s", 100.99)])
    ensures HasConflict([Record("m", "s", 100.0), Record("m", "s", 101.01)])
  {
    var bad := [Record("m", "s", 100.0), Record("m", "s", 101.01)];
    assert Conflicting(bad, 1, 0);
  }

  /** Because the test is strict, two duplicate rows that both score 0 are
      rejected. */
  lemma ZeroDuplicatesRejected(m: string, s: string)
    ensures HasConflict([Record(m, s, 0.0), Record(m, s, 0.0)])
  {
    assert Conflicting([Record(m, s, 0.0), Record(m, s, 0.0)], 0, 1);
  }

  // ---------------------------------------------------------------------
  // The check as written, on DataFrame index labels

  /** As written, the partners of a row are the duplicate rows whose DataFrame
      index LABEL differs (`duplicates.index != index`), not whose position
      differs. After `pd.concat` without `ignore_index` two rows can carry the
      same label. */
  predicate LabelConflicting(rows: seq<Record>, labels: seq<int>, i: int, j: int)
    requires |labels| == |rows|
    requires 0 <= i < |rows| && 0 <= j < |rows|
  {
    labels[i] != labels[j] && SameKey(rows[i], rows[j]) && !Close(rows[j].score, rows[i].score)
  }

  /** The first row, from position `i` on, that the labelled check rejects. */
  function FirstLabelConflict(rows: seq<Record>, labels: seq<int>, i: nat): (k: Option<nat>)
    requires |labels| == |rows|
    ensures k.Some? ==> i <= k.value < |rows|
    ensures k.Some? ==> exists j :: 0 <= j < |rows| && LabelConflicting(rows, labels, k.value, j)
    ensures k.Some? ==> forall i', j :: i <= i' < k.value && 0 <= j < |rows| ==>
              !LabelConflicting(rows, labels, i', j)
    ensures k.None? ==> forall i', j :: i <= i' < |rows| && 0 <= j < |rows| ==>
              !LabelConflicting(rows, labels, i', j)
    decreases |rows| - i
  {
    if i >= |rows| then None
    else if exists j :: 0 <= j < |rows| && LabelConflicting(rows, labels, i, j) then Some(i)
    else FirstLabelConflict(rows, labels, i + 1)
  }

  /** `handle_duplicates` as written, for a frame whose rows carry the index
      labels `labels`: it fails exactly when some row has a conflicting
      partner under another label, naming the first such row, and otherwise
      keeps the first occurrence of every key. */
  function HandleDuplicatesAsWritten(rows: seq<Record>, labels: seq<int>): (r: Result<seq<Record>>)
    requires |labels| == |rows|
    ensures r.Err? <==> exists i, j :: 0 <= i < |rows| && 0 <= j < |rows| && LabelConflicting(rows, labels, i, j)
    ensures r.Err? ==>
              exists i, j :: 0 <= i < |rows| && 0 <= j < |rows| && LabelConflicting(rows, labels, i, j) &&
                (forall i', j' :: 0 <= i' < i && 0 <= j' < |rows| ==> !LabelConflicting(rows, labels, i', j')) &&
                r.error == Inconsistent(rows[i].model, rows[i].scenario, rows[i].score)
    ensures r.Ok? ==> r.value == DropDuplicates(rows)
  {
    if DistinctKeys(rows) then
      assert forall i, j :: 0 <= i < |rows| && 0 <= j < |rows| ==> !LabelConflicting(rows, labels, i, j) by {
        forall i, j | 0 <= i < |rows| && 0 <= j < |rows| && i != j
          ensures !SameKey(rows[i], rows[j])
        {
        }
      }
      DistinctUnchanged(rows);
      Ok(rows)
    else match FirstLabelConflict(rows, labels, 0)
      case Some(i) => Err(Inconsistent(rows[i].model, rows[i].scenario, rows[i].score))
      case None => Ok(DropDuplicates(rows))
  }

  /** A harness row labelled 0 and a reference row labelled 0 (the first cell of
      the melted table) with the same key and scores 40 and 70: the check as
      written finds no partner for either row, accepts them and silently keeps
      40; the position-based check rejects the pair. */
  lemma ConcatLabelsHideConflict()
    ensures HandleDuplicatesAsWritten([Record("m", "MMLU", 40.0), Record("m", "MMLU", 70.0)], [0, 0])
            == Ok([Record("m", "MMLU", 40.0)])
    ensures HasConflict([Record("m", "MMLU", 40.0), Record("m", "MMLU", 70.0)])
  {
    var rows := [Record("m", "MMLU", 40.0), Record("m", "MMLU", 70.0)];
    assert !DistinctKeys(rows) by { assert SameKey(rows[0], rows[1]); }
    assert FirstLabelConflict(rows, [0, 0], 2) == None;
    assert FirstLabelConflict(rows, [0, 0], 1) == None;
    assert FirstLabelConflict(rows, [0, 0], 0) == None;
    assert rows[..1] == [rows[0]];
    var e: seq<Record> := [];
    assert rows[..1][..0] == e;
    assert DropDuplicates(rows[..1]) == [rows[0]];
    assert HasKey(rows[..1], "m", "MMLU");
    assert Conflicting(rows, 0, 1);
  }
}
