/** The row labeller: `get_pos_of_max` turns a matrix of per-row scores
    into a same-shape matrix of zeros with a single 1 in each row, at the
    row's arg-max (the first maximum, as numpy's argmax breaks ties). */
module RowLabels {
  import opened Arrays

  /** `j` holds the row's maximum and no earlier index does. */
  predicate IsFirstMax(row: seq<real>, j: int) {
    0 <= j < |row|
    && (forall m :: 0 <= m < |row| ==> row[m] <= row[j])
    && (forall m :: 0 <= m < j ==> row[m] < row[j])
  }

  /** numpy's argmax of a non-empty row. */
  function ArgMax(row: seq<real>): (k: nat)
    requires |row| > 0
    ensures IsFirstMax(row, k)
  {
    if |row| == 1 then 0
    else
      var k := ArgMax(row[..|row| - 1]);
      if row[|row| - 1] > row[k] then |row| - 1 else k
  }

  /** A row has at most one first maximum. */
  lemma FirstMaxUnique(row: seq<real>, j1: int, j2: int)
    requires IsFirstMax(row, j1) && IsFirstMax(row, j2)
    ensures j1 == j2
  {
    assert row[j1] <= row[j2] && row[j2] <= row[j1];
    assert !(j1 < j2) && !(j2 < j1);
  }

  /** Three sample rows: [1, 5, 2] peaks at 1,
      [9, 3, 3] at 0, and the tie in [3, 3, 1] goes to the first index. */
  lemma ArgMaxExamples()
    ensures ArgMax([1.0, 5.0, 2.0]) == 1
    ensures ArgMax([9.0, 3.0, 3.0]) == 0
    ensures ArgMax([3.0, 3.0, 1.0]) == 0
  {
    assert IsFirstMax([1.0, 5.0, 2.0], 1);
    assert IsFirstMax([9.0, 3.0, 3.0], 0);
    assert IsFirstMax([3.0, 3.0, 1.0], 0);
  }

  /** get_pos_of_max: a zero matrix of the input's shape with a 1 written
      at each row's arg-max. A row without entries has no arg-max. */
  method GetPosOfMax(pred: Array2) returns (r: Result<array2<real>>)
    requires pred.WellShaped()
    ensures r.Err? <==> |pred.rows| > 0 && pred.cols == 0
    ensures r.Err? ==> r.error == EmptyArgMax
    ensures r.Ok? ==> fresh(r.value)
    ensures r.Ok? ==> r.value.Length0 == |pred.rows| && r.value.Length1 == pred.cols
    ensures r.Ok? ==> forall i, j :: 0 <= i < r.value.Length0 && 0 <= j < r.value.Length1 ==>
                        r.value[i, j] == if IsFirstMax(pred.rows[i], j) then 1.0 else 0.0
  {
    var labels := new real[|pred.rows|, pred.cols]((i, j) => 0.0);
    for i := 0 to |pred.rows|
      invariant i > 0 ==> pred.cols > 0
      invariant forall w, j :: 0 <= w < i && 0 <= j < pred.cols ==>
                  labels[w, j] == if IsFirstMax(pred.rows[w], j) then 1.0 else 0.0
      invariant forall w, j :: i <= w < |pred.rows| && 0 <= j < pred.cols ==> labels[w, j] == 0.0
    {
      if pred.cols == 0 {
        return Err(EmptyArgMax);
      }
      var k := ArgMax(pred.rows[i]);
      labels[i, k] := 1.0;
    }
    return Ok(labels);
  }
}
