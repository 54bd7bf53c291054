/**
 * The label-assignment policy shared by both classification scripts: every category
 * whose probability reaches the threshold, and the first index of the largest
 * probability for the fallback.
 */
module Labeling {

  /**
   * THRESHOLD = 0.3, as the double the literal stands for. A double probability p
   * satisfies p >= 0.3 in Python exactly when its value is at least this real.
   */
  const Threshold: real := 0.299999999999999988897769753748434595763683319091796875

  /** The indices i with row[i] >= Threshold, in increasing order. */
  function PassingIndices(row: seq<real>): (ix: seq<nat>)
    ensures forall k :: 0 <= k < |ix| ==> ix[k] < |row|
    ensures forall i: nat :: i in ix <==> i < |row| && row[i] >= Threshold
    ensures forall j, k :: 0 <= j < k < |ix| ==> ix[j] < ix[k]
  {
    if row == [] then []
    else
      var init := PassingIndices(row[..|row| - 1]);
      assert forall i :: 0 <= i < |row| - 1 ==> row[..|row| - 1][i] == row[i];
      if row[|row| - 1] >= Threshold then init + [|row| - 1] else init
  }

  /** `[categories[i] for i, prob in enumerate(prob_vector) if prob >= THRESHOLD]`. */
  function Selected(cats: seq<string>, row: seq<real>): (r: seq<string>)
    requires |row| == |cats|
  {
    var ix := PassingIndices(row);
    seq(|ix|, k requires 0 <= k < |ix| => cats[ix[k]])
  }

  /**
   * The selection is exactly the categories at or above the threshold, in category
   * order: position k holds the category of the k-th passing index, and it is empty
   * exactly when no probability reaches the threshold.
   */
  lemma SelectedIsThreshold(cats: seq<string>, row: seq<real>)
    requires |row| == |cats|
    ensures var r, ix := Selected(cats, row), PassingIndices(row);
      && |r| == |ix|
      && (forall k :: 0 <= k < |r| ==> r[k] == cats[ix[k]] && row[ix[k]] >= Threshold)
      && (forall i :: 0 <= i < |row| && row[i] >= Threshold ==> cats[i] in r)
      && (r == [] <==> forall i :: 0 <= i < |row| ==> row[i] < Threshold)
  {
    var r, ix := Selected(cats, row), PassingIndices(row);
    forall i | 0 <= i < |row| && row[i] >= Threshold
      ensures cats[i] in r
    {
      assert i in ix;
      var k :| 0 <= k < |ix| && ix[k] == i;
      assert r[k] == cats[i];
    }
    if r != [] {
      assert ix[0] in ix;
    }
  }

  /** np.argmax: the first index of the largest value. */
  function ArgMax(row: seq<real>): (i: nat)
    requires row != []
    ensures i < |row|
    ensures forall j :: 0 <= j < |row| ==> row[j] <= row[i]
    ensures forall j :: 0 <= j < i ==> row[j] < row[i]
  {
    if |row| == 1 then 0
    else
      var init := row[..|row| - 1];
      var m := ArgMax(init);
      assert forall j :: 0 <= j < |init| ==> init[j] == row[j];
      if row[|row| - 1] > row[m] then |row| - 1 else m
  }
}
