/**
 * The per-category tally the pipeline computes in four places: a dictionary that
 * starts empty and, for every label of every list, goes up by one under that label.
 */
module Tally {

  /** How many times c occurs in xs. */
  function Count(xs: seq<string>, c: string): nat {
    if xs == [] then 0 else Count(xs[..|xs| - 1], c) + (if xs[|xs| - 1] == c then 1 else 0)
  }

  /** How many times c occurs over all the lists. */
  function Occurrences(lists: seq<seq<string>>, c: string): nat {
    if lists == [] then 0 else Occurrences(lists[..|lists| - 1], c) + Count(lists[|lists| - 1], c)
  }

  /** The total number of labels over all the lists. */
  function Labels(lists: seq<seq<string>>): nat {
    if lists == [] then 0 else Labels(lists[..|lists| - 1]) + |lists[|lists| - 1]|
  }

  /** A tally that holds exactly the labels that occur, each with its number of occurrences. */
  ghost predicate IsTally(counts: map<string, nat>, lists: seq<seq<string>>) {
    forall c :: (c in counts <==> Occurrences(lists, c) > 0) && (c in counts ==> counts[c] == Occurrences(lists, c))
  }

  lemma {:induction false} CountPositive(xs: seq<string>, c: string)
    ensures Count(xs, c) > 0 <==> c in xs
  {
    if xs != [] {
      var init := xs[..|xs| - 1];
      CountPositive(init, c);
      assert xs == init + [xs[|xs| - 1]];
    }
  }

  /** A label is in the tally exactly when some list holds it. */
  lemma {:induction false} OccurrencesPositive(lists: seq<seq<string>>, c: string)
    ensures Occurrences(lists, c) > 0 <==> exists i :: 0 <= i < |lists| && c in lists[i]
  {
    if lists != [] {
      var init := lists[..|lists| - 1];
      OccurrencesPositive(init, c);
      CountPositive(lists[|lists| - 1], c);
      assert forall i :: 0 <= i < |init| ==> init[i] == lists[i];
      if exists i :: 0 <= i < |lists| && c in lists[i] {
        var i :| 0 <= i < |lists| && c in lists[i];
        if i < |init| {
          assert c in init[i];
        }
      }
    }
  }

  // ---------------------------------------------------------------- sum of a tally

  /** The sum of f over keys. */
  ghost function SumOver(keys: set<string>, f: map<string, nat>): nat
    requires keys <= f.Keys
  {
    if keys == {} then 0
    else
      var k :| k in keys;
      f[k] + SumOver(keys - {k}, f)
  }

  /** The sum of the values of a tally. */
  ghost function Total(counts: map<string, nat>): nat {
    SumOver(counts.Keys, counts)
  }

  /** Any key can be taken out of the sum first. */
  lemma {:induction false} SumOverRemove(keys: set<string>, f: map<string, nat>, k: string)
    requires keys <= f.Keys && k in keys
    ensures SumOver(keys, f) == f[k] + SumOver(keys - {k}, f)
    decreases |keys|
  {
    var j :| j in keys && SumOver(keys, f) == f[j] + SumOver(keys - {j}, f);
    if j != k {
      SumOverRemove(keys - {j}, f, k);
      SumOverRemove(keys - {k}, f, j);
      assert keys - {j} - {k} == keys - {k} - {j};
    }
  }

  /** The sum only looks at the keys it sums over. */
  lemma {:induction false} SumOverAgree(keys: set<string>, f: map<string, nat>, g: map<string, nat>)
    requires keys <= f.Keys && keys <= g.Keys
    requires forall k :: k in keys ==> f[k] == g[k]
    ensures SumOver(keys, f) == SumOver(keys, g)
    decreases |keys|
  {
    if keys != {} {
      var k :| k in keys;
      SumOverRemove(keys, f, k);
      SumOverRemove(keys, g, k);
      SumOverAgree(keys - {k}, f, g);
    }
  }

  /** One more occurrence of c adds one to the sum of the tally. */
  lemma AddOneTotal(counts: map<string, nat>, c: string)
    ensures Total(AddOne(counts, c)) == Total(counts) + 1
  {
    var next := AddOne(counts, c);
    SumOverRemove(next.Keys, next, c);
    if c in counts {
      SumOverRemove(counts.Keys, counts, c);
      assert next.Keys - {c} == counts.Keys - {c};
      SumOverAgree(counts.Keys - {c}, next, counts);
    } else {
      assert next.Keys - {c} == counts.Keys;
      SumOverAgree(counts.Keys, next, counts);
    }
  }

  // ---------------------------------------------------------------- the loop

  /** `counts[c] = counts.get(c, 0) + 1`. */
  function AddOne(counts: map<string, nat>, c: string): map<string, nat> {
    counts[c := (if c in counts then counts[c] else 0) + 1]
  }

  lemma CountStep(xs: seq<string>, x: string, c: string)
    ensures Count(xs + [x], c) == Count(xs, c) + (if x == c then 1 else 0)
  {
    assert (xs + [x])[..|xs|] == xs;
  }

  /** The tally after the lists before i and the first j labels of list i. */
  ghost predicate PartialTally(counts: map<string, nat>, lists: seq<seq<string>>, i: nat, j: nat)
    requires i < |lists| && j <= |lists[i]|
  {
    forall c :: (c in counts <==> Occurrences(lists[..i], c) + Count(lists[i][..j], c) > 0)
             && (c in counts ==> counts[c] == Occurrences(lists[..i], c) + Count(lists[i][..j], c))
  }

  lemma PartialStart(counts: map<string, nat>, lists: seq<seq<string>>, i: nat)
    requires i < |lists| && IsTally(counts, lists[..i])
    ensures PartialTally(counts, lists, i, 0)
  {
    assert lists[i][..0] == [];
  }

  lemma PartialStep(counts: map<string, nat>, lists: seq<seq<string>>, i: nat, j: nat)
    requires i < |lists| && j < |lists[i]| && PartialTally(counts, lists, i, j)
    ensures PartialTally(AddOne(counts, lists[i][j]), lists, i, j + 1)
  {
    var xs := lists[i];
    assert xs[..j] + [xs[j]] == xs[..j + 1];
    forall c
      ensures Count(xs[..j + 1], c) == Count(xs[..j], c) + (if xs[j] == c then 1 else 0)
    {
      CountStep(xs[..j], xs[j], c);
    }
  }

  lemma PartialEnd(counts: map<string, nat>, lists: seq<seq<string>>, i: nat)
    requires i < |lists| && PartialTally(counts, lists, i, |lists[i]|)
    ensures IsTally(counts, lists[..i + 1])
  {
    assert lists[i][..|lists[i]|] == lists[i];
    assert lists[..i + 1][..i] == lists[..i];
  }

  lemma LabelsStep(lists: seq<seq<string>>, i: nat)
    requires i < |lists|
    ensures Labels(lists[..i + 1]) == Labels(lists[..i]) + |lists[i]|
  {
    assert lists[..i + 1][..i] == lists[..i];
  }

  /**
   * The tally loop: for every list in order, for every label in it, one more under
   * that label. The result holds exactly the labels that occur, each with its number
   * of occurrences, and its counts add up to the number of labels.
   */
  method CountCategories(lists: seq<seq<string>>) returns (counts: map<string, nat>)
    ensures IsTally(counts, lists)
    ensures Total(counts) == Labels(lists)
  {
    counts := map[];
    for i := 0 to |lists|
      invariant IsTally(counts, lists[..i])
      invariant Total(counts) == Labels(lists[..i])
    {
      var xs := lists[i];
      PartialStart(counts, lists, i);
      for j := 0 to |xs|
        invariant PartialTally(counts, lists, i, j)
        invariant Total(counts) == Labels(lists[..i]) + j
      {
        AddOneTotal(counts, xs[j]);
        PartialStep(counts, lists, i, j);
        counts := AddOne(counts, xs[j]);
      }
      PartialEnd(counts, lists, i);
      LabelsStep(lists, i);
    }
    assert lists[..|lists|] == lists;
  }
}
