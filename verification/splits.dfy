/** Split slicing: a list is cut into consecutive slices of the requested
    sizes, using two running indices. */
module Splits {

  /** Sum of the counts. */
  function Sum(counts: seq<nat>): nat
  {
    if counts == [] then 0 else Sum(counts[..|counts| - 1]) + counts[|counts| - 1]
  }

  function Min(a: int, b: int): int
  {
    if a <= b then a else b
  }

  /** Python's `s[lo:hi]` for non-negative bounds: both bounds are clamped to
      the length, and a slice whose start is not before its end is empty. */
  function Slice<T>(s: seq<T>, lo: nat, hi: nat): (r: seq<T>)
    ensures lo <= hi <= |s| ==> r == s[lo..hi]
    ensures |s| <= lo || hi <= lo ==> r == []
    ensures lo <= |s| <= hi ==> r == s[lo..]
  {
    var a, b := Min(lo, |s|), Min(hi, |s|);
    if a <= b then s[a..b] else []
  }

  /** Concatenation of a list of lists. */
  function Flatten<T>(lists: seq<seq<T>>): seq<T>
  {
    if lists == [] then [] else Flatten(lists[..|lists| - 1]) + lists[|lists| - 1]
  }

  lemma SumStep(counts: seq<nat>, i: nat)
    requires i < |counts|
    ensures Sum(counts[..i + 1]) == Sum(counts[..i]) + counts[i]
  {
    assert counts[..i + 1][..i] == counts[..i];
  }

  /** Prefix sums never exceed the total. */
  lemma {:induction false} SumPrefix(counts: seq<nat>, i: nat)
    requires i <= |counts|
    ensures Sum(counts[..i]) <= Sum(counts)
    decreases |counts| - i
  {
    if i < |counts| {
      SumStep(counts, i);
      SumPrefix(counts, i + 1);
    } else {
      assert counts[..i] == counts;
    }
  }

  /** `split_sample_list(sample_list, *split_Ns)` with non-negative counts:
      list i is the slice from the sum of the counts before it to the sum of
      the counts up to and including it. */
  method SplitSampleList<T>(samples: seq<T>, counts: seq<nat>) returns (splitLists: seq<seq<T>>)
    ensures |splitLists| == |counts|
    ensures forall i :: 0 <= i < |counts| ==>
              splitLists[i] == Slice(samples, Sum(counts[..i]), Sum(counts[..i + 1]))
  {
    var idx0: nat, idx1: nat := 0, 0;
    splitLists := [];
    for i := 0 to |counts|
      invariant idx0 == idx1 == Sum(counts[..i])
      invariant |splitLists| == i
      invariant forall j :: 0 <= j < i ==>
                  splitLists[j] == Slice(samples, Sum(counts[..j]), Sum(counts[..j + 1]))
    {
      SumStep(counts, i);
      idx1 := idx1 + counts[i];
      splitLists := splitLists + [Slice(samples, idx0, idx1)];
      idx0 := idx0 + counts[i];
    }
  }

  /** When the counts add up to the length of the list, list i has exactly
      `counts[i]` elements and the lists concatenate back to the input. */
  lemma {:induction false} SlicesPartition<T>(samples: seq<T>, counts: seq<nat>, lists: seq<seq<T>>)
    requires Sum(counts) == |samples|
    requires |lists| == |counts|
    requires forall i :: 0 <= i < |counts| ==>
               lists[i] == Slice(samples, Sum(counts[..i]), Sum(counts[..i + 1]))
    ensures forall i :: 0 <= i < |counts| ==> |lists[i]| == counts[i]
    ensures Flatten(lists) == samples
  {
    forall i | 0 <= i < |counts| ensures |lists[i]| == counts[i] {
      SumStep(counts, i);
      SumPrefix(counts, i + 1);
    }
    FlattenPrefix(samples, counts, lists, |counts|);
    assert lists[..|counts|] == lists;
    assert counts[..|counts|] == counts;
  }

  lemma {:induction false} FlattenPrefix<T>(samples: seq<T>, counts: seq<nat>, lists: seq<seq<T>>, k: nat)
    requires Sum(counts) == |samples|
    requires |lists| == |counts| && k <= |counts|
    requires forall i :: 0 <= i < |counts| ==>
               lists[i] == Slice(samples, Sum(counts[..i]), Sum(counts[..i + 1]))
    ensures Sum(counts[..k]) <= |samples|
    ensures Flatten(lists[..k]) == samples[..Sum(counts[..k])]
  {
    SumPrefix(counts, k);
    if k > 0 {
      FlattenPrefix(samples, counts, lists, k - 1);
      SumStep(counts, k - 1);
      assert lists[..k][..k - 1] == lists[..k - 1];
      var lo, hi := Sum(counts[..k - 1]), Sum(counts[..k]);
      assert lists[k - 1] == samples[lo..hi];
      assert samples[..hi] == samples[..lo] + samples[lo..hi];
    }
  }

  lemma ThreeSums(a: nat, b: nat, c: nat)
    ensures Sum([a, b, c][..0]) == 0 && Sum([a, b, c][..1]) == a
    ensures Sum([a, b, c][..2]) == a + b && Sum([a, b, c][..3]) == a + b + c
  {
    var counts: seq<nat> := [a, b, c];
    SumStep(counts, 0);
    SumStep(counts, 1);
    SumStep(counts, 2);
    assert counts[..0] == [];
  }

  /** The three-way split of the converter: `train_N = tot_N - val_N - test_N`
      followed by `val_N` and `test_N`. The three lists are consecutive blocks
      of exactly those sizes that together are the whole input. */
  lemma ThreeWaySplit<T>(samples: seq<T>, valN: nat, testN: nat, lists: seq<seq<T>>)
    requires valN + testN <= |samples|
    requires |lists| == 3
    requires forall i :: 0 <= i < 3 ==>
               lists[i] == Slice(samples, Sum([|samples| - valN - testN, valN, testN][..i]),
                                 Sum([|samples| - valN - testN, valN, testN][..i + 1]))
    ensures lists[0] == samples[..|samples| - valN - testN]
    ensures lists[1] == samples[|samples| - valN - testN..|samples| - testN]
    ensures lists[2] == samples[|samples| - testN..]
    ensures lists[0] + lists[1] + lists[2] == samples
  {
    var a, b := |samples| - valN - testN, |samples| - testN;
    ThreeSums(a, valN, testN);
    assert lists[0] == samples[..a];
    assert lists[1] == samples[a..b];
    assert lists[2] == samples[b..];
    assert lists[0] + lists[1] + lists[2] == samples;
  }
}
