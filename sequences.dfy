/** Sequence vocabulary shared by the pipeline stages: filtering by a
    predicate, order-preserving subsequences described by their index lists,
    and concatenation of a list of slices. */
module Sequences {

  /** `idx` lists positions of a sequence of length `n`, strictly increasing. */
  ghost predicate IsIndexing(idx: seq<nat>, n: nat)
  {
    (forall k :: 0 <= k < |idx| ==> idx[k] < n) &&
    (forall j, k :: 0 <= j < k < |idx| ==> idx[j] < idx[k])
  }

  /** There are at most `n` strictly increasing positions below `n`. */
  lemma {:induction false} IndexingLength(idx: seq<nat>, n: nat)
    requires IsIndexing(idx, n)
    ensures |idx| <= n
  {
    if idx != [] {
      var last := idx[|idx| - 1];
      IndexingLength(idx[..|idx| - 1], last);
    }
  }

  /** The elements of `s` at the positions `idx`, in that order. */
  function Pick<T>(s: seq<T>, idx: seq<nat>): (r: seq<T>)
    requires forall k :: 0 <= k < |idx| ==> idx[k] < |s|
    ensures |r| == |idx|
    ensures forall k :: 0 <= k < |idx| ==> r[k] == s[idx[k]]
  {
    seq(|idx|, k requires 0 <= k < |idx| => s[idx[k]])
  }

  /** The list comprehension `[x for x in s if keep(x)]`. */
  function Filter<T>(s: seq<T>, keep: T -> bool): (r: seq<T>)
    ensures |r| <= |s|
    ensures forall k :: 0 <= k < |r| ==> keep(r[k])
  {
    if s == [] then []
    else Filter(s[..|s| - 1], keep) + (if keep(s[|s| - 1]) then [s[|s| - 1]] else [])
  }

  /** The positions `idx` describe `Filter(s, keep)`. */
  ghost predicate DescribesFilter<T>(s: seq<T>, keep: T -> bool, idx: seq<nat>)
  {
    IsIndexing(idx, |s|) &&
    Filter(s, keep) == Pick(s, idx) &&
    forall i :: 0 <= i < |s| ==> (i in idx <==> keep(s[i]))
  }

  /** Appending a position past every listed one keeps a list increasing. */
  lemma IndexingAppend(prev: seq<nat>, n: nat)
    requires IsIndexing(prev, n)
    ensures IsIndexing(prev, n + 1) && IsIndexing(prev + [n], n + 1)
  {
  }

  /** Positions below `|init|` pick the same elements after appending. */
  lemma PickAppend<T>(init: seq<T>, c: T, prev: seq<nat>)
    requires forall k :: 0 <= k < |prev| ==> prev[k] < |init|
    ensures Pick(init + [c], prev) == Pick(init, prev)
    ensures Pick(init + [c], prev + [|init|]) == Pick(init, prev) + [c]
  {
  }

  /** One more element: the filter's value grows by that element exactly when
      it is kept. */
  lemma FilterStepValue<T>(init: seq<T>, c: T, keep: T -> bool, prev: seq<nat>)
    requires forall k :: 0 <= k < |prev| ==> prev[k] < |init|
    requires Filter(init, keep) == Pick(init, prev)
    ensures Filter(init + [c], keep) == Pick(init + [c], if keep(c) then prev + [|init|] else prev)
  {
    var s := init + [c];
    assert s[..|init|] == init && s[|s| - 1] == c;
    PickAppend(init, c, prev);
  }

  /** One more element: the kept positions are the old ones, plus the new
      position exactly when it is kept. */
  lemma FilterStepMembers<T>(init: seq<T>, c: T, keep: T -> bool, prev: seq<nat>)
    requires forall k :: 0 <= k < |prev| ==> prev[k] < |init|
    requires forall i :: 0 <= i < |init| ==> (i in prev <==> keep(init[i]))
    ensures forall i :: 0 <= i < |init| + 1 ==>
      (i in (if keep(c) then prev + [|init|] else prev) <==> keep((init + [c])[i]))
  {
    var idx := if keep(c) then prev + [|init|] else prev;
    forall i | 0 <= i < |init| + 1
      ensures i in idx <==> keep((init + [c])[i])
    {
      if i < |init| {
        assert (init + [c])[i] == init[i];
        assert i in idx <==> i in prev;
      } else {
        assert |init| !in prev;
      }
    }
  }

  /** One more element: its position is added exactly when it is kept. */
  lemma FilterStep<T>(init: seq<T>, c: T, keep: T -> bool, prev: seq<nat>) returns (idx: seq<nat>)
    requires DescribesFilter(init, keep, prev)
    ensures DescribesFilter(init + [c], keep, idx)
  {
    idx := if keep(c) then prev + [|init|] else prev;
    IndexingAppend(prev, |init|);
    FilterStepValue(init, c, keep, prev);
    FilterStepMembers(init, c, keep, prev);
  }

  /** The filter keeps exactly the elements that satisfy `keep`, each at most
      once and in their original order: it is the subsequence of `s` at the
      positions whose element satisfies `keep`. */
  lemma {:induction false} FilterIsSubsequence<T>(s: seq<T>, keep: T -> bool) returns (idx: seq<nat>)
    ensures IsIndexing(idx, |s|)
    ensures Filter(s, keep) == Pick(s, idx)
    ensures forall i :: 0 <= i < |s| ==> (i in idx <==> keep(s[i]))
  {
    if s == [] {
      idx := [];
    } else {
      var init := s[..|s| - 1];
      assert s == init + [s[|s| - 1]];
      var prev := FilterIsSubsequence(init, keep);
      idx := FilterStep(init, s[|s| - 1], keep, prev);
    }
  }

  /** The slices laid end to end. */
  function Concat<T>(parts: seq<seq<T>>): (r: seq<T>)
  {
    if parts == [] then [] else Concat(parts[..|parts| - 1]) + parts[|parts| - 1]
  }

  /** The first `j` parts concatenate to the first `j - 1` parts followed by
      part `j - 1`. */
  lemma ConcatSnoc<T>(parts: seq<seq<T>>, j: nat)
    requires 0 < j <= |parts|
    ensures Concat(parts[..j]) == Concat(parts[..j - 1]) + parts[j - 1]
  {
    assert parts[..j][..j - 1] == parts[..j - 1];
  }
}
