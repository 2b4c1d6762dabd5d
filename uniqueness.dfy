/** The greedy uniqueness filter of `split_and_filter`: candidates are
    scanned in order and one is accepted only when it is not similar to any
    candidate accepted before it. Similarity is an arbitrary two-argument
    predicate, always asked as `similar(candidate, accepted)`. */
module Uniqueness {
  import opened Sequences

  /** `any(similar(c, u) for u in accepted)`. */
  predicate AnySimilar<P>(c: P, accepted: seq<P>, similar: (P, P) -> bool)
  {
    exists j :: 0 <= j < |accepted| && similar(c, accepted[j])
  }

  /** The accepted list after scanning `candidates`. */
  function Greedy<P>(candidates: seq<P>, similar: (P, P) -> bool): (r: seq<P>)
    ensures |r| <= |candidates|
  {
    if candidates == [] then []
    else
      var accepted := Greedy(candidates[..|candidates| - 1], similar);
      var c := candidates[|candidates| - 1];
      if AnySimilar(c, accepted, similar) then accepted else accepted + [c]
  }

  /** Short-circuiting `any`: asks `similar(c, u)` for the accepted `u` in
      insertion order and stops at the first match. */
  method AnyMatch<P>(c: P, accepted: seq<P>, similar: (P, P) -> bool) returns (found: bool)
    ensures found <==> AnySimilar(c, accepted, similar)
  {
    found := false;
    var j := 0;
    while j < |accepted| && !found
      invariant 0 <= j <= |accepted|
      invariant found ==> 0 < j && similar(c, accepted[j - 1])
      invariant !found ==> forall k :: 0 <= k < j ==> !similar(c, accepted[k])
    {
      found := similar(c, accepted[j]);
      j := j + 1;
    }
  }

  /** The loop of `split_and_filter` that builds `unique_chunks`. */
  method UniqueChunks<P>(candidates: seq<P>, similar: (P, P) -> bool) returns (unique: seq<P>)
    ensures unique == Greedy(candidates, similar)
  {
    unique := [];
    for i := 0 to |candidates|
      invariant unique == Greedy(candidates[..i], similar)
    {
      var cp := candidates[i];
      var matched := AnyMatch(cp, unique, similar);
      assert candidates[..i + 1][..i] == candidates[..i];
      if !matched {
        unique := unique + [cp];
      }
    }
    assert candidates[..|candidates|] == candidates;
  }

  /** Candidate `i` is similar to a candidate kept (at a position in `idx`)
      before it. */
  ghost predicate MatchedBefore<P>(candidates: seq<P>, idx: seq<nat>, i: nat, similar: (P, P) -> bool)
    requires i < |candidates|
    requires forall k :: 0 <= k < |idx| ==> idx[k] < |candidates|
  {
    exists k :: 0 <= k < |idx| && idx[k] < i && similar(candidates[i], candidates[idx[k]])
  }

  /** Whether an earlier candidate was matched is not changed by a later
      candidate or a later kept position. */
  lemma MatchedBeforeExtend<P>(init: seq<P>, c: P, prev: seq<nat>, idx: seq<nat>, i: nat, similar: (P, P) -> bool)
    requires forall k :: 0 <= k < |prev| ==> prev[k] < |init|
    requires idx == prev || idx == prev + [|init|]
    requires i < |init|
    ensures MatchedBefore(init + [c], idx, i, similar) <==> MatchedBefore(init, prev, i, similar)
  {
    var s := init + [c];
    if MatchedBefore(s, idx, i, similar) {
      var k :| 0 <= k < |idx| && idx[k] < i && similar(s[i], s[idx[k]]);
      assert k < |prev| && s[idx[k]] == init[prev[k]];
    }
    if MatchedBefore(init, prev, i, similar) {
      var k :| 0 <= k < |prev| && prev[k] < i && similar(init[i], init[prev[k]]);
      assert idx[k] == prev[k] && s[idx[k]] == init[prev[k]];
    }
  }

  /** The positions `idx` describe the greedy result over `candidates`. */
  ghost predicate DescribesGreedy<P>(candidates: seq<P>, idx: seq<nat>, similar: (P, P) -> bool)
  {
    IsIndexing(idx, |candidates|) &&
    Greedy(candidates, similar) == Pick(candidates, idx) &&
    forall i :: 0 <= i < |candidates| ==> (i in idx <==> !MatchedBefore(candidates, idx, i, similar))
  }

  /** The new last candidate is matched by a kept candidate exactly when it
      is similar to one of the accepted ones. */
  lemma MatchedLast<P>(init: seq<P>, c: P, prev: seq<nat>, idx: seq<nat>, similar: (P, P) -> bool)
    requires forall k :: 0 <= k < |prev| ==> prev[k] < |init|
    requires idx == prev || idx == prev + [|init|]
    ensures MatchedBefore(init + [c], idx, |init|, similar) <==> AnySimilar(c, Pick(init, prev), similar)
  {
    var s := init + [c];
    var acc := Pick(init, prev);
    if AnySimilar(c, acc, similar) {
      var j :| 0 <= j < |acc| && similar(c, acc[j]);
      assert idx[j] == prev[j] && s[idx[j]] == acc[j];
    }
    if MatchedBefore(s, idx, |init|, similar) {
      var k :| 0 <= k < |idx| && idx[k] < |init| && similar(s[|init|], s[idx[k]]);
      assert k < |prev| && s[idx[k]] == acc[k];
    }
  }

  /** One more candidate: the greedy result grows by it exactly when it is
      not similar to an accepted one. */
  lemma GreedyStepValue<P>(init: seq<P>, c: P, prev: seq<nat>, similar: (P, P) -> bool)
    requires forall k :: 0 <= k < |prev| ==> prev[k] < |init|
    requires Greedy(init, similar) == Pick(init, prev)
    ensures Greedy(init + [c], similar) ==
      Pick(init + [c], if AnySimilar(c, Greedy(init, similar), similar) then prev else prev + [|init|])
  {
    var s := init + [c];
    assert s[..|init|] == init && s[|s| - 1] == c;
    PickAppend(init, c, prev);
  }

  /** One more candidate: earlier candidates keep their verdict, and the new
      one is kept exactly when no kept candidate before it matches it. */
  lemma GreedyStepMembers<P>(init: seq<P>, c: P, prev: seq<nat>, idx: seq<nat>, similar: (P, P) -> bool)
    requires forall k :: 0 <= k < |prev| ==> prev[k] < |init|
    requires forall i :: 0 <= i < |init| ==> (i in prev <==> !MatchedBefore(init, prev, i, similar))
    requires idx == if AnySimilar(c, Pick(init, prev), similar) then prev else prev + [|init|]
    ensures forall i :: 0 <= i < |init| + 1 ==> (i in idx <==> !MatchedBefore(init + [c], idx, i, similar))
  {
    MatchedLast(init, c, prev, idx, similar);
    forall i | 0 <= i < |init| + 1
      ensures i in idx <==> !MatchedBefore(init + [c], idx, i, similar)
    {
      if i < |init| {
        MatchedBeforeExtend(init, c, prev, idx, i, similar);
        assert i in idx <==> i in prev;
      } else {
        assert |init| !in prev;
      }
    }
  }

  /** One more candidate: its position is added exactly when it is accepted. */
  lemma GreedyStep<P>(init: seq<P>, c: P, prev: seq<nat>, similar: (P, P) -> bool) returns (idx: seq<nat>)
    requires DescribesGreedy(init, prev, similar)
    ensures DescribesGreedy(init + [c], idx, similar)
  {
    idx := if AnySimilar(c, Greedy(init, similar), similar) then prev else prev + [|init|];
    IndexingAppend(prev, |init|);
    GreedyStepValue(init, c, prev, similar);
    GreedyStepMembers(init, c, prev, idx, similar);
  }

  /** The greedy result, described by the positions it keeps: an
      order-preserving subsequence of the candidates in which a candidate is
      kept exactly when it is not similar to any candidate kept before it. */
  lemma {:induction false} GreedyIsSubsequence<P>(candidates: seq<P>, similar: (P, P) -> bool) returns (idx: seq<nat>)
    ensures IsIndexing(idx, |candidates|)
    ensures Greedy(candidates, similar) == Pick(candidates, idx)
    ensures forall i :: 0 <= i < |candidates| ==> (i in idx <==> !MatchedBefore(candidates, idx, i, similar))
  {
    if candidates == [] {
      idx := [];
    } else {
      var init := candidates[..|candidates| - 1];
      assert candidates == init + [candidates[|candidates| - 1]];
      var prev := GreedyIsSubsequence(init, similar);
      idx := GreedyStep(init, candidates[|candidates| - 1], prev, similar);
    }
  }

  /** A strictly increasing index list preserves and reflects order. */
  lemma IndexingOrder(idx: seq<nat>, n: nat, a: nat, b: nat)
    requires IsIndexing(idx, n) && a < |idx| && b < |idx|
    ensures a < b <==> idx[a] < idx[b]
  {
  }

  /** Composition of index lists: positions `g` into the subsequence of `s`
      at positions `f`. */
  function Compose(f: seq<nat>, g: seq<nat>): (h: seq<nat>)
    requires forall k :: 0 <= k < |g| ==> g[k] < |f|
    ensures |h| == |g|
  {
    seq(|g|, k requires 0 <= k < |g| => f[g[k]])
  }

  lemma ComposeIndexing<X>(s: seq<X>, f: seq<nat>, g: seq<nat>)
    requires IsIndexing(f, |s|) && IsIndexing(g, |f|)
    ensures IsIndexing(Compose(f, g), |s|)
    ensures Pick(Pick(s, f), g) == Pick(s, Compose(f, g))
  {
    var h := Compose(f, g);
    forall j, k | 0 <= j < k < |h| ensures h[j] < h[k] {
      IndexingOrder(f, |s|, g[j], g[k]);
    }
  }

  /** A position that the first list keeps is in the composed list exactly
      when the second list keeps its place in the first. */
  lemma ComposeMember(f: seq<nat>, g: seq<nat>, n: nat, i: nat, p: nat)
    requires IsIndexing(f, n) && IsIndexing(g, |f|)
    requires p < |f| && f[p] == i
    ensures i in Compose(f, g) <==> p in g
  {
    var h := Compose(f, g);
    if i in h {
      var k :| 0 <= k < |h| && h[k] == i;
      IndexingOrder(f, n, g[k], p);
      IndexingOrder(f, n, p, g[k]);
    }
    if p in g {
      var k :| 0 <= k < |g| && g[k] == p;
      assert h[k] == i;
    }
  }

  /** Being matched before, judged in the subsequence or in the whole
      sequence, agrees for a position that the first list keeps. */
  lemma ComposeMatched<X>(s: seq<X>, f: seq<nat>, g: seq<nat>, similar: (X, X) -> bool, i: nat, p: nat)
    requires IsIndexing(f, |s|) && IsIndexing(g, |f|)
    requires p < |f| && f[p] == i
    ensures MatchedBefore(Pick(s, f), g, p, similar) <==> MatchedBefore(s, Compose(f, g), i, similar)
  {
    var h := Compose(f, g);
    var t := Pick(s, f);
    forall k | 0 <= k < |g|
      ensures g[k] < p <==> h[k] < i
      ensures t[g[k]] == s[h[k]]
    {
      IndexingOrder(f, |s|, g[k], p);
    }
    assert t[p] == s[i];
  }

  /** Filtering and then running the greedy filter keeps, in order, exactly
      the positions whose element passes `keep` and is not similar to an
      element kept before it. */
  lemma FilteredGreedy<X>(s: seq<X>, keep: X -> bool, similar: (X, X) -> bool) returns (idx: seq<nat>)
    ensures IsIndexing(idx, |s|)
    ensures Greedy(Filter(s, keep), similar) == Pick(s, idx)
    ensures forall i :: 0 <= i < |s| ==> (i in idx <==> keep(s[i]) && !MatchedBefore(s, idx, i, similar))
  {
    var f := FilterIsSubsequence(s, keep);
    var g := GreedyIsSubsequence(Filter(s, keep), similar);
    ComposeIndexing(s, f, g);
    idx := Compose(f, g);
    forall i | 0 <= i < |s|
      ensures i in idx <==> keep(s[i]) && !MatchedBefore(s, idx, i, similar)
    {
      if keep(s[i]) {
        var p :| 0 <= p < |f| && f[p] == i;
        ComposeMember(f, g, |s|, i, p);
        ComposeMatched(s, f, g, similar, i, p);
      }
    }
  }

  /** The first candidate is always accepted, and stays first. */
  lemma {:induction false} GreedyKeepsFirst<P>(candidates: seq<P>, similar: (P, P) -> bool)
    requires candidates != []
    ensures Greedy(candidates, similar) != [] && Greedy(candidates, similar)[0] == candidates[0]
  {
    if |candidates| > 1 {
      var init := candidates[..|candidates| - 1];
      GreedyKeepsFirst(init, similar);
    }
  }

  /** No accepted candidate is similar to one accepted before it. */
  lemma {:induction false} GreedyPairwiseDissimilar<P>(candidates: seq<P>, similar: (P, P) -> bool)
    ensures forall j, k :: 0 <= j < k < |Greedy(candidates, similar)| ==>
      !similar(Greedy(candidates, similar)[k], Greedy(candidates, similar)[j])
  {
    if candidates != [] {
      var init := candidates[..|candidates| - 1];
      var c := candidates[|candidates| - 1];
      GreedyPairwiseDissimilar(init, similar);
      var prev := Greedy(init, similar);
      assert Greedy(candidates, similar) == if AnySimilar(c, prev, similar) then prev else prev + [c];
      if !AnySimilar(c, prev, similar) {
        var r := prev + [c];
        forall j, k | 0 <= j < k < |r|
          ensures !similar(r[k], r[j])
        {
          if k == |prev| {
            assert r[k] == c && r[j] == prev[j];
            assert !(0 <= j < |prev| && similar(c, prev[j]));
          } else {
            assert r[k] == prev[k] && r[j] == prev[j];
          }
        }
      }
    }
  }

  /** Every candidate is either accepted or similar to something accepted:
      each skipped candidate had a match among the accepted ones. */
  lemma {:induction false} GreedyCovers<P>(candidates: seq<P>, similar: (P, P) -> bool)
    ensures forall i :: 0 <= i < |candidates| ==>
      candidates[i] in Greedy(candidates, similar) || AnySimilar(candidates[i], Greedy(candidates, similar), similar)
  {
    if candidates != [] {
      var n := |candidates| - 1;
      var init := candidates[..n];
      GreedyCovers(init, similar);
      var prev := Greedy(init, similar);
      var r := Greedy(candidates, similar);
      assert forall u :: u in prev ==> u in r;
      forall i | 0 <= i < n
        ensures candidates[i] in r || AnySimilar(candidates[i], r, similar)
      {
        assert candidates[i] == init[i];
        if !(init[i] in prev) {
          var j :| 0 <= j < |prev| && similar(init[i], prev[j]);
          assert r[j] == prev[j];
        }
      }
    }
  }

  /** The result depends on order: with `a` and `b` similar to each other and
      `c` similar to neither, [a, b, c] keeps a and c while [b, a, c] keeps b
      and c. The first member of a cluster wins. */
  lemma FirstOfClusterWins<P>(a: P, b: P, c: P, similar: (P, P) -> bool)
    requires similar(a, b) && similar(b, a)
    requires !similar(c, a) && !similar(c, b)
    ensures Greedy([a, b, c], similar) == [a, c]
    ensures Greedy([b, a, c], similar) == [b, c]
  {
    assert [a, b, c][..2] == [a, b] && [a, b][..1] == [a] && [a][..0] == [];
    assert [b, a, c][..2] == [b, a] && [b, a][..1] == [b] && [b][..0] == [];
    assert Greedy([a], similar) == [a];
    assert Greedy([b], similar) == [b];
    assert AnySimilar(b, [a], similar) by { assert [a][0] == a; }
    assert AnySimilar(a, [b], similar) by { assert [b][0] == b; }
  }
}
