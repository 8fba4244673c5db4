/** Array.prototype.filter on sequences, and what it preserves. */
module Sequences {

  /** The elements of `s` that satisfy `keep`, in their original order. */
  function Filter<T>(s: seq<T>, keep: T -> bool): (r: seq<T>)
    ensures |r| <= |s|
    ensures forall i :: 0 <= i < |r| ==> r[i] in s && keep(r[i])
    ensures forall i :: 0 <= i < |s| && keep(s[i]) ==> s[i] in r
    decreases |s|
  {
    if s == [] then []
    else Filter(s[..|s| - 1], keep) + (if keep(s[|s| - 1]) then [s[|s| - 1]] else [])
  }

  /** The positions of `s` that `Filter` keeps, in increasing order. */
  function KeptIndices<T>(s: seq<T>, keep: T -> bool): seq<nat>
    decreases |s|
  {
    if s == [] then []
    else KeptIndices(s[..|s| - 1], keep) + (if keep(s[|s| - 1]) then [|s| - 1] else [])
  }

  /** `idx` embeds `r` in `s` in order: each element of `r` is the element of
      `s` at the matching position, and the positions strictly increase. */
  ghost predicate OrderedEmbedding<T>(r: seq<T>, s: seq<T>, idx: seq<nat>) {
    && |idx| == |r|
    && (forall i :: 0 <= i < |idx| ==> idx[i] < |s| && r[i] == s[idx[i]])
    && (forall i, j :: 0 <= i < j < |idx| ==> idx[i] < idx[j])
  }

  /** The kept positions are in range and pick exactly the elements that
      satisfy `keep`. */
  lemma {:induction false} KeptIndicesExact<T>(s: seq<T>, keep: T -> bool)
    ensures forall i :: 0 <= i < |KeptIndices(s, keep)| ==> KeptIndices(s, keep)[i] < |s|
    ensures forall k :: 0 <= k < |s| ==> (k in KeptIndices(s, keep) <==> keep(s[k]))
    decreases |s|
  {
    if s != [] {
      var init := s[..|s| - 1];
      KeptIndicesExact(init, keep);
      forall k | 0 <= k < |init|
        ensures s[k] == init[k]
      {
      }
    }
  }

  /** Filtering keeps exactly the positions whose element satisfies `keep`,
      and keeps them in their original relative order. */
  lemma {:induction false} FilterPreservesOrder<T>(s: seq<T>, keep: T -> bool)
    ensures OrderedEmbedding(Filter(s, keep), s, KeptIndices(s, keep))
    ensures forall k :: 0 <= k < |s| ==> (k in KeptIndices(s, keep) <==> keep(s[k]))
    decreases |s|
  {
    KeptIndicesExact(s, keep);
    if s != [] {
      var init, last := s[..|s| - 1], s[|s| - 1];
      FilterPreservesOrder(init, keep);
      KeptIndicesExact(init, keep);
      var idx, r := KeptIndices(init, keep), Filter(init, keep);
      var tail := if keep(last) then [|s| - 1] else [];
      var idx', r' := idx + tail, r + (if keep(last) then [last] else []);
      assert KeptIndices(s, keep) == idx' && Filter(s, keep) == r';
      assert |idx'| == |r'|;
      forall i | 0 <= i < |idx'|
        ensures idx'[i] < |s| && r'[i] == s[idx'[i]]
      {
        if i < |idx| {
          assert idx'[i] == idx[i] && r'[i] == r[i];
          assert s[idx[i]] == init[idx[i]];
        }
      }
      forall i, j | 0 <= i < j < |idx'|
        ensures idx'[i] < idx'[j]
      {
        if j < |idx| {
          assert idx'[i] == idx[i] && idx'[j] == idx[j];
        } else {
          assert idx'[i] == idx[i] < |init|;
        }
      }
    }
  }

  /** Two conditions applied one after the other keep the same elements, in
      the same order, as their conjunction applied once. */
  lemma {:induction false} FilterConjunction<T>(s: seq<T>, p: T -> bool, q: T -> bool, both: T -> bool)
    requires forall i :: 0 <= i < |s| ==> both(s[i]) == (p(s[i]) && q(s[i]))
    ensures Filter(Filter(s, p), q) == Filter(s, both)
    decreases |s|
  {
    if s != [] {
      var init, last := s[..|s| - 1], s[|s| - 1];
      FilterConjunction(init, p, q, both);
      if p(last) {
        FilterAppend(Filter(init, p), [last], q);
      } else {
        assert Filter(s, p) == Filter(init, p);
      }
    }
  }

  /** Filtering distributes over concatenation. */
  lemma {:induction false} FilterAppend<T>(a: seq<T>, b: seq<T>, keep: T -> bool)
    ensures Filter(a + b, keep) == Filter(a, keep) + Filter(b, keep)
    decreases |b|
  {
    if b != [] {
      var ab := a + b;
      assert ab[..|ab| - 1] == a + b[..|b| - 1];
      FilterAppend(a, b[..|b| - 1], keep);
    } else {
      assert a + b == a;
    }
  }

  /** Filtering a sequence whose every element already qualifies changes
      nothing. */
  lemma {:induction false} FilterAllKept<T>(s: seq<T>, keep: T -> bool)
    requires forall i :: 0 <= i < |s| ==> keep(s[i])
    ensures Filter(s, keep) == s
    decreases |s|
  {
    if s != [] {
      FilterAllKept(s[..|s| - 1], keep);
    }
  }

  /** Filtering depends only on how `keep` judges the elements present. */
  lemma {:induction false} FilterCongruence<T>(s: seq<T>, p: T -> bool, q: T -> bool)
    requires forall i :: 0 <= i < |s| ==> p(s[i]) == q(s[i])
    ensures Filter(s, p) == Filter(s, q)
    decreases |s|
  {
    if s != [] {
      FilterCongruence(s[..|s| - 1], p, q);
    }
  }
}
