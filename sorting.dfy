/**
 * `sort.Sort(sort.Reverse(sort.StringSlice(paths)))`: the collected paths
 * put in descending order in place. Go's sort is not stable, but on a slice
 * of distinct strings any correct sort leaves the same order, so an
 * insertion sort stands in for it.
 */
module Sorting {
  import opened Lexical

  /** No element is below the one after it. */
  predicate NonIncreasing(s: seq<string>)
  {
    forall i :: 0 < i < |s| ==> !Less(s[i - 1], s[i])
  }

  predicate Distinct(s: seq<string>)
  {
    forall i, j :: 0 <= i < j < |s| ==> s[i] != s[j]
  }

  /** Sorts `a` into non-increasing order, keeping its elements. */
  method SortDescending(a: array<string>)
    modifies a
    ensures NonIncreasing(a[..])
    ensures multiset(a[..]) == old(multiset(a[..]))
  {
    for i := 0 to a.Length
      invariant forall p :: 0 < p < i ==> !Less(a[p - 1], a[p])
      invariant multiset(a[..]) == old(multiset(a[..]))
    {
      Sink(a, i);
    }
  }

  /** Moves `a[i]` down into the non-increasing prefix `a[..i]`. */
  method Sink(a: array<string>, i: nat)
    requires i < a.Length
    requires forall p :: 0 < p < i ==> !Less(a[p - 1], a[p])
    modifies a
    ensures forall p :: 0 < p <= i ==> !Less(a[p - 1], a[p])
    ensures multiset(a[..]) == old(multiset(a[..]))
  {
    ghost var orig := a[..];
    var j := i;
    while 0 < j && Less(a[j - 1], a[j])
      invariant 0 <= j <= i
      invariant OrderedExcept(a[..], i, j)
      invariant 0 < j < i ==> !Less(a[j - 1], a[j + 1])
      invariant multiset(a[..]) == multiset(orig)
    {
      SinkStep(a[..], i, j);
      a[j - 1], a[j] := a[j], a[j - 1];
      j := j - 1;
    }
  }

  /** The pairs `s[p - 1], s[p]` with `0 < p <= hi` are in order, except perhaps at `hole`. */
  predicate OrderedExcept(s: seq<string>, hi: nat, hole: nat)
    requires hi < |s|
  {
    forall p :: 0 < p <= hi && p != hole ==> !Less(s[p - 1], s[p])
  }

  /** Swapping the out-of-order pair at the hole moves the hole one place down and keeps the elements. */
  lemma SinkStep(s: seq<string>, i: nat, j: nat)
    requires 0 < j <= i < |s|
    requires OrderedExcept(s, i, j) && Less(s[j - 1], s[j])
    requires j < i ==> !Less(s[j - 1], s[j + 1])
    ensures var s' := s[j - 1 := s[j]][j := s[j - 1]];
      && OrderedExcept(s', i, j - 1)
      && (0 < j - 1 ==> !Less(s'[j - 2], s'[j]))
      && multiset(s') == multiset(s)
  {
    var s' := s[j - 1 := s[j]][j := s[j - 1]];
    LessAsymmetric(s[j - 1], s[j]);
    forall p | 0 < p <= i && p != j - 1
      ensures !Less(s'[p - 1], s'[p])
    {
      if p != j && p != j + 1 {
        assert s'[p - 1] == s[p - 1] && s'[p] == s[p];
      }
    }
  }

  /** A sequence without repeats holds each value at most once. */
  lemma {:induction false} DistinctCounts(s: seq<string>)
    requires Distinct(s)
    ensures forall x :: multiset(s)[x] <= 1
  {
    if s != [] {
      assert Distinct(s[1..]) by {
        forall i, j | 0 <= i < j < |s[1..]|
          ensures s[1..][i] != s[1..][j]
        {
          assert s[1..][i] == s[i + 1] && s[1..][j] == s[j + 1];
        }
      }
      DistinctCounts(s[1..]);
      assert s == [s[0]] + s[1..];
      assert s[0] !in s[1..] by {
        forall k | 0 <= k < |s[1..]|
          ensures s[1..][k] != s[0]
        {
          assert s[1..][k] == s[k + 1];
        }
      }
    }
  }

  /** A sequence holding each value at most once has no repeats. */
  lemma CountsDistinct(s: seq<string>)
    requires forall x :: multiset(s)[x] <= 1
    ensures Distinct(s)
  {
    forall i, j | 0 <= i < j < |s|
      ensures s[i] != s[j]
    {
      RepeatCounted(s, i, j);
    }
  }

  lemma RepeatCounted(s: seq<string>, i: nat, j: nat)
    requires i < j < |s|
    ensures s[i] == s[j] ==> multiset(s)[s[i]] >= 2
  {
    assert s == s[..j] + s[j..];
    assert s[i] in s[..j] && s[j] in s[j..];
  }

  /** Rearranging a sequence without repeats gives one without repeats. */
  lemma PermutationDistinct(s: seq<string>, t: seq<string>)
    requires multiset(s) == multiset(t) && Distinct(t)
    ensures Distinct(s)
  {
    DistinctCounts(t);
    CountsDistinct(s);
  }

  /** Without repeats, non-increasing is strictly descending. */
  lemma DistinctDescending(s: seq<string>)
    requires NonIncreasing(s) && Distinct(s)
    ensures StrictlyDescending(s)
  {
    forall i | 0 < i < |s|
      ensures Less(s[i], s[i - 1])
    {
      LessTotal(s[i], s[i - 1]);
    }
    AdjacentDescending(s);
  }
}
