/**
 * Go's ordering of strings and the descending order the report lists paths in.
 *
 * Go compares strings byte by byte; on UTF-8 text that is the same order as
 * comparing code point by code point, which is what Less does on Dafny's
 * characters.
 */
module Lexical {

  /** `a < b` on strings: the first differing character decides, a proper prefix comes first. */
  predicate Less(a: string, b: string)
  {
    if a == [] then b != []
    else if b == [] then false
    else if a[0] != b[0] then a[0] < b[0]
    else Less(a[1..], b[1..])
  }

  lemma {:induction false} LessIrreflexive(a: string)
    ensures !Less(a, a)
  {
    if a != [] {
      LessIrreflexive(a[1..]);
    }
  }

  lemma {:induction false} LessTransitive(a: string, b: string, c: string)
    requires Less(a, b) && Less(b, c)
    ensures Less(a, c)
  {
    if a != [] && b != [] && c != [] && a[0] == b[0] && b[0] == c[0] {
      LessTransitive(a[1..], b[1..], c[1..]);
    }
  }

  /** Any two different strings are ordered one way or the other. */
  lemma {:induction false} LessTotal(a: string, b: string)
    ensures a == b || Less(a, b) || Less(b, a)
  {
    if a != [] && b != [] && a[0] == b[0] {
      LessTotal(a[1..], b[1..]);
      if a[1..] == b[1..] {
        assert a == [a[0]] + a[1..] && b == [b[0]] + b[1..];
      }
    }
  }

  lemma LessAsymmetric(a: string, b: string)
    requires Less(a, b)
    ensures !Less(b, a)
  {
    if Less(b, a) {
      LessTransitive(a, b, a);
      LessIrreflexive(a);
    }
  }

  /** Every later element is smaller than every earlier one. */
  predicate StrictlyDescending(s: seq<string>)
  {
    forall i, j :: 0 <= i < j < |s| ==> Less(s[j], s[i])
  }

  /** `m` is above every other element of `keys`. */
  predicate IsGreatest(m: string, keys: set<string>)
  {
    forall x :: x in keys && x != m ==> Less(x, m)
  }

  lemma {:induction false} GreatestExists(keys: set<string>)
    requires keys != {}
    ensures exists m :: m in keys && IsGreatest(m, keys)
    decreases |keys|
  {
    var y :| y in keys;
    if keys != {y} {
      GreatestExists(keys - {y});
      var m :| m in keys - {y} && IsGreatest(m, keys - {y});
      if !Less(y, m) {
        LessTotal(y, m);
        forall x | x in keys && x != y
          ensures Less(x, y)
        {
          if x != m {
            LessTransitive(x, m, y);
          }
        }
      }
    }
  }

  /**
   * The keys in strictly descending order: the order `sort.Reverse` of
   * `sort.StringSlice` leaves a set of distinct strings in.
   */
  ghost function SortedDesc(keys: set<string>): (r: seq<string>)
    ensures |r| == |keys|
    ensures forall x :: x in r <==> x in keys
    ensures StrictlyDescending(r)
    decreases |keys|
  {
    if keys == {} then []
    else
      GreatestExists(keys);
      var m :| m in keys && IsGreatest(m, keys);
      var rest := SortedDesc(keys - {m});
      PrependGreatest(m, rest);
      [m] + rest
  }

  lemma PrependGreatest(m: string, rest: seq<string>)
    requires StrictlyDescending(rest)
    requires forall x :: x in rest ==> Less(x, m)
    ensures StrictlyDescending([m] + rest)
  {
    var s := [m] + rest;
    forall i, j | 0 <= i < j < |s|
      ensures Less(s[j], s[i])
    {
      assert s[j] == rest[j - 1];
      if i > 0 {
        assert s[i] == rest[i - 1];
      }
    }
  }

  /** Strictly descending sequences with the same elements are equal: the order is determined. */
  lemma {:induction false} DescendingUnique(r1: seq<string>, r2: seq<string>)
    requires StrictlyDescending(r1) && StrictlyDescending(r2)
    requires forall x :: x in r1 <==> x in r2
    ensures r1 == r2
    decreases |r1|
  {
    assert r2 == [] || r2[0] in r1;
    if r1 != [] {
      assert r1[0] in r2;
      assert r2 != [] && r2[0] in r1;
      if r1[0] != r2[0] {
        LessAsymmetric(r1[0], r2[0]);
      }
      TailMembers(r1);
      TailMembers(r2);
      DescendingUnique(r1[1..], r2[1..]);
      assert r1 == [r1[0]] + r1[1..] && r2 == [r2[0]] + r2[1..];
    }
  }

  /** The tail of a descending sequence holds exactly its elements other than the first. */
  lemma TailMembers(r: seq<string>)
    requires r != [] && StrictlyDescending(r)
    ensures forall x :: x in r[1..] <==> x in r && x != r[0]
  {
    LessIrreflexive(r[0]);
    forall x | x in r && x != r[0]
      ensures x in r[1..]
    {
      var k :| 0 <= k < |r| && r[k] == x;
      assert r[1..][k - 1] == x;
    }
  }

  /** Adjacent elements in descending order make the whole sequence descending. */
  lemma {:induction false} AdjacentDescending(s: seq<string>)
    requires forall i :: 0 < i < |s| ==> Less(s[i], s[i - 1])
    ensures StrictlyDescending(s)
  {
    if |s| > 1 {
      AdjacentDescending(s[1..]);
      forall j | 0 < j < |s|
        ensures Less(s[j], s[0])
      {
        if j > 1 {
          assert Less(s[j], s[1]) by { assert s[1..][j - 1] == s[j]; }
          LessTransitive(s[j], s[1], s[0]);
        }
      }
    }
  }
}
