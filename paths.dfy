/**
 * Slash-separated path names as the Go standard library's `path` package
 * treats them. The scanner forms every child key with `path.Join(dir, name)`,
 * which joins with "/" and then cleans the result lexically:
 *   - runs of slashes become one slash,
 *   - "." elements are dropped,
 *   - ".." drops the element before it, or is dropped at the start of a
 *     rooted path, or is kept at the start of a relative one,
 *   - an empty result is "." (or "/" for a rooted path).
 * Clean is modelled here element by element: split at every slash, resolve
 * the elements against a stack, join what is left.
 */
module Paths {

  /** The pieces of `s` between slashes: "a//b/" gives ["a", "", "b", ""]. */
  function Split(s: string): (r: seq<string>)
    ensures |r| >= 1
  {
    if s == [] then [[]]
    else
      var rest := Split(s[1..]);
      if s[0] == '/' then [[]] + rest
      else [[s[0]] + rest[0]] + rest[1..]
  }

  /** One element of a path applied to the elements kept so far. */
  function Step(kept: seq<string>, elem: string, rooted: bool): seq<string>
  {
    if elem == "" || elem == "." then kept
    else if elem == ".." then
      if |kept| > 0 && kept[|kept| - 1] != ".." then kept[..|kept| - 1]
      else if rooted then kept
      else kept + [".."]
    else kept + [elem]
  }

  function Resolve(kept: seq<string>, elems: seq<string>, rooted: bool): seq<string>
    decreases |elems|
  {
    if elems == [] then kept
    else Resolve(Step(kept, elems[0], rooted), elems[1..], rooted)
  }

  /** The elements separated by single slashes. */
  function JoinSlash(elems: seq<string>): string
  {
    if elems == [] then ""
    else if |elems| == 1 then elems[0]
    else elems[0] + "/" + JoinSlash(elems[1..])
  }

  /** `path.Clean`: the shortest lexically equivalent path name. */
  function Clean(p: string): (r: string)
    ensures r != ""
  {
    if p == [] then "."
    else
      var rooted := p[0] == '/';
      var body := JoinSlash(Resolve([], Split(p), rooted));
      if rooted then "/" + body
      else if body == "" then "."
      else body
  }

  /** `path.Join(dir, name)`: the non-empty arguments joined by "/", cleaned. */
  function Join(dir: string, name: string): string
  {
    if dir == "" then (if name == "" then "" else Clean(name))
    else Clean(dir + "/" + name)
  }

  /** A name a directory listing can hold: not empty, not "." or "..", no slash. */
  predicate PlainName(n: string)
  {
    n != "" && n != "." && n != ".." && '/' !in n
  }

  predicate AllPlain(elems: seq<string>)
  {
    forall i :: 0 <= i < |elems| ==> PlainName(elems[i])
  }

  lemma {:induction false} SplitNoSlash(s: string)
    requires '/' !in s
    ensures Split(s) == [s]
  {
    if s != [] {
      SplitNoSlash(s[1..]);
      assert [s[0]] + s[1..] == s;
    }
  }

  /** Splitting at a slash splits the two sides separately. */
  lemma {:induction false} SplitAtSlash(a: string, b: string)
    ensures Split(a + "/" + b) == Split(a) + Split(b)
  {
    if a == [] {
      assert a + "/" + b == "/" + b;
      assert ("/" + b)[1..] == b;
    } else {
      var s := a + "/" + b;
      assert s[0] == a[0];
      assert s[1..] == a[1..] + "/" + b;
      SplitAtSlash(a[1..], b);
    }
  }

  lemma {:induction false} SplitJoinSlash(elems: seq<string>)
    requires elems != []
    requires forall i :: 0 <= i < |elems| ==> '/' !in elems[i]
    ensures Split(JoinSlash(elems)) == elems
  {
    if |elems| == 1 {
      SplitNoSlash(elems[0]);
    } else {
      SplitAtSlash(elems[0], JoinSlash(elems[1..]));
      SplitNoSlash(elems[0]);
      SplitJoinSlash(elems[1..]);
      assert [elems[0]] + elems[1..] == elems;
    }
  }

  lemma {:induction false} ResolvePlain(kept: seq<string>, elems: seq<string>, rooted: bool)
    requires AllPlain(elems)
    ensures Resolve(kept, elems, rooted) == kept + elems
    decreases |elems|
  {
    if elems != [] {
      assert PlainName(elems[0]);
      ResolvePlain(kept + [elems[0]], elems[1..], rooted);
      assert kept + [elems[0]] + elems[1..] == kept + elems;
    }
  }

  lemma {:induction false} JoinSlashSnoc(elems: seq<string>, n: string)
    requires elems != []
    ensures JoinSlash(elems + [n]) == JoinSlash(elems) + "/" + n
  {
    if |elems| > 1 {
      assert (elems + [n])[1..] == elems[1..] + [n];
      JoinSlashSnoc(elems[1..], n);
    }
  }

  lemma JoinSlashHead(elems: seq<string>)
    requires elems != [] && elems[0] != ""
    ensures JoinSlash(elems) != "" && JoinSlash(elems)[0] == elems[0][0]
  {
    if |elems| > 1 {
      assert JoinSlash(elems) == elems[0] + ("/" + JoinSlash(elems[1..]));
    }
  }

  /** A path whose pieces are all plain names is already clean. */
  lemma CleanPlain(p: string, elems: seq<string>)
    requires p != [] && Split(p) == elems && elems != [] && AllPlain(elems)
    ensures p[0] == '/' ==> Clean(p) == "/" + JoinSlash(elems)
    ensures p[0] != '/' ==> Clean(p) == JoinSlash(elems)
  {
    ResolvePlain([], elems, p[0] == '/');
    assert [] + elems == elems;
    assert PlainName(elems[0]);
    JoinSlashHead(elems);
  }

  /**
   * Joining a plain name to a clean relative path made of plain names is
   * plain concatenation with a slash.
   */
  lemma JoinRelative(elems: seq<string>, name: string)
    requires elems != [] && AllPlain(elems) && PlainName(name)
    ensures Join(JoinSlash(elems), name) == JoinSlash(elems) + "/" + name
  {
    var dir := JoinSlash(elems);
    assert PlainName(elems[0]);
    JoinSlashHead(elems);
    SplitJoinSlash(elems);
    SplitNoSlash(name);
    SplitAtSlash(dir, name);
    var p := dir + "/" + name;
    assert p[0] == dir[0];
    assert AllPlain(elems + [name]);
    CleanPlain(p, elems + [name]);
    JoinSlashSnoc(elems, name);
  }

  /** Under the current directory "." a child's key is its bare name. */
  lemma JoinDot(name: string)
    requires PlainName(name)
    ensures Join(".", name) == name
  {
    SplitAtSlash(".", name);
    SplitNoSlash(".");
    SplitNoSlash(name);
    assert Resolve([], [".", name], false) == Resolve([], [name], false);
    ResolvePlain([], [name], false);
  }

  /** Joining a plain name to an absolute path made of plain names. */
  lemma JoinAbsolute(elems: seq<string>, name: string)
    requires AllPlain(elems) && PlainName(name)
    ensures Join("/" + JoinSlash(elems), name) == "/" + JoinSlash(elems + [name])
  {
    var dir := "/" + JoinSlash(elems);
    var p := dir + "/" + name;
    SplitNoSlash(name);
    assert AllPlain(elems + [name]);
    if elems == [] {
      assert p == "" + "/" + ("" + "/" + name);
      SplitAtSlash("", "" + "/" + name);
      SplitAtSlash("", name);
      assert Split(p) == ["", "", name];
      assert Resolve([], ["", "", name], true) == Resolve([], [name], true);
      ResolvePlain([], [name], true);
      assert elems + [name] == [name];
    } else {
      assert p == "" + "/" + (JoinSlash(elems) + "/" + name);
      SplitAtSlash("", JoinSlash(elems) + "/" + name);
      SplitAtSlash(JoinSlash(elems), name);
      SplitJoinSlash(elems);
      assert Split(p) == [""] + (elems + [name]);
      assert Resolve([], Split(p), true) == Resolve([], elems + [name], true);
      ResolvePlain([], elems + [name], true);
      assert [] + (elems + [name]) == elems + [name];
    }
  }

  // ---------------------------------------------------------------------------
  // Clean paths made of plain names

  /**
   * The clean path with elements `elems`: "/a/b" when rooted, "a/b"
   * otherwise, and "." or "/" when there are no elements.
   */
  function PathOf(rooted: bool, elems: seq<string>): string
  {
    if rooted then "/" + JoinSlash(elems)
    else if elems == [] then "."
    else JoinSlash(elems)
  }

  /** The pieces of a clean path: a leading "" when rooted, then the elements. */
  lemma SplitPathOf(rooted: bool, elems: seq<string>)
    requires AllPlain(elems)
    ensures elems != [] ==> Split(PathOf(rooted, elems)) == (if rooted then [""] else []) + elems
    ensures elems == [] && rooted ==> Split(PathOf(rooted, elems)) == ["", ""]
    ensures elems == [] && !rooted ==> Split(PathOf(rooted, elems)) == ["."]
  {
    if elems != [] {
      SplitJoinSlash(elems);
    }
    if rooted {
      assert PathOf(rooted, elems) == "" + "/" + JoinSlash(elems);
      SplitAtSlash("", JoinSlash(elems));
    } else if elems == [] {
      SplitNoSlash(".");
    }
  }

  /** Joining a plain name to a clean path of plain names adds one element. */
  lemma JoinPathOf(rooted: bool, elems: seq<string>, name: string)
    requires AllPlain(elems) && PlainName(name)
    ensures AllPlain(elems + [name])
    ensures Join(PathOf(rooted, elems), name) == PathOf(rooted, elems + [name])
  {
    assert AllPlain(elems + [name]);
    if rooted {
      JoinAbsolute(elems, name);
    } else if elems == [] {
      JoinDot(name);
      assert elems + [name] == [name];
    } else {
      JoinRelative(elems, name);
      JoinSlashSnoc(elems, name);
    }
  }

  /**
   * Whether path `p` lies under the element `name` at depth `depth` of a
   * rooted or relative clean path: its piece at that position is `name`.
   */
  predicate Beneath(p: string, rooted: bool, depth: nat, name: string)
  {
    var pieces := Split(p);
    var pos := depth + (if rooted then 1 else 0);
    pos < |pieces| && pieces[pos] == name
  }

  /** A clean path lies under each of its own elements. */
  lemma PathBeneath(rooted: bool, elems: seq<string>, i: nat)
    requires AllPlain(elems) && i < |elems|
    ensures Beneath(PathOf(rooted, elems), rooted, i, elems[i])
  {
    SplitPathOf(rooted, elems);
  }

  /** No clean path lies under a plain name one level below its own end. */
  lemma PathNotBeneath(rooted: bool, elems: seq<string>, name: string)
    requires AllPlain(elems) && PlainName(name)
    ensures !Beneath(PathOf(rooted, elems), rooted, |elems|, name)
  {
    SplitPathOf(rooted, elems);
  }
}
