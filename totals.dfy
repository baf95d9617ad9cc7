/**
 * What the finished table holds, value by value.
 *
 * Sizes is the table a complete scan adds, built from TotalOf alone: the
 * total of every listable directory the scan descends into, under its
 * path, merged in scan order. A completed scan leaves exactly the starting
 * table updated with Sizes.
 *
 * The listings `ioutil.ReadDir` returns hold plain, pairwise distinct
 * names (Listed). When the start path is a clean path of plain names, the
 * paths of different directories then never coincide, so every recorded
 * path holds the total of its own subtree, and every directory's recorded
 * size is the sum of its files and its subdirectories' recorded sizes.
 */
module Totals {
  import opened FileTree
  import opened ScanSpec
  import Paths

  /** The total of `e` where it is defined, 0 where a listing error is not absorbed. */
  function TotalOrZero(cfg: Config, e: Entry): nat
    requires Admissible(cfg, e)
  {
    var r := TotalOf(cfg, e);
    if r.Some? then r.value else 0
  }

  /**
   * The table a complete scan of `e` at `dir` adds: each listable directory
   * not skipped, under its path, with its total; where two paths coincide
   * the one scanned later wins.
   */
  function Sizes(cfg: Config, dir: string, e: Entry): Table
    requires Admissible(cfg, e)
    decreases e, 1
  {
    match e
    case Dir(_, cs) => SizesAll(cfg, dir, cs)[dir := TotalOrZero(cfg, e)]
    case _ => map[]
  }

  function SizesAll(cfg: Config, dir: string, cs: seq<Entry>): Table
    requires AdmissibleAll(cfg, cs)
    decreases cs, 0
  {
    if cs == [] then map[]
    else
      var c := cs[0];
      var here := if Skipped(cfg, c) || !c.IsDir() then map[] else Sizes(cfg, Paths.Join(dir, c.name), c);
      here + SizesAll(cfg, dir, cs[1..])
  }

  /** The reference table holds exactly the paths a complete scan records. */
  lemma {:induction false} SizesKeys(cfg: Config, dir: string, e: Entry)
    requires Admissible(cfg, e)
    ensures Sizes(cfg, dir, e).Keys == SubtreeKeys(cfg, dir, e)
    decreases e, 1
  {
    if e.Dir? {
      SizesAllKeys(cfg, dir, e.children);
    }
  }

  lemma {:induction false} SizesAllKeys(cfg: Config, dir: string, cs: seq<Entry>)
    requires AdmissibleAll(cfg, cs)
    ensures SizesAll(cfg, dir, cs).Keys == DescendantKeys(cfg, dir, cs)
    decreases cs, 0
  {
    if cs != [] {
      var c := cs[0];
      SizesAllKeys(cfg, dir, cs[1..]);
      if !Skipped(cfg, c) && c.IsDir() {
        SizesKeys(cfg, Paths.Join(dir, c.name), c);
      }
    }
  }

  // ---------------------------------------------------------------------------
  // The table a completed scan leaves

  /** A completed scan leaves the starting table updated with the reference table. */
  lemma {:induction false} ScanSizes(cfg: Config, dir: string, e: Entry, t: Table)
    requires Admissible(cfg, e)
    ensures ScanDir(cfg, dir, e, t).Done? ==> ScanDir(cfg, dir, e, t).table == t + Sizes(cfg, dir, e)
    decreases e, 1
  {
    if e.Dir? {
      ScanEntriesSizes(cfg, dir, e.children, 0, t);
      ScanDirTotal(cfg, dir, e, t);
      var s := SizesAll(cfg, dir, e.children);
      assert (t + s)[dir := TotalOrZero(cfg, e)] == t + s[dir := TotalOrZero(cfg, e)];
    } else {
      assert t + map[] == t;
    }
  }

  lemma {:induction false} ScanEntriesSizes(cfg: Config, dir: string, cs: seq<Entry>, acc: nat, t: Table)
    requires AdmissibleAll(cfg, cs)
    ensures ScanEntries(cfg, dir, cs, acc, t).Done? ==>
              ScanEntries(cfg, dir, cs, acc, t).table == t + SizesAll(cfg, dir, cs)
    decreases cs, 1
  {
    if cs == [] {
      assert t + map[] == t;
    } else {
      var c := cs[0];
      var rest := SizesAll(cfg, dir, cs[1..]);
      if Skipped(cfg, c) {
        UnionEmpty(rest);
        assert ScanEntries(cfg, dir, cs, acc, t) == ScanEntries(cfg, dir, cs[1..], acc, t);
        ScanEntriesSizes(cfg, dir, cs[1..], acc, t);
      } else if !c.IsDir() {
        UnionEmpty(rest);
        assert ScanEntries(cfg, dir, cs, acc, t) == ScanEntries(cfg, dir, cs[1..], acc + c.size, t);
        ScanEntriesSizes(cfg, dir, cs[1..], acc + c.size, t);
      } else {
        ScanChildSizes(cfg, dir, cs, acc, t);
      }
    }
  }

  /** The loop step that descends into a subdirectory. */
  lemma {:induction false} ScanChildSizes(cfg: Config, dir: string, cs: seq<Entry>, acc: nat, t: Table)
    requires AdmissibleAll(cfg, cs) && cs != [] && !Skipped(cfg, cs[0]) && cs[0].IsDir()
    ensures ScanEntries(cfg, dir, cs, acc, t).Done? ==>
              ScanEntries(cfg, dir, cs, acc, t).table == t + SizesAll(cfg, dir, cs)
    decreases cs, 0
  {
    var c := cs[0];
    var rest := SizesAll(cfg, dir, cs[1..]);
    var key := Paths.Join(dir, c.name);
    var sub := Sizes(cfg, key, c);
    assert SizesAll(cfg, dir, cs) == sub + rest;
    ScanSizes(cfg, key, c, t);
    match ScanDir(cfg, key, c, t)
    case Aborted(_, _) =>
    case Done(ds, t') =>
      assert ScanEntries(cfg, dir, cs, acc, t) == ScanEntries(cfg, dir, cs[1..], acc + ds, t');
      ScanEntriesSizes(cfg, dir, cs[1..], acc + ds, t');
      UnionAssociative(t, sub, rest);
  }

  lemma UnionEmpty(m: Table)
    ensures map[] + m == m
  {
  }

  lemma UnionAssociative(a: Table, b: Table, c: Table)
    ensures (a + b) + c == a + (b + c)
  {
  }

  // ---------------------------------------------------------------------------
  // Paths of different directories are different

  /**
   * Every path recorded for `e` at the clean path `elems` lies under each
   * element of `elems`.
   */
  lemma {:induction false} KeysBeneath(cfg: Config, rooted: bool, elems: seq<string>, e: Entry, i: nat)
    requires Admissible(cfg, e) && Listed(e) && Paths.AllPlain(elems) && i < |elems|
    ensures forall k :: k in SubtreeKeys(cfg, Paths.PathOf(rooted, elems), e) ==>
              Paths.Beneath(k, rooted, i, elems[i])
    decreases e, 1
  {
    if e.Dir? {
      Paths.PathBeneath(rooted, elems, i);
      DescendantsBeneath(cfg, rooted, elems, e.children, i);
    }
  }

  lemma {:induction false} DescendantsBeneath(cfg: Config, rooted: bool, elems: seq<string>, cs: seq<Entry>, i: nat)
    requires AdmissibleAll(cfg, cs) && ListedAll(cs) && Paths.AllPlain(elems) && i < |elems|
    ensures forall k :: k in DescendantKeys(cfg, Paths.PathOf(rooted, elems), cs) ==>
              Paths.Beneath(k, rooted, i, elems[i])
    decreases cs, 0
  {
    if cs != [] {
      var c := cs[0];
      ListedTail(cs);
      DescendantsBeneath(cfg, rooted, elems, cs[1..], i);
      if !Skipped(cfg, c) && c.IsDir() {
        Paths.JoinPathOf(rooted, elems, c.name);
        KeysBeneath(cfg, rooted, elems + [c.name], c, i);
        assert (elems + [c.name])[i] == elems[i];
      }
    }
  }

  /** No path recorded under the entries `cs` lies under a name none of them has. */
  lemma {:induction false} DescendantsNotBeneath(cfg: Config, rooted: bool, elems: seq<string>, cs: seq<Entry>, name: string)
    requires AdmissibleAll(cfg, cs) && ListedAll(cs) && Paths.AllPlain(elems)
    requires forall i :: 0 <= i < |cs| ==> cs[i].name != name
    ensures forall k :: k in DescendantKeys(cfg, Paths.PathOf(rooted, elems), cs) ==>
              !Paths.Beneath(k, rooted, |elems|, name)
    decreases cs
  {
    if cs != [] {
      var c := cs[0];
      ListedTail(cs);
      assert forall i :: 0 <= i < |cs[1..]| ==> cs[1..][i] == cs[i + 1];
      DescendantsNotBeneath(cfg, rooted, elems, cs[1..], name);
      if !Skipped(cfg, c) && c.IsDir() {
        Paths.JoinPathOf(rooted, elems, c.name);
        KeysBeneath(cfg, rooted, elems + [c.name], c, |elems|);
      }
    }
  }

  /** A directory's own path is never recorded for one of its descendants. */
  lemma {:induction false} DirNotDescendant(cfg: Config, rooted: bool, elems: seq<string>, cs: seq<Entry>)
    requires AdmissibleAll(cfg, cs) && ListedAll(cs) && Paths.AllPlain(elems)
    ensures Paths.PathOf(rooted, elems) !in DescendantKeys(cfg, Paths.PathOf(rooted, elems), cs)
    decreases cs
  {
    if cs != [] {
      var c := cs[0];
      ListedTail(cs);
      DirNotDescendant(cfg, rooted, elems, cs[1..]);
      if !Skipped(cfg, c) && c.IsDir() {
        Paths.JoinPathOf(rooted, elems, c.name);
        KeysBeneath(cfg, rooted, elems + [c.name], c, |elems|);
        Paths.PathNotBeneath(rooted, elems, c.name);
      }
    }
  }

  /**
   * An aborted scan of a directory at a clean path keeps every earlier
   * entry and never adds the directory's own path.
   */
  lemma AbortedScanOmitsDir(cfg: Config, rooted: bool, elems: seq<string>, e: Entry, t: Table)
    requires Admissible(cfg, e) && Listed(e) && Paths.AllPlain(elems)
    ensures var dir := Paths.PathOf(rooted, elems);
      var r := ScanDir(cfg, dir, e, t);
      r.Aborted? ==> t.Keys <= r.table.Keys && dir !in r.table.Keys - t.Keys
  {
    var dir := Paths.PathOf(rooted, elems);
    ScanKeys(cfg, dir, e, t);
    if e.Dir? {
      DirNotDescendant(cfg, rooted, elems, e.children);
    }
  }

  // ---------------------------------------------------------------------------
  // Every recorded path holds the total of its own subtree

  /**
   * Within the reference table of a listing at a clean path, the part for
   * one counted subdirectory is that subdirectory's own reference table:
   * no sibling writes over it.
   */
  lemma {:induction false} SizesAllChild(cfg: Config, rooted: bool, elems: seq<string>, cs: seq<Entry>, j: nat)
    requires AdmissibleAll(cfg, cs) && ListedAll(cs) && Paths.AllPlain(elems)
    requires j < |cs| && !Skipped(cfg, cs[j]) && cs[j].IsDir()
    ensures var sub := Sizes(cfg, Paths.Join(Paths.PathOf(rooted, elems), cs[j].name), cs[j]);
      var all := SizesAll(cfg, Paths.PathOf(rooted, elems), cs);
      forall k :: k in sub ==> k in all && all[k] == sub[k]
    decreases j
  {
    var dir := Paths.PathOf(rooted, elems);
    ListedTail(cs);
    var c := cs[0];
    var rest := SizesAll(cfg, dir, cs[1..]);
    if j == 0 {
      var sub := Sizes(cfg, Paths.Join(dir, c.name), c);
      Paths.JoinPathOf(rooted, elems, c.name);
      SizesKeys(cfg, Paths.Join(dir, c.name), c);
      SizesAllKeys(cfg, dir, cs[1..]);
      KeysBeneath(cfg, rooted, elems + [c.name], c, |elems|);
      DescendantsNotBeneath(cfg, rooted, elems, cs[1..], c.name);
      assert forall k :: k in sub ==> k !in rest;
    } else {
      assert cs[1..][j - 1] == cs[j];
      SizesAllChild(cfg, rooted, elems, cs[1..], j - 1);
    }
  }

  /** The same one level up: the directory's own path is not among the subdirectory's. */
  lemma SizesChild(cfg: Config, rooted: bool, elems: seq<string>, name: string, cs: seq<Entry>, j: nat)
    requires AdmissibleAll(cfg, cs) && ListedAll(cs) && Paths.AllPlain(elems)
    requires j < |cs| && !Skipped(cfg, cs[j]) && cs[j].IsDir()
    ensures var sub := Sizes(cfg, Paths.Join(Paths.PathOf(rooted, elems), cs[j].name), cs[j]);
      var all := Sizes(cfg, Paths.PathOf(rooted, elems), Dir(name, cs));
      forall k :: k in sub ==> k in all && all[k] == sub[k]
  {
    var dir := Paths.PathOf(rooted, elems);
    SizesAllChild(cfg, rooted, elems, cs, j);
    SizesKeys(cfg, Paths.Join(dir, cs[j].name), cs[j]);
    Paths.JoinPathOf(rooted, elems, cs[j].name);
    KeysBeneath(cfg, rooted, elems + [cs[j].name], cs[j], |elems|);
    Paths.PathNotBeneath(rooted, elems, cs[j].name);
  }

  /**
   * Table `t` holds, under the path of every listable directory of `e` that
   * is not skipped, the total of that directory's subtree.
   */
  predicate TotalsHold(cfg: Config, dir: string, e: Entry, t: Table)
    requires Admissible(cfg, e)
    decreases e, 1
  {
    match e
    case Dir(_, cs) => dir in t && t[dir] == TotalOrZero(cfg, e) && TotalsHoldAll(cfg, dir, cs, t)
    case _ => true
  }

  predicate TotalsHoldAll(cfg: Config, dir: string, cs: seq<Entry>, t: Table)
    requires AdmissibleAll(cfg, cs)
    decreases cs, 0
  {
    forall i :: 0 <= i < |cs| && !Skipped(cfg, cs[i]) ==> TotalsHold(cfg, Paths.Join(dir, cs[i].name), cs[i], t)
  }

  /** A subdirectory's recorded paths are among its parent listing's. */
  lemma {:induction false} ChildKeysIncluded(cfg: Config, dir: string, cs: seq<Entry>, i: nat)
    requires AdmissibleAll(cfg, cs) && i < |cs| && !Skipped(cfg, cs[i])
    ensures SubtreeKeys(cfg, Paths.Join(dir, cs[i].name), cs[i]) <= DescendantKeys(cfg, dir, cs)
    decreases i
  {
    if i > 0 {
      assert cs[1..][i - 1] == cs[i];
      ChildKeysIncluded(cfg, dir, cs[1..], i - 1);
    }
  }

  /** Whether the totals hold depends only on the entries under the recorded paths. */
  lemma {:induction false} TotalsTransfer(cfg: Config, dir: string, e: Entry, a: Table, b: Table)
    requires Admissible(cfg, e) && TotalsHold(cfg, dir, e, a)
    requires forall k :: k in SubtreeKeys(cfg, dir, e) ==> k in a && k in b && b[k] == a[k]
    ensures TotalsHold(cfg, dir, e, b)
    decreases e, 1
  {
    if e.Dir? {
      var cs := e.children;
      assert AdmissibleAll(cfg, cs);
      forall i | 0 <= i < |cs| && !Skipped(cfg, cs[i])
        ensures TotalsHold(cfg, Paths.Join(dir, cs[i].name), cs[i], b)
      {
        ChildKeysIncluded(cfg, dir, cs, i);
        TotalsTransfer(cfg, Paths.Join(dir, cs[i].name), cs[i], a, b);
      }
    }
  }

  /** A counted subdirectory of a listing with a total has a total itself. */
  lemma {:induction false} ChildTotalDefined(cfg: Config, cs: seq<Entry>, i: nat)
    requires AdmissibleAll(cfg, cs) && TotalOfAll(cfg, cs).Some?
    requires i < |cs| && !Skipped(cfg, cs[i]) && cs[i].IsDir()
    ensures TotalOf(cfg, cs[i]).Some?
    decreases i
  {
    if i > 0 {
      assert cs[1..][i - 1] == cs[i];
      ChildTotalDefined(cfg, cs[1..], i - 1);
    }
  }

  /**
   * Under listings of plain, distinct names and a clean start path, the
   * reference table records the total of every directory's own subtree.
   */
  lemma {:induction false} SizesTotals(cfg: Config, rooted: bool, elems: seq<string>, e: Entry)
    requires Admissible(cfg, e) && Listed(e) && Paths.AllPlain(elems)
    ensures TotalsHold(cfg, Paths.PathOf(rooted, elems), e, Sizes(cfg, Paths.PathOf(rooted, elems), e))
    decreases e
  {
    if e.Dir? {
      var dir := Paths.PathOf(rooted, elems);
      var cs := e.children;
      var all := Sizes(cfg, dir, e);
      assert AdmissibleAll(cfg, cs);
      forall i | 0 <= i < |cs| && !Skipped(cfg, cs[i])
        ensures TotalsHold(cfg, Paths.Join(dir, cs[i].name), cs[i], all)
      {
        if cs[i].IsDir() {
          var key := Paths.Join(dir, cs[i].name);
          Paths.JoinPathOf(rooted, elems, cs[i].name);
          SizesTotals(cfg, rooted, elems + [cs[i].name], cs[i]);
          SizesChild(cfg, rooted, elems, e.name, cs, i);
          SizesKeys(cfg, key, cs[i]);
          TotalsTransfer(cfg, key, cs[i], Sizes(cfg, key, cs[i]), all);
        }
      }
    }
  }

  /**
   * A completed scan of a tree of listings from a clean start path leaves
   * under every directory's path the total of that directory's subtree.
   */
  lemma ScanRecordsTotals(cfg: Config, rooted: bool, elems: seq<string>, e: Entry, t: Table)
    requires Admissible(cfg, e) && Listed(e) && Paths.AllPlain(elems)
    requires ScanDir(cfg, Paths.PathOf(rooted, elems), e, t).Done?
    ensures TotalsHold(cfg, Paths.PathOf(rooted, elems), e, ScanDir(cfg, Paths.PathOf(rooted, elems), e, t).table)
  {
    var dir := Paths.PathOf(rooted, elems);
    ScanSizes(cfg, dir, e, t);
    SizesKeys(cfg, dir, e);
    SizesTotals(cfg, rooted, elems, e);
    TotalsTransfer(cfg, dir, e, Sizes(cfg, dir, e), t + Sizes(cfg, dir, e));
  }

  // ---------------------------------------------------------------------------
  // Additivity of the finished table

  /**
   * What table `t` says the entries `cs` of `dir` add up to: the size of
   * each file and the recorded size of each listable subdirectory among the
   * entries not skipped; a directory that could not be listed adds 0.
   */
  function ChildSum(cfg: Config, dir: string, cs: seq<Entry>, t: Table): nat
    requires AdmissibleAll(cfg, cs)
    decreases cs
  {
    if cs == [] then 0
    else
      var c := cs[0];
      var here :=
        if Skipped(cfg, c) then 0
        else if c.File? then c.size
        else if c.Dir? then Lookup(t, Paths.Join(dir, c.name))
        else 0;
      here + ChildSum(cfg, dir, cs[1..], t)
  }

  /**
   * In table `t`, every listable directory of `e` that is not skipped is
   * recorded with the sum of its files and its subdirectories' recorded sizes.
   */
  predicate SumsHold(cfg: Config, dir: string, e: Entry, t: Table)
    requires Admissible(cfg, e)
    decreases e, 1
  {
    match e
    case Dir(_, cs) => dir in t && t[dir] == ChildSum(cfg, dir, cs, t) && SumsHoldAll(cfg, dir, cs, t)
    case _ => true
  }

  predicate SumsHoldAll(cfg: Config, dir: string, cs: seq<Entry>, t: Table)
    requires AdmissibleAll(cfg, cs)
    decreases cs, 0
  {
    forall i :: 0 <= i < |cs| && !Skipped(cfg, cs[i]) ==> SumsHold(cfg, Paths.Join(dir, cs[i].name), cs[i], t)
  }

  /** When each listable subdirectory is recorded with its total, the entries add up to their total. */
  lemma {:induction false} ChildSumTotal(cfg: Config, dir: string, cs: seq<Entry>, t: Table)
    requires AdmissibleAll(cfg, cs) && TotalOfAll(cfg, cs).Some?
    requires forall i :: 0 <= i < |cs| && !Skipped(cfg, cs[i]) && cs[i].Dir? ==>
               Lookup(t, Paths.Join(dir, cs[i].name)) == TotalOrZero(cfg, cs[i])
    ensures ChildSum(cfg, dir, cs, t) == TotalOfAll(cfg, cs).value
    decreases cs
  {
    if cs != [] {
      assert forall i :: 0 <= i < |cs[1..]| ==> cs[1..][i] == cs[i + 1];
      ChildSumTotal(cfg, dir, cs[1..], t);
    }
  }

  /** Where every directory holds its total, every directory holds the sum of its entries. */
  lemma {:induction false} TotalsGiveSums(cfg: Config, dir: string, e: Entry, t: Table)
    requires Admissible(cfg, e) && TotalOf(cfg, e).Some? && TotalsHold(cfg, dir, e, t)
    ensures SumsHold(cfg, dir, e, t)
    decreases e
  {
    if e.Dir? {
      var cs := e.children;
      assert AdmissibleAll(cfg, cs);
      forall i | 0 <= i < |cs| && !Skipped(cfg, cs[i]) && cs[i].Dir?
        ensures Lookup(t, Paths.Join(dir, cs[i].name)) == TotalOrZero(cfg, cs[i])
      {
        assert TotalsHold(cfg, Paths.Join(dir, cs[i].name), cs[i], t);
      }
      ChildSumTotal(cfg, dir, cs, t);
      forall i | 0 <= i < |cs| && !Skipped(cfg, cs[i])
        ensures SumsHold(cfg, Paths.Join(dir, cs[i].name), cs[i], t)
      {
        if cs[i].Dir? {
          ChildTotalDefined(cfg, cs, i);
          TotalsGiveSums(cfg, Paths.Join(dir, cs[i].name), cs[i], t);
        }
      }
    }
  }

  /**
   * A completed scan of a tree of listings from a clean start path records
   * every directory with the sum of the sizes of its files and the recorded
   * sizes of its subdirectories.
   */
  lemma ScanRecordsSums(cfg: Config, rooted: bool, elems: seq<string>, e: Entry, t: Table)
    requires Admissible(cfg, e) && Listed(e) && Paths.AllPlain(elems)
    requires ScanDir(cfg, Paths.PathOf(rooted, elems), e, t).Done?
    ensures SumsHold(cfg, Paths.PathOf(rooted, elems), e, ScanDir(cfg, Paths.PathOf(rooted, elems), e, t).table)
  {
    var dir := Paths.PathOf(rooted, elems);
    ScanRecordsTotals(cfg, rooted, elems, e, t);
    ScanDirTotal(cfg, dir, e, t);
    TotalsGiveSums(cfg, dir, e, ScanDir(cfg, dir, e, t).table);
  }
}
