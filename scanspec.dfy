/**
 * What one call of the scanner computes, as functions of the tree, the
 * options and the table it starts from.
 *
 * ScanDir follows the recursive scan step by step: it lists the directory,
 * walks the entries in order with a running total, recurses into each
 * subdirectory under the key `path.Join(dir, name)`, stops at the first
 * error it does not absorb, and records the total under `dir` last.
 * TotalOf and SubtreeKeys say independently what the total and the set of
 * recorded directories should be; the lemmas connect the two views.
 */
module ScanSpec {
  import opened Wrappers
  import opened FileTree
  import Paths

  /** Directory path to cumulative size in bytes. */
  type Table = map<string, nat>

  /** `dirSizes[p]`: a path that was never recorded reads as Go's zero value. */
  function Lookup(t: Table, p: string): nat
  {
    if p in t then t[p] else 0
  }

  /** The listing error that aborts a scan, with the path that could not be listed. */
  datatype ScanError = ListingFailed(path: string)

  /**
   * The end of a scan: its total and the table, or the error and the table
   * as the aborted scan left it.
   */
  datatype Scan =
    | Done(size: nat, table: Table)
    | Aborted(error: ScanError, table: Table)

  /** Scanning directory `e` at path `dir`, starting from table `t`. */
  function ScanDir(cfg: Config, dir: string, e: Entry, t: Table): (r: Scan)
    requires Admissible(cfg, e)
    ensures r.Aborted? ==> !cfg.ignoreErrors
    decreases e, 1
  {
    match e
    case Dir(_, cs) =>
      (match ScanEntries(cfg, dir, cs, 0, t)
       case Done(size, t') => Done(size, t'[dir := size])
       case Aborted(err, t') => Aborted(err, t'))
    case _ =>
      // listing a file or an unreadable directory fails
      if cfg.ignoreErrors then Done(0, t) else Aborted(ListingFailed(dir), t)
  }

  /** The loop over the entries `cs` of `dir`, with running total `acc`. */
  function ScanEntries(cfg: Config, dir: string, cs: seq<Entry>, acc: nat, t: Table): (r: Scan)
    requires AdmissibleAll(cfg, cs)
    ensures r.Aborted? ==> !cfg.ignoreErrors
    decreases cs, 0
  {
    if cs == [] then Done(acc, t)
    else
      var c := cs[0];
      if Skipped(cfg, c) then ScanEntries(cfg, dir, cs[1..], acc, t)
      else if c.IsDir() then
        match ScanDir(cfg, Paths.Join(dir, c.name), c, t)
        case Aborted(err, t') => Aborted(err, t')
        case Done(ds, t') => ScanEntries(cfg, dir, cs[1..], acc + ds, t')
      else ScanEntries(cfg, dir, cs[1..], acc + c.size, t)
  }

  /**
   * The size a scan of `e` reports, computed without a table: the sizes of
   * the files and the totals of the subdirectories among the entries that
   * are not skipped, or None when a listing error is not absorbed.
   */
  function TotalOf(cfg: Config, e: Entry): Option<nat>
    requires Admissible(cfg, e)
    decreases e, 1
  {
    match e
    case Dir(_, cs) => TotalOfAll(cfg, cs)
    case _ => if cfg.ignoreErrors then Some(0) else None
  }

  function TotalOfAll(cfg: Config, cs: seq<Entry>): Option<nat>
    requires AdmissibleAll(cfg, cs)
    decreases cs, 0
  {
    if cs == [] then Some(0)
    else
      var rest := TotalOfAll(cfg, cs[1..]);
      if Skipped(cfg, cs[0]) then rest
      else
        var here := if cs[0].IsDir() then TotalOf(cfg, cs[0]) else Some(cs[0].size);
        if here.Some? && rest.Some? then Some(here.value + rest.value) else None
  }

  /** Whether some directory that is not skipped, `e` itself included, cannot be listed. */
  predicate Fails(cfg: Config, e: Entry)
    requires Admissible(cfg, e)
    decreases e, 1
  {
    match e
    case Dir(_, cs) => FailsAll(cfg, cs)
    case _ => true
  }

  predicate FailsAll(cfg: Config, cs: seq<Entry>)
    requires AdmissibleAll(cfg, cs)
    decreases cs, 0
  {
    cs != [] &&
    ((!Skipped(cfg, cs[0]) && cs[0].IsDir() && Fails(cfg, cs[0])) || FailsAll(cfg, cs[1..]))
  }

  /** The paths a complete scan of `e` at `dir` records: every listable directory not skipped. */
  function SubtreeKeys(cfg: Config, dir: string, e: Entry): set<string>
    requires Admissible(cfg, e)
    decreases e, 1
  {
    match e
    case Dir(_, cs) => {dir} + DescendantKeys(cfg, dir, cs)
    case _ => {}
  }

  /** The paths recorded for the subdirectories among the entries `cs` of `dir`. */
  function DescendantKeys(cfg: Config, dir: string, cs: seq<Entry>): set<string>
    requires AdmissibleAll(cfg, cs)
    decreases cs, 0
  {
    if cs == [] then {}
    else
      var c := cs[0];
      var here := if Skipped(cfg, c) || !c.IsDir() then {} else SubtreeKeys(cfg, Paths.Join(dir, c.name), c);
      here + DescendantKeys(cfg, dir, cs[1..])
  }

  // ---------------------------------------------------------------------------
  // Totals and additivity

  /**
   * The loop ends normally exactly when the reference total is defined, and
   * then its total is the running total it started with plus that sum.
   */
  lemma {:induction false} ScanEntriesTotal(cfg: Config, dir: string, cs: seq<Entry>, acc: nat, t: Table)
    requires AdmissibleAll(cfg, cs)
    ensures ScanEntries(cfg, dir, cs, acc, t).Done? <==> TotalOfAll(cfg, cs).Some?
    ensures ScanEntries(cfg, dir, cs, acc, t).Done? ==>
              ScanEntries(cfg, dir, cs, acc, t).size == acc + TotalOfAll(cfg, cs).value
    decreases cs, 0
  {
    if cs != [] {
      var c := cs[0];
      if Skipped(cfg, c) {
        ScanEntriesTotal(cfg, dir, cs[1..], acc, t);
      } else if c.IsDir() {
        var key := Paths.Join(dir, c.name);
        ScanDirTotal(cfg, key, c, t);
        match ScanDir(cfg, key, c, t)
        case Aborted(_, _) =>
        case Done(ds, t') =>
          ScanEntriesTotal(cfg, dir, cs[1..], acc + ds, t');
          ScanEntriesTotal(cfg, dir, cs[1..], acc + ds, t);
      } else {
        ScanEntriesTotal(cfg, dir, cs[1..], acc + c.size, t);
      }
    }
  }

  /**
   * Additivity and table independence: a scan succeeds exactly when TotalOf
   * is defined, returns that total whatever the path and the starting table,
   * and records it under the directory's own path.
   */
  lemma {:induction false} ScanDirTotal(cfg: Config, dir: string, e: Entry, t: Table)
    requires Admissible(cfg, e)
    ensures ScanDir(cfg, dir, e, t).Done? <==> TotalOf(cfg, e).Some?
    ensures ScanDir(cfg, dir, e, t).Done? ==> ScanDir(cfg, dir, e, t).size == TotalOf(cfg, e).value
    ensures ScanDir(cfg, dir, e, t).Done? && e.Dir? ==>
              dir in ScanDir(cfg, dir, e, t).table && ScanDir(cfg, dir, e, t).table[dir] == TotalOf(cfg, e).value
    decreases e, 1
  {
    if e.Dir? {
      ScanEntriesTotal(cfg, dir, e.children, 0, t);
    }
  }

  /** A directory that cannot be listed: 0 and no entry when absorbed, an abort naming it otherwise. */
  lemma UnreadableDirectory(cfg: Config, dir: string, name: string, t: Table)
    ensures cfg.ignoreErrors ==> ScanDir(cfg, dir, Unreadable(name), t) == Done(0, t)
    ensures !cfg.ignoreErrors ==> ScanDir(cfg, dir, Unreadable(name), t) == Aborted(ListingFailed(dir), t)
  {
  }

  // ---------------------------------------------------------------------------
  // Errors

  /** With errors ignored the reference total is always defined; otherwise exactly when nothing fails. */
  lemma {:induction false} TotalDefined(cfg: Config, e: Entry)
    requires Admissible(cfg, e)
    ensures TotalOf(cfg, e).None? <==> !cfg.ignoreErrors && Fails(cfg, e)
    decreases e, 1
  {
    if e.Dir? {
      TotalAllDefined(cfg, e.children);
    }
  }

  lemma {:induction false} TotalAllDefined(cfg: Config, cs: seq<Entry>)
    requires AdmissibleAll(cfg, cs)
    ensures TotalOfAll(cfg, cs).None? <==> !cfg.ignoreErrors && FailsAll(cfg, cs)
    decreases cs, 0
  {
    if cs != [] {
      TotalAllDefined(cfg, cs[1..]);
      if !Skipped(cfg, cs[0]) && cs[0].IsDir() {
        TotalDefined(cfg, cs[0]);
      }
    }
  }

  /**
   * A scan aborts exactly when errors are not ignored and some directory it
   * would descend into (the start directory included) cannot be listed.
   */
  lemma ScanAborts(cfg: Config, dir: string, e: Entry, t: Table)
    requires Admissible(cfg, e)
    ensures ScanDir(cfg, dir, e, t).Aborted? <==> !cfg.ignoreErrors && Fails(cfg, e)
  {
    ScanDirTotal(cfg, dir, e, t);
    TotalDefined(cfg, e);
  }

  /**
   * The loop over `cs1 + cs2` is the loop over `cs1` and then, only if that
   * ended normally, the loop over `cs2`: after an abort no later sibling is
   * visited and nothing more is recorded.
   */
  lemma {:induction false} ScanEntriesAppend(cfg: Config, dir: string, cs1: seq<Entry>, cs2: seq<Entry>, acc: nat, t: Table)
    requires AdmissibleAll(cfg, cs1) && AdmissibleAll(cfg, cs2)
    ensures AdmissibleAll(cfg, cs1 + cs2)
    ensures ScanEntries(cfg, dir, cs1, acc, t).Aborted? ==>
              ScanEntries(cfg, dir, cs1 + cs2, acc, t) == ScanEntries(cfg, dir, cs1, acc, t)
    ensures ScanEntries(cfg, dir, cs1, acc, t).Done? ==>
              ScanEntries(cfg, dir, cs1 + cs2, acc, t) ==
              ScanEntries(cfg, dir, cs2, ScanEntries(cfg, dir, cs1, acc, t).size, ScanEntries(cfg, dir, cs1, acc, t).table)
    decreases cs1
  {
    var cs := cs1 + cs2;
    assert AdmissibleAll(cfg, cs) by {
      if cfg.ignoreDotFiles {
        forall i | 0 <= i < |cs| ensures cs[i].name != "" && Named(cs[i]) {
          if i >= |cs1| { assert cs[i] == cs2[i - |cs1|]; }
        }
      }
    }
    if cs1 != [] {
      assert cs[0] == cs1[0] && cs[1..] == cs1[1..] + cs2;
      var c := cs1[0];
      if Skipped(cfg, c) {
        ScanEntriesAppend(cfg, dir, cs1[1..], cs2, acc, t);
      } else if c.IsDir() {
        match ScanDir(cfg, Paths.Join(dir, c.name), c, t)
        case Aborted(_, _) =>
        case Done(ds, t') => ScanEntriesAppend(cfg, dir, cs1[1..], cs2, acc + ds, t');
      } else {
        ScanEntriesAppend(cfg, dir, cs1[1..], cs2, acc + c.size, t);
      }
    } else {
      assert cs == cs2;
    }
  }

  // ---------------------------------------------------------------------------
  // Dot files

  /** With dot files ignored, the loop behaves as if the dot entries were not listed at all. */
  lemma {:induction false} HiddenEntriesIgnored(cfg: Config, dir: string, cs: seq<Entry>, acc: nat, t: Table)
    requires AdmissibleAll(cfg, cs)
    ensures ScanEntries(cfg, dir, cs, acc, t) == ScanEntries(cfg, dir, Visible(cfg, cs), acc, t)
    decreases cs
  {
    if cs != [] {
      var c := cs[0];
      if Skipped(cfg, c) {
        assert Visible(cfg, cs) == Visible(cfg, cs[1..]);
        HiddenEntriesIgnored(cfg, dir, cs[1..], acc, t);
      } else {
        VisibleEntryKept(cfg, dir, cs, acc, t);
      }
    }
  }

  /** The step of HiddenEntriesIgnored for an entry that is not skipped. */
  lemma {:induction false} VisibleEntryKept(cfg: Config, dir: string, cs: seq<Entry>, acc: nat, t: Table)
    requires AdmissibleAll(cfg, cs) && cs != [] && !Skipped(cfg, cs[0])
    ensures ScanEntries(cfg, dir, cs, acc, t) == ScanEntries(cfg, dir, Visible(cfg, cs), acc, t)
    decreases cs, 1
  {
    var c := cs[0];
    var rest := Visible(cfg, cs[1..]);
    var vs := [c] + rest;
    assert Visible(cfg, cs) == vs;
    assert vs[0] == c && vs[1..] == rest;
    if c.IsDir() {
      var r := ScanDir(cfg, Paths.Join(dir, c.name), c, t);
      if r.Done? {
        HiddenEntriesIgnored(cfg, dir, cs[1..], acc + r.size, r.table);
      }
    } else {
      HiddenEntriesIgnored(cfg, dir, cs[1..], acc + c.size, t);
    }
  }

  /**
   * A dot entry, file or directory, changes nothing: scanning a directory
   * gives the same total, table and error as scanning it with the skipped
   * entries removed.
   */
  lemma HiddenSubtreesIgnored(cfg: Config, dir: string, name: string, cs: seq<Entry>, t: Table)
    requires Admissible(cfg, Dir(name, cs))
    ensures Admissible(cfg, Dir(name, Visible(cfg, cs)))
    ensures ScanDir(cfg, dir, Dir(name, cs), t) == ScanDir(cfg, dir, Dir(name, Visible(cfg, cs)), t)
  {
    HiddenEntriesIgnored(cfg, dir, cs, 0, t);
  }

  /** The start directory's own name is never looked at, even when it starts with '.'. */
  lemma RootNameIgnored(cfg: Config, dir: string, name1: string, name2: string, cs: seq<Entry>, t: Table)
    requires AdmissibleAll(cfg, cs)
    ensures ScanDir(cfg, dir, Dir(name1, cs), t) == ScanDir(cfg, dir, Dir(name2, cs), t)
    ensures ScanDir(cfg, dir, Dir(name1, cs), t).Done? ==> dir in ScanDir(cfg, dir, Dir(name1, cs), t).table
  {
  }

  // ---------------------------------------------------------------------------
  // Recorded keys

  /**
   * A completed scan adds exactly the paths of the listable directories it
   * descended into; an aborted one keeps every earlier entry and adds only
   * paths of subdirectories, never `dir` itself.
   */
  lemma {:induction false} ScanKeys(cfg: Config, dir: string, e: Entry, t: Table)
    requires Admissible(cfg, e)
    ensures ScanDir(cfg, dir, e, t).Done? ==>
              ScanDir(cfg, dir, e, t).table.Keys == t.Keys + SubtreeKeys(cfg, dir, e)
    ensures ScanDir(cfg, dir, e, t).Aborted? ==>
              t.Keys <= ScanDir(cfg, dir, e, t).table.Keys <=
              t.Keys + (if e.Dir? then DescendantKeys(cfg, dir, e.children) else {})
    decreases e, 1
  {
    if e.Dir? {
      ScanEntriesKeys(cfg, dir, e.children, 0, t);
    }
  }

  lemma {:induction false} ScanEntriesKeys(cfg: Config, dir: string, cs: seq<Entry>, acc: nat, t: Table)
    requires AdmissibleAll(cfg, cs)
    ensures ScanEntries(cfg, dir, cs, acc, t).Done? ==>
              ScanEntries(cfg, dir, cs, acc, t).table.Keys == t.Keys + DescendantKeys(cfg, dir, cs)
    ensures ScanEntries(cfg, dir, cs, acc, t).Aborted? ==>
              t.Keys <= ScanEntries(cfg, dir, cs, acc, t).table.Keys <= t.Keys + DescendantKeys(cfg, dir, cs)
    decreases cs, 0
  {
    if cs != [] {
      var c := cs[0];
      var later := DescendantKeys(cfg, dir, cs[1..]);
      if Skipped(cfg, c) {
        assert DescendantKeys(cfg, dir, cs) == later;
        ScanEntriesKeys(cfg, dir, cs[1..], acc, t);
      } else if c.IsDir() {
        var key := Paths.Join(dir, c.name);
        assert DescendantKeys(cfg, dir, cs) == SubtreeKeys(cfg, key, c) + later;
        ScanKeys(cfg, key, c, t);
        match ScanDir(cfg, key, c, t)
        case Aborted(_, t') =>
          assert ScanEntries(cfg, dir, cs, acc, t) == Aborted(ScanDir(cfg, key, c, t).error, t');
        case Done(ds, t') =>
          assert ScanEntries(cfg, dir, cs, acc, t) == ScanEntries(cfg, dir, cs[1..], acc + ds, t');
          ScanEntriesKeys(cfg, dir, cs[1..], acc + ds, t');
      } else {
        assert DescendantKeys(cfg, dir, cs) == later;
        ScanEntriesKeys(cfg, dir, cs[1..], acc + c.size, t);
      }
    }
  }

  // ---------------------------------------------------------------------------
  // Bounds

  /** The total never exceeds the bytes stored in the tree, so it fits wherever they do. */
  lemma {:induction false} TotalAtMostBytes(cfg: Config, e: Entry)
    requires Admissible(cfg, e)
    ensures TotalOf(cfg, e).Some? ==> TotalOf(cfg, e).value <= Bytes(e)
    decreases e, 1
  {
    if e.Dir? {
      TotalAllAtMostBytes(cfg, e.children);
    }
  }

  lemma {:induction false} TotalAllAtMostBytes(cfg: Config, cs: seq<Entry>)
    requires AdmissibleAll(cfg, cs)
    ensures TotalOfAll(cfg, cs).Some? ==> TotalOfAll(cfg, cs).value <= BytesAll(cs)
    decreases cs, 0
  {
    if cs != [] {
      TotalAllAtMostBytes(cfg, cs[1..]);
      if cs[0].IsDir() {
        TotalAtMostBytes(cfg, cs[0]);
      }
    }
  }

  /** With nothing skipped and nothing failing, the total is every byte in the tree. */
  lemma {:induction false} TotalCountsEverything(cfg: Config, e: Entry)
    requires !cfg.ignoreDotFiles && !Fails(cfg, e)
    ensures TotalOf(cfg, e) == Some(Bytes(e))
    decreases e, 1
  {
    if e.Dir? {
      TotalAllCountsEverything(cfg, e.children);
    }
  }

  lemma {:induction false} TotalAllCountsEverything(cfg: Config, cs: seq<Entry>)
    requires !cfg.ignoreDotFiles && !FailsAll(cfg, cs)
    ensures TotalOfAll(cfg, cs) == Some(BytesAll(cs))
    decreases cs, 0
  {
    if cs != [] {
      TotalAllCountsEverything(cfg, cs[1..]);
      if cs[0].IsDir() {
        TotalCountsEverything(cfg, cs[0]);
      }
    }
  }
}
