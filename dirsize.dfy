/**
 * One run of the program from the point where the table is created: scan
 * the start directory, stop with the scan's error if there is one, otherwise
 * print the report.
 */
module DirSize {
  import opened Wrappers
  import opened FileTree
  import opened ScanSpec
  import opened Scanning
  import opened Lexical
  import opened Reporter
  import opened Megs
  import opened Totals
  import Paths

  /** The lines a run prints, or the error it stops with. */
  ghost function RunSpec(cfg: Config, startDir: string, root: Entry): Result<seq<string>, ScanError>
    requires Admissible(cfg, root)
  {
    match ScanDir(cfg, startDir, root, map[])
    case Aborted(e, _) => Failure(e)
    case Done(_, t) => Success(Report(cfg, startDir, t))
  }

  /** The program after option parsing: a fresh table, the scan, then the report. */
  method Run(cfg: Config, startDir: string, root: Entry) returns (r: Result<seq<string>, ScanError>)
    requires Admissible(cfg, root)
    ensures r == RunSpec(cfg, startDir, root)
  {
    var scanner := new Scanner(cfg);
    var size, err := scanner.ScanDirectory(startDir, root);
    if err.Some? {
      return Failure(err.value);
    }
    var out := Render(cfg, startDir, scanner.dirSizes);
    return Success(out);
  }

  /** A run stops exactly when a directory it has to list cannot be listed and errors are not ignored. */
  lemma RunFails(cfg: Config, startDir: string, root: Entry)
    requires Admissible(cfg, root)
    ensures RunSpec(cfg, startDir, root).Failure? <==> !cfg.ignoreErrors && Fails(cfg, root)
  {
    ScanAborts(cfg, startDir, root, map[]);
  }

  /**
   * In sum mode a successful run prints one line: the total of everything
   * under the start directory that is not skipped, 0 when the start
   * directory itself could not be listed.
   */
  lemma RunSum(cfg: Config, startDir: string, root: Entry)
    requires Admissible(cfg, root) && cfg.sum
    requires RunSpec(cfg, startDir, root).Success?
    ensures TotalOf(cfg, root).Some?
    ensures RunSpec(cfg, startDir, root).value == [FmtMegs(TotalOf(cfg, root).value, cfg.align) + "\n"]
  {
    ScanDirTotal(cfg, startDir, root, map[]);
  }

  predicate StartsWith(line: string, p: string)
  {
    |p| <= |line| && line[..|p|] == p
  }

  /** Line `i` of a listing begins with the `i`-th path and shows its recorded size. */
  lemma LineStartsWithPath(cfg: Config, startDir: string, t: Table, i: nat)
    requires !cfg.sum && i < |SortedDesc(t.Keys)|
    ensures |Report(cfg, startDir, t)| == |SortedDesc(t.Keys)|
    ensures SortedDesc(t.Keys)[i] in t
    ensures StartsWith(Report(cfg, startDir, t)[i], SortedDesc(t.Keys)[i])
    ensures Shows(Report(cfg, startDir, t)[i], Column(SortedDesc(t.Keys)[i], Width(cfg, t)),
                  SortedDesc(t.Keys)[i], t[SortedDesc(t.Keys)[i]])
  {
    ListingLength(cfg, startDir, t);
    ListingLine(cfg, startDir, t, i);
    var L := Report(cfg, startDir, t)[i];
    var p := SortedDesc(t.Keys)[i];
    var col := Column(p, Width(cfg, t));
    assert L[..|p|] == L[..col][..|p|];
  }

  /**
   * Otherwise a successful run prints one line per directory it descended
   * into (the start directory among them when it can be listed), in
   * descending order of path; line `i` begins with the `i`-th path and
   * shows the size the reference table holds for it.
   */
  lemma RunListing(cfg: Config, startDir: string, root: Entry)
    requires Admissible(cfg, root) && !cfg.sum
    requires RunSpec(cfg, startDir, root).Success?
    ensures var out := RunSpec(cfg, startDir, root).value;
      var sizes := Sizes(cfg, startDir, root);
      var paths := SortedDesc(sizes.Keys);
      && sizes.Keys == SubtreeKeys(cfg, startDir, root)
      && |out| == |paths|
      && forall i :: 0 <= i < |out| ==>
           && paths[i] in sizes
           && StartsWith(out[i], paths[i])
           && Shows(out[i], Column(paths[i], Width(cfg, sizes)), paths[i], sizes[paths[i]])
  {
    var sizes := Sizes(cfg, startDir, root);
    ScanSizes(cfg, startDir, root, map[]);
    UnionEmpty(sizes);
    SizesKeys(cfg, startDir, root);
    var t := ScanDir(cfg, startDir, root, map[]).table;
    assert t == sizes;
    ListingLength(cfg, startDir, t);
    forall i | 0 <= i < |SortedDesc(t.Keys)|
      ensures SortedDesc(t.Keys)[i] in t
      ensures StartsWith(Report(cfg, startDir, t)[i], SortedDesc(t.Keys)[i])
      ensures Shows(Report(cfg, startDir, t)[i], Column(SortedDesc(t.Keys)[i], Width(cfg, t)),
                    SortedDesc(t.Keys)[i], t[SortedDesc(t.Keys)[i]])
    {
      LineStartsWithPath(cfg, startDir, t, i);
    }
  }

  /**
   * With listings of plain, distinct names and a clean start path (the
   * default "." among them), the size a listing line shows for a path is
   * the total of that directory's own subtree, and it is the sum of the
   * sizes of its files and of its subdirectories' lines.
   */
  lemma RunTotals(cfg: Config, rooted: bool, elems: seq<string>, root: Entry)
    requires Admissible(cfg, root) && Listed(root) && Paths.AllPlain(elems)
    requires RunSpec(cfg, Paths.PathOf(rooted, elems), root).Success?
    ensures TotalsHold(cfg, Paths.PathOf(rooted, elems), root, Sizes(cfg, Paths.PathOf(rooted, elems), root))
    ensures SumsHold(cfg, Paths.PathOf(rooted, elems), root, Sizes(cfg, Paths.PathOf(rooted, elems), root))
  {
    var startDir := Paths.PathOf(rooted, elems);
    var sizes := Sizes(cfg, startDir, root);
    ScanSizes(cfg, startDir, root, map[]);
    UnionEmpty(sizes);
    ScanRecordsTotals(cfg, rooted, elems, root, map[]);
    ScanRecordsSums(cfg, rooted, elems, root, map[]);
  }

  /**
   * `dirsize --sum --ignore-dotfiles` on a directory holding a 1 MiB file, a
   * hidden file and a subdirectory with a 512 KiB file and a hidden file
   * prints "    1.50 MB".
   */
  lemma SumExample()
    ensures var cfg := Config(true, true, false, true);
      var root := Dir(".", [File("a", 1048576), Dir("sub", [File("b", 524288), File(".c", 7)]), File(".hidden", 100)]);
      && Admissible(cfg, root)
      && RunSpec(cfg, ".", root) == Success(["    1.50 MB\n"])
  {
    var cfg := Config(true, true, false, true);
    var root := Dir(".", [File("a", 1048576), Dir("sub", [File("b", 524288), File(".c", 7)]), File(".hidden", 100)]);
    ExampleTotal();
    ExampleText();
    TotalDefined(cfg, root);
    RunFails(cfg, ".", root);
    assert RunSpec(cfg, ".", root).Success?;
    RunSum(cfg, ".", root);
    assert RunSpec(cfg, ".", root).value == [FmtMegs(1572864, true) + "\n"];
    assert FmtMegs(1572864, true) + "\n" == "    1.50 MB\n";
  }

  /** The hidden files are left out of the example's total: 1.5 MiB. */
  lemma ExampleTotal()
    ensures var cfg := Config(true, true, false, true);
      var root := Dir(".", [File("a", 1048576), Dir("sub", [File("b", 524288), File(".c", 7)]), File(".hidden", 100)]);
      && Admissible(cfg, root)
      && TotalOf(cfg, root) == Some(1572864)
  {
    var cfg := Config(true, true, false, true);
    var sub := Dir("sub", [File("b", 524288), File(".c", 7)]);
    var root := Dir(".", [File("a", 1048576), sub, File(".hidden", 100)]);
    assert Admissible(cfg, root);
    var inner := sub.children;
    assert inner[1..] == [File(".c", 7)] && inner[1..][1..] == [];
    assert TotalOfAll(cfg, inner[1..]) == Some(0);
    assert TotalOf(cfg, sub) == Some(524288);
    var outer := root.children;
    assert outer[1..] == [sub, File(".hidden", 100)];
    assert outer[1..][1..] == [File(".hidden", 100)] && outer[1..][1..][1..] == [];
    assert TotalOfAll(cfg, outer[1..][1..]) == Some(0);
    assert TotalOfAll(cfg, outer[1..]) == Some(524288);
  }

  /** 1.5 MiB prints as 1.50, right-aligned in eight columns. */
  lemma ExampleText()
    ensures FmtMegs(1572864, true) == "    1.50 MB"
  {
    assert Cents(1572864) == 150;
    assert Fixed2(1572864) == "1.50";
  }
}
