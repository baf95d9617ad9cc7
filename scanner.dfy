/**
 * The scanner as the program runs it: one table of directory sizes that a
 * recursive method fills in while it walks the tree.
 */
module Scanning {
  import opened Wrappers
  import opened FileTree
  import opened ScanSpec
  import Paths

  class Scanner {
    /** The options the scan was started with. */
    const cfg: Config
    /** Directory path to cumulative size, filled in as directories complete. */
    var dirSizes: Table

    constructor (cfg: Config)
      ensures this.cfg == cfg && dirSizes == map[]
    {
      this.cfg := cfg;
      dirSizes := map[];
    }

    /**
     * Scans the directory `node` found at path `dir`: returns its total, or
     * an error (and 0) when a listing fails and errors are not ignored. The
     * table ends exactly as ScanDir says, so every property proved of
     * ScanDir holds of this method.
     */
    method ScanDirectory(dir: string, node: Entry) returns (size: nat, err: Option<ScanError>)
      requires Admissible(cfg, node)
      modifies this
      ensures var r := ScanDir(cfg, dir, node, old(dirSizes));
        && dirSizes == r.table
        && (r.Done? ==> err == None && size == r.size)
        && (r.Aborted? ==> err == Some(r.error) && size == 0)
      decreases node
    {
      if !node.Dir? {
        // the listing fails
        if cfg.ignoreErrors {
          return 0, None;
        }
        return 0, Some(ListingFailed(dir));
      }
      var content := node.children;

      var sizeByte: nat := 0;
      for i := 0 to |content|
        invariant AdmissibleAll(cfg, content[i..])
        invariant ScanEntries(cfg, dir, content[i..], sizeByte, dirSizes)
               == ScanEntries(cfg, dir, content, 0, old(dirSizes))
      {
        var c := content[i];
        assert content[i..][0] == c && content[i..][1..] == content[i + 1..];
        assert Admissible(cfg, c) && (cfg.ignoreDotFiles ==> c.name != "");
        if cfg.ignoreDotFiles && c.name[0] == '.' {
          continue;
        }

        if c.IsDir() {
          var ds, e := ScanDirectory(Paths.Join(dir, c.name), c);
          if e.Some? {
            return 0, e;
          }
          sizeByte := sizeByte + ds;
          continue;
        }
        sizeByte := sizeByte + c.size;
      }

      dirSizes := dirSizes[dir := sizeByte];
      return sizeByte, None;
    }
  }
}
