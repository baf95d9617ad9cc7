/**
 * The filesystem as the scanner sees it, and the options it is run with.
 *
 * A directory listing (`ioutil.ReadDir`) is replaced by a finite tree: a
 * directory node carries its entries in listing order, and a node whose
 * listing fails stands for a permission error, a vanished path or any other
 * read error.
 */
module FileTree {
  import Paths

  datatype Entry =
    | File(name: string, size: nat)            // any entry that is not a directory
    | Dir(name: string, children: seq<Entry>)  // a directory that can be listed
    | Unreadable(name: string)                 // a directory whose listing fails
  {
    /** `FileInfo.IsDir()`. */
    predicate IsDir()
    {
      !File?
    }
  }

  /** The options the core reads; the command-line layer that fills them is not modelled. */
  datatype Config = Config(
    align: bool,           // pad paths and sizes into columns
    ignoreDotFiles: bool,  // skip entries whose name starts with '.'
    ignoreErrors: bool,    // a directory that cannot be listed counts 0
    sum: bool)             // report the root's total only

  /** Whether a name counts as a dot file; only its first character is looked at. */
  predicate Hidden(name: string)
    requires name != ""
  {
    name[0] == '.'
  }

  /**
   * Whether the scan passes over entry `c` without looking at it. The first
   * character of the name is only read when the option is on, so an empty
   * name only matters then.
   */
  predicate Skipped(cfg: Config, c: Entry)
    requires cfg.ignoreDotFiles ==> c.name != ""
  {
    cfg.ignoreDotFiles && Hidden(c.name)
  }

  /** Every entry below `e` (not `e` itself) has a non-empty name. */
  predicate Named(e: Entry)
    decreases e, 1
  {
    match e
    case Dir(_, cs) => NamedAll(cs)
    case _ => true
  }

  predicate NamedAll(cs: seq<Entry>)
    decreases cs, 0
  {
    forall i :: 0 <= i < |cs| ==> cs[i].name != "" && Named(cs[i])
  }

  /** What the scan may assume about the tree under `cfg`. */
  predicate Admissible(cfg: Config, e: Entry)
  {
    cfg.ignoreDotFiles ==> Named(e)
  }

  predicate AdmissibleAll(cfg: Config, cs: seq<Entry>)
  {
    cfg.ignoreDotFiles ==> NamedAll(cs)
  }

  /** The entries of `cs` that the scan does not skip, in listing order. */
  function Visible(cfg: Config, cs: seq<Entry>): (r: seq<Entry>)
    requires AdmissibleAll(cfg, cs)
    ensures |r| <= |cs|
    ensures !cfg.ignoreDotFiles ==> r == cs
    ensures AdmissibleAll(cfg, r)
  {
    if cs == [] then []
    else
      var rest := Visible(cfg, cs[1..]);
      if Skipped(cfg, cs[0]) then rest else [cs[0]] + rest
  }

  /** All bytes stored in files anywhere in the tree. */
  function Bytes(e: Entry): nat
    decreases e, 1
  {
    match e
    case File(_, size) => size
    case Dir(_, cs) => BytesAll(cs)
    case Unreadable(_) => 0
  }

  function BytesAll(cs: seq<Entry>): nat
    decreases cs, 0
  {
    if cs == [] then 0 else Bytes(cs[0]) + BytesAll(cs[1..])
  }

  /**
   * What `ioutil.ReadDir` guarantees of every listing in the tree: each
   * name is a plain name (not empty, not "." or "..", no slash) and no name
   * occurs twice in one directory.
   */
  predicate Listed(e: Entry)
    decreases e, 1
  {
    match e
    case Dir(_, cs) => ListedAll(cs)
    case _ => true
  }

  predicate ListedAll(cs: seq<Entry>)
    decreases cs, 0
  {
    && (forall i :: 0 <= i < |cs| ==> Paths.PlainName(cs[i].name) && Listed(cs[i]))
    && (forall i, j :: 0 <= i < j < |cs| ==> cs[i].name != cs[j].name)
  }

  /** The rest of a listing is a listing, and it does not hold the first name again. */
  lemma ListedTail(cs: seq<Entry>)
    requires ListedAll(cs) && cs != []
    ensures ListedAll(cs[1..])
    ensures forall i :: 0 <= i < |cs[1..]| ==> cs[1..][i].name != cs[0].name
  {
    forall i, j | 0 <= i < j < |cs[1..]|
      ensures cs[1..][i].name != cs[1..][j].name
    {
      assert cs[1..][i] == cs[i + 1] && cs[1..][j] == cs[j + 1];
    }
    forall i | 0 <= i < |cs[1..]|
      ensures cs[1..][i].name != cs[0].name
    {
      assert cs[1..][i] == cs[i + 1];
    }
  }
}
