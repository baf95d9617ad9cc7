# dirsize, modelled in Dafny

`dirsize` walks a directory tree and adds up the sizes of everything in it.
For every directory it fully reads, it records that directory's cumulative
size in a table keyed by path. It then prints one of two things:

- in sum mode, the start directory's total as one line such as `    1.50 MB`;
- otherwise, one line per recorded directory. Paths come in descending
  string order, each left-aligned in a field one wider than the longest
  path, followed by ` -- ` and the size in megabytes.

Two options change the walk:

- `--ignore-dotfiles` skips every entry whose name starts with `.`;
- `--ignore-errors` turns a directory that cannot be listed into a
  contribution of 0, where it would otherwise stop the run.

This project models the scanner (`scanDirectory`), the size text (`fmtMegs`)
and the report step of `main`. It proves:

- what the scanner records and returns, and that every recorded path
  holds the total of its own subtree;
- when a run fails;
- which paths are listed, in which order and with which layout;
- that every printed size reads back as the exact byte count rounded to
  hundredths of a megabyte.

Modules, in dependency order:

| module | file | contents |
|---|---|---|
| `Wrappers` | wrappers.dfy | `Option` and `Result` |
| `Paths` | paths.dfy | `path.Join` and `path.Clean`, element by element, and clean paths made of plain names |
| `FileTree` | filetree.dfy | the tree that replaces `ioutil.ReadDir`, what a listing guarantees (`Listed`), and the options |
| `ScanSpec` | scanspec.dfy | the scan as pure functions (`ScanDir`, `ScanEntries`), an independent total (`TotalOf`), the recorded paths (`SubtreeKeys`), and the lemmas relating them |
| `Totals` | totals.dfy | the reference table `Sizes` built from `TotalOf`, and what every recorded path holds |
| `Scanning` | scanner.dfy | class `Scanner` holding `dirSizes`; the recursive method `ScanDirectory` with its loop over the entries |
| `Megs` | megs.dfy | `fmtMegs`: integer rounding to hundredths with ties to even, decimal digits, padding, and a reader for the text |
| `Lexical` | lexical.dfy | Go's string order and the descending order of a key set |
| `Sorting` | sorting.dfy | an in-place insertion sort on an `array<string>`, standing in for `sort.Sort(sort.Reverse(...))` |
| `Reporter` | reporter.dfy | key collection with `maxLen`, padding, the printed lines, and the `Report` they must equal |
| `DirSize` | dirsize.dfy | one run: fresh table, scan, then either the error or the report |

The filesystem is a finite tree of `Entry` values:

- `File(name, size)` is any entry that is not a directory;
- `Dir(name, children)` is a directory that can be listed, with its entries
  in listing order;
- `Unreadable(name)` is a directory whose listing fails.

The scanner's table is `map<string, nat>`. A failed scan returns
`ListingFailed(path)`, where `path` is the directory that could not be
listed.

## Model

| member | source | states |
|---|---|---|
| `Scanning.Scanner.ScanDirectory` | main.go:96-124 | Leaves `dirSizes` exactly as `ScanDir` says. Returns `ScanDir`'s size and no error when it completes, and 0 with the listing error when it aborts. Result and table are therefore a function of the tree, the path, the options and the old table: the scan is deterministic. |
| `Scanning.Scanner.constructor` | main.go:65 | The table starts empty. |
| `ScanSpec.ScanDir` | main.go:96-124 | The scan as a function of the tree, the path, the options and the table: list, loop over the entries, record `dir` last. It aborts only when errors are not ignored; `ScanDirTotal`, `ScanAborts` and `ScanKeys` state what it returns and records. |
| `ScanSpec.ScanEntries` | main.go:105-120 | The entry loop with its running total. It stops at the first subdirectory error and aborts only when errors are not ignored; `ScanEntriesTotal` and `ScanEntriesKeys` state what it returns and records. |
| `FileTree.Skipped` | main.go:107-109 | An entry is passed over exactly when dot files are ignored and its name's first character is `.`. `HiddenEntriesIgnored` shows that skipped entries change nothing. |
| `ScanSpec.ScanDirTotal` | main.go:105-123 | A scan completes exactly when the independent total `TotalOf` is defined. It then returns that total: the sizes of the counted files plus the totals of the counted subdirectories. For a listable directory, that same value is recorded under the directory's own path. |
| `ScanSpec.ScanEntriesTotal` | main.go:105-120 | The entry loop ends normally exactly when the total of the entries is defined. It then returns the starting running total plus that sum. |
| `ScanSpec.UnreadableDirectory` | main.go:97-103 | With errors ignored, a directory that cannot be listed gives 0 and leaves the table untouched. Otherwise the scan aborts with an error naming that directory, again leaving the table untouched. |
| `ScanSpec.TotalDefined` | main.go:97-103 | With errors ignored, the total is always defined. Otherwise it is defined exactly when no directory the scan descends into fails. |
| `ScanSpec.ScanAborts` | main.go:102 | A scan aborts if and only if errors are not ignored and some directory it would descend into, itself included, cannot be listed. |
| `ScanSpec.ScanEntriesAppend` | main.go:111-118 | Scanning `cs1 + cs2` equals scanning `cs1`, then, only if that completed, scanning `cs2`. After an abort no later sibling is visited and nothing more is recorded. |
| `ScanSpec.HiddenEntriesIgnored` | main.go:107-109 | With dot files ignored, the entry loop gives the same result, table and error as the loop over only the entries whose names do not start with `.`. |
| `ScanSpec.HiddenSubtreesIgnored` | main.go:106-109 | Removing the skipped entries from a directory, subtrees included, changes neither its total nor the table nor the error. |
| `ScanSpec.RootNameIgnored` | main.go:96-109 | The start directory's own name is never examined, even when it starts with `.`. A completed scan of a start directory that can be listed always records the start path. |
| `ScanSpec.ScanKeys` | main.go:112-122 | A completed scan adds exactly the paths of the listable, non-skipped directories it descends into, each formed with `path.Join(dir, name)`. An aborted scan removes no earlier key and adds only keys of subdirectories below the aborted directory. |
| `ScanSpec.ScanEntriesKeys` | main.go:106-120 | The same key sets, for the loop over a directory's entries. |
| `ScanSpec.TotalAtMostBytes` | main.go:105-119 | A total never exceeds the bytes stored in the tree's files. |
| `ScanSpec.TotalCountsEverything` | main.go:105-119 | With no dot files skipped and nothing failing, the total is every byte in the tree. |
| `Totals.Sizes` | main.go:96-124 | The reference table: under the path of every listable directory the scan descends into, the total `TotalOf` of its subtree, merged in scan order. |
| `Totals.SizesKeys` | main.go:111-122 | The reference table holds exactly the paths a complete scan records. |
| `Totals.ScanSizes` | main.go:96-124 | A completed scan leaves exactly the starting table updated with the reference table `Sizes`. This holds for every tree. |
| `Totals.KeysBeneath` | main.go:112 | Every path recorded below a directory at a clean path has each of that path's elements as its piece at the same depth. |
| `Totals.DescendantsNotBeneath` | main.go:106-112 | When names in a listing are distinct, no path recorded under one entry lies under a sibling's name. |
| `Totals.DirNotDescendant` | main.go:112-122 | For listings of plain, distinct names, a directory's own path is never recorded for one of its descendants. |
| `Totals.AbortedScanOmitsDir` | main.go:112-122 | For listings of plain, distinct names and a clean path, an aborted scan keeps every earlier key and never adds the aborted directory's own path. |
| `Totals.SizesAllChild` | main.go:106-120 | For such listings, the reference table of a directory's entries agrees with each counted subdirectory's own reference table on that subdirectory's paths: no sibling writes over them. |
| `Totals.SizesChild` | main.go:106-122 | The same one level up: recording the directory's own total last does not overwrite any of its subdirectories' paths. |
| `Totals.SizesTotals` | main.go:96-124 | For such listings and a clean start path, the reference table holds the total of every directory's own subtree under its path. |
| `Totals.TotalsTransfer` | main.go:111-122 | Whether a table holds every directory's total depends only on its entries at the recorded paths. |
| `Totals.ScanRecordsTotals` | main.go:96-124 | A completed scan of such a tree from a clean path leaves, under every directory's path, the total of that directory's subtree. |
| `Totals.ChildSumTotal` | main.go:105-120 | When each counted subdirectory is recorded with its total, its files' sizes plus its subdirectories' recorded sizes add up to the entries' total. |
| `Totals.TotalsGiveSums` | main.go:105-122 | A table in which every directory holds its total also records each directory with the sum of its files' sizes and its subdirectories' recorded sizes. |
| `Totals.ScanRecordsSums` | main.go:105-122 | A completed scan of such a tree from a clean path records every directory with the sum of the sizes of its files and the recorded sizes of its subdirectories. |
| `Paths.Join` | main.go:112 | `path.Join(dir, name)`: the non-empty arguments joined by `/`, then cleaned. `JoinPathOf` states what it gives for the keys a scan forms. |
| `Paths.Clean` | main.go:112 | `path.Clean`: split at every slash, drop empty and `.` elements, let `..` remove the element before it, rejoin. The result is never empty. |
| `Paths.JoinPathOf` | main.go:112 | Joining a plain child name to a clean path of plain names gives the clean path with that name added as its last element. |
| `Paths.SplitPathOf` | main.go:112 | The pieces between the slashes of a clean path are its elements, after a leading empty piece when it is rooted. |
| `Paths.PathNotBeneath` | main.go:112 | A clean path never has a plain name as a piece one level below its last element. A directory's path is therefore never the path of one of its descendants. |
| `Paths.JoinRelative` | main.go:112 | Joining a plain child name to a clean relative path is concatenation with `/`. |
| `Paths.JoinDot` | main.go:112 | Under the start directory `.`, a child's key is its bare name. |
| `Paths.JoinAbsolute` | main.go:112 | Joining a plain child name to a clean absolute path gives the absolute path of that child. |
| `Megs.FmtMegs` | main.go:126-132 | `%8.2f MB` with alignment, `%.2f MB` without, of `b / 1048576`. `FmtMegsReadsBack` and `FmtMegsWidth` state its value and width. |
| `Megs.Cents` | main.go:131 | The number of hundredths `%.2f` prints, rounded half to even on integers. `CentsNearest` and `CentsUnique` show it is the correctly rounded value. |
| `Megs.Fixed2` | main.go:131 | The whole megabytes in decimal, a point, then two digits of hundredths. |
| `Megs.CentsNearest` | main.go:131 | The printed hundredths are within half a hundredth of the exact value `b / 1048576`. On an exact tie they are even, as `%.2f` rounds. |
| `Megs.CentsUnique` | main.go:131 | No other count of hundredths meets that rounding rule, so the printed value is determined. |
| `Megs.DecimalRoundTrip` | main.go:131 | The digits printed for a whole number read back as that number. |
| `Megs.FmtMegsReadsBack` | main.go:126-132 | Both size texts, `%8.2f MB` and `%.2f MB`, read back as exactly the rounded number of hundredths. |
| `Megs.FmtMegsWidth` | main.go:127-130 | The aligned text is at least 11 characters, and exactly 11 when the printed value is below 100000.00 MB. The unaligned text starts with a digit. |
| `Lexical.Less` | main.go:84 | Go's `<` on strings: the first differing character decides, and a proper prefix comes first. `LessIrreflexive`, `LessTransitive` and `LessTotal` make it a strict total order. |
| `Lexical.LessTransitive` | main.go:84 | String order is transitive. |
| `Lexical.LessTotal` | main.go:84 | Any two different strings are ordered one way or the other. |
| `Lexical.SortedDesc` | main.go:84 | The descending order of a key set: same elements, same count, every later path below every earlier one. |
| `Lexical.DescendingUnique` | main.go:84 | Two strictly descending sequences with the same elements are equal. Any correct sort of distinct paths therefore prints the same order. |
| `Sorting.SortDescending` | main.go:84 | After the in-place sort, no element of the array is below the one after it, and the array holds the same multiset of paths. |
| `Sorting.PermutationDistinct` | main.go:84 | Rearranging distinct paths keeps them distinct. |
| `Sorting.DistinctDescending` | main.go:84 | Distinct paths in non-increasing order are strictly descending. |
| `Reporter.Utf8Len` | main.go:80-81 | Go's `len` on a path is between its character count and four times it. |
| `Reporter.AsciiLen` | main.go:80-81 | On ASCII paths, `len` is the character count. |
| `Reporter.MaxLen` | main.go:77-83 | The computed maximum bounds every key's byte length. It is reached by some key when there are keys, and is 0 when there are none. |
| `Reporter.MaxLenUnique` | main.go:77-83 | Any bound on the key lengths that is 0 or reached by a key is that maximum. |
| `Reporter.CollectPaths` | main.go:76-83 | Whatever order the map yields keys in, the loop collects every key exactly once. Its `maxLen` is `MaxLen` of the keys. |
| `Reporter.Render` | main.go:71-93 | The lines written are exactly `Report`. In sum mode that is one line for the start directory. Otherwise it is one line per key, in descending order, padded to `maxLen + 1` with `maxLen` zeroed when alignment is off. |
| `Reporter.WriteLines` | main.go:91-93 | The printing loop writes, in order, one line per sorted path with that path's size. |
| `Reporter.SortedPaths` | main.go:84 | The sorted copy of the collected keys is the descending order of the table's keys. |
| `Reporter.Line` | main.go:90-92 | One listing line: the path padded to the field, ` -- `, the size text, and a newline. `LineLayout` states its layout. |
| `Reporter.Report` | main.go:71-92 | Everything the report writes. In sum mode it is the start directory's size text. Otherwise it is one `Line` per key, in descending order, with field width `maxLen + 1`. |
| `Reporter.PadRight` | main.go:90 | `%-Ns` keeps the text as its prefix, fills with spaces up to `N`, and never cuts. |
| `Reporter.SumLine` | main.go:71-73 | Sum mode prints one line. Its size text reads back as the start directory's recorded size, or 0 if it has none. |
| `Reporter.ListingLength` | main.go:91-93 | Listing mode prints exactly one line per table key. |
| `Reporter.FieldFits` | main.go:80-90 | With alignment on, every key is shorter than the field width `maxLen + 1`. |
| `Reporter.LineLayout` | main.go:90-92 | A line is the path, spaces up to the separator column, ` -- `, a size text that reads back as the size, and a newline. |
| `Reporter.ListingLine` | main.go:84-92 | Line `i` shows the `i`-th key in descending order and that key's recorded size. With alignment on, the separator starts at the same column, `maxLen + 1`, on every line. |
| `Reporter.ListingColumns` | main.go:86-92 | With alignment on and every printed value below 100000.00 MB, all lines have the same length, so paths and sizes each form one column. |
| `DirSize.Run` | main.go:65-93 | A run returns the scan's error when the scan aborts, and otherwise the lines of `Report` on the table the scan built from an empty one. |
| `DirSize.RunFails` | main.go:67-69 | A run fails if and only if errors are not ignored and some directory it descends into cannot be listed. |
| `DirSize.RunSum` | main.go:67-73 | A successful sum-mode run prints one line: the total of everything not skipped below the start directory, or 0 when the start directory itself could not be listed. |
| `DirSize.RunListing` | main.go:67-92 | A successful listing run prints one line per directory it descended into, in descending order of path. The start directory is among them when it can be listed. Line `i` begins with the `i`-th path and shows the size the reference table `Sizes` holds for that path. |
| `DirSize.RunTotals` | main.go:67-122 | For listings of plain, distinct names and a clean start path (the default `.` included), the table a successful run prints holds for every directory the total of its own subtree. Each directory's size is also the sum of its files' sizes and its subdirectories' printed sizes. |
| `DirSize.SumExample` | main.go:65-73 | With dot files ignored, a 1 MiB file plus a subdirectory with a 512 KiB file, next to hidden files, prints `    1.50 MB`. |

## Left out

- Option parsing, `--version` and the exit on bad flags (main.go:39-48). These
  go through the `rconfig` library, which is not part of this model. The
  options arrive as a `Config` value.
- The start-directory argument (main.go:51-54) is a parameter of `Run`.
- The output destination: `os.Create`, standard output and `nopWCloser`
  (main.go:56-63, 134-142). The printed lines are returned as a sequence,
  one string per `Fprintln`/`Fprintf` call.
- `log.Fatalf`: a failed scan is returned as `Failure`.
- `ioutil.ReadDir` (main.go:97) is replaced by the tree. Its listing order is
  the order of `children`. Every kind of listing error (permission, vanished
  path, not a directory) is one `Unreadable` node. A non-directory start path
  is an `Unreadable` root as well, since listing it fails.
- `ioutil.ReadDir` also guarantees that a listing's names are plain (no
  slash, not `.` or `..`), distinct and sorted by name. `FileTree.Listed`
  captures the first two, which the per-path results in `Totals` require.
  Sorting is left out: none of the proved properties needs sorted listings.
  Which failing directory an aborted run names, and what it recorded before
  stopping, follow the order of `children`.
  Without `Listed`, two entries of one directory with the same name would
  share a key, and the later one's total would win (`Totals.ScanSizes` still
  holds).
- Totals.ScanRecordsTotals: the per-path results assume the start path is a
  clean path of plain names, such as `.`, `a/b` or `/home/u`. For a start
  path like `a/../a` or `a//b`, only `Totals.ScanSizes` applies.
- Symbolic links and cycles. A finite tree makes the walk terminate.
- The unused `dirSizesLock` and `wg` (main.go:33-34). The walk is sequential.
- Scanning.Scanner.ScanDirectory: sizes are unbounded naturals, so `int64`
  overflow of `sizeByte` is not modelled. `ScanSpec.TotalAtMostBytes` bounds
  every total by the bytes actually stored in the tree.
- Megs.FmtMegs: exact only while `float64(b)` is exact, that is below 2^53
  bytes (8 PiB). Above that, the source rounds the byte count to a double
  before dividing, and the model does not.
- Sorting.SortDescending: an insertion sort stands in for Go's
  `sort.Sort`. Keys are distinct, so `Lexical.DescendingUnique` shows every
  correct sort prints the same order.
- Lexical.Less: compares Unicode code points. Go compares UTF-8 bytes, which
  order valid UTF-8 the same way; that equivalence is assumed, not proved.
  Names that are not valid UTF-8 cannot be written as Dafny strings and are
  not modelled.
- Empty entry names: `c.Name()[0]` panics on an empty name when dot files are
  ignored. Names are required to be non-empty in that mode (`Admissible`);
  without the option, the name is never indexed and may be anything.
- `path.Join` and `path.Clean` come from Go's standard library, which is not
  part of this model. They are written from that package's documented rules.
  The lemmas cover the cases a directory listing produces: plain names with
  no slash, not `.` and not `..`.
- `Reporter.Render`: Go's map iteration order is random. `CollectPaths`
  picks keys in arbitrary order with `:|`, and its contract holds for every
  order.
