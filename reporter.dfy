/**
 * The report the program prints once the scan has filled the table: the
 * root's total alone in sum mode, otherwise one line per recorded directory,
 * paths in descending order, each padded to the width of the longest path
 * plus one (or to width one when alignment is off), then " -- " and the
 * size text.
 */
module Reporter {
  import opened Wrappers
  import opened FileTree
  import opened ScanSpec
  import opened Lexical
  import opened Sorting
  import opened Megs

  /** Bytes Go's UTF-8 encoding spends on one character. */
  function CharBytes(c: char): nat
  {
    if c as int < 0x80 then 1
    else if c as int < 0x800 then 2
    else if c as int < 0x10000 then 3
    else 4
  }

  /** `len(s)` in Go: the length of the UTF-8 encoding. */
  function Utf8Len(s: string): (n: nat)
    ensures |s| <= n <= 4 * |s|
  {
    if s == [] then 0 else CharBytes(s[0]) + Utf8Len(s[1..])
  }

  /** On ASCII text Go's byte length is the character count. */
  lemma {:induction false} AsciiLen(s: string)
    requires forall i :: 0 <= i < |s| ==> s[i] as int < 0x80
    ensures Utf8Len(s) == |s|
  {
    if s != [] {
      AsciiLen(s[1..]);
    }
  }

  /** `maxLen` after the collection loop: the greatest byte length of a key, 0 without keys. */
  ghost function MaxLen(keys: set<string>): (m: nat)
    ensures forall k :: k in keys ==> Utf8Len(k) <= m
    ensures keys == {} ==> m == 0
    ensures keys != {} ==> exists k :: k in keys && Utf8Len(k) == m
    decreases |keys|
  {
    if keys == {} then 0
    else
      var k :| k in keys;
      var rest := MaxLen(keys - {k});
      if Utf8Len(k) >= rest then Utf8Len(k) else rest
  }

  /** A bound on all key lengths that is 0 or reached by a key is the maximum. */
  lemma MaxLenUnique(keys: set<string>, m: nat)
    requires forall k :: k in keys ==> Utf8Len(k) <= m
    requires m == 0 || exists k :: k in keys && Utf8Len(k) == m
    ensures m == MaxLen(keys)
  {
    var top := MaxLen(keys);
    if m != 0 {
      var k :| k in keys && Utf8Len(k) == m;
    }
    if keys != {} {
      var k :| k in keys && Utf8Len(k) == top;
    }
  }

  /** `%-Ns`: `s` left-aligned in a field of `w` characters; longer text is never cut. */
  function PadRight(s: string, w: nat): (r: string)
    ensures |r| == if |s| < w then w else |s|
    ensures r[..|s|] == s
    ensures forall i :: |s| <= i < |r| ==> r[i] == ' '
  {
    if |s| < w then s + Spaces(w - |s|) else s
  }

  /** One listing line: the padded path, the separator, the size text and a newline. */
  function Line(p: string, w: nat, size: nat, align: bool): string
  {
    PadRight(p, w) + " -- " + FmtMegs(size, align) + "\n"
  }

  /** The field width of the listing, `maxLen + 1`, with `maxLen` zeroed when alignment is off. */
  ghost function Width(cfg: Config, t: Table): nat
  {
    (if cfg.align then MaxLen(t.Keys) else 0) + 1
  }

  /** Everything the report writes, one string per `Fprintln`/`Fprintf` call. */
  ghost function Report(cfg: Config, startDir: string, t: Table): seq<string>
  {
    if cfg.sum then [FmtMegs(Lookup(t, startDir), cfg.align) + "\n"]
    else
      var r := SortedDesc(t.Keys);
      var w := Width(cfg, t);
      seq(|r|, i requires 0 <= i < |r| => Line(r[i], w, Lookup(t, r[i]), cfg.align))
  }

  /**
   * The loop over the table: every key once, in whatever order the map
   * yields them, and the greatest key length.
   */
  method CollectPaths(t: Table) returns (paths: seq<string>, maxLen: nat)
    ensures forall k :: k in paths <==> k in t
    ensures |paths| == |t.Keys|
    ensures Distinct(paths)
    ensures maxLen == MaxLen(t.Keys)
  {
    paths := [];
    maxLen := 0;
    var rest := t.Keys;
    while rest != {}
      invariant rest <= t.Keys
      invariant forall k :: k in paths <==> k in t && k !in rest
      invariant |paths| + |rest| == |t.Keys|
      invariant Distinct(paths)
      invariant forall k :: k in paths ==> Utf8Len(k) <= maxLen
      invariant maxLen == 0 || exists k :: k in paths && Utf8Len(k) == maxLen
      decreases |rest|
    {
      var k :| k in rest;
      paths := paths + [k];
      if Utf8Len(k) > maxLen {
        maxLen := Utf8Len(k);
      }
      rest := rest - {k};
    }
    MaxLenUnique(t.Keys, maxLen);
  }

  /** The report step of the program, writing into `out` what the program prints. */
  method Render(cfg: Config, startDir: string, t: Table) returns (out: seq<string>)
    ensures out == Report(cfg, startDir, t)
  {
    if cfg.sum {
      return [FmtMegs(Lookup(t, startDir), cfg.align) + "\n"];
    }

    var paths, maxLen := CollectPaths(t);
    var a := new string[|paths|](i requires 0 <= i < |paths| => paths[i]);
    assert a[..] == paths;
    SortDescending(a);

    if !cfg.align {
      maxLen := 0;
    }

    var sorted := a[..];
    SortedPaths(t, paths, sorted);
    out := WriteLines(sorted, maxLen + 1, t, cfg.align);
    ListingIsReport(cfg, startDir, t, sorted, maxLen + 1, out);
  }

  /** The printing loop: one line per path, in the order given. */
  method WriteLines(paths: seq<string>, w: nat, t: Table, align: bool) returns (out: seq<string>)
    ensures |out| == |paths|
    ensures forall k :: 0 <= k < |paths| ==> out[k] == Line(paths[k], w, Lookup(t, paths[k]), align)
  {
    out := [];
    for i := 0 to |paths|
      invariant |out| == i
      invariant forall k :: 0 <= k < i ==> out[k] == Line(paths[k], w, Lookup(t, paths[k]), align)
    {
      out := out + [Line(paths[i], w, Lookup(t, paths[i]), align)];
    }
  }

  lemma ListingIsReport(cfg: Config, startDir: string, t: Table, sorted: seq<string>, w: nat, out: seq<string>)
    requires !cfg.sum && sorted == SortedDesc(t.Keys) && w == Width(cfg, t) && |out| == |sorted|
    requires forall k :: 0 <= k < |sorted| ==> out[k] == Line(sorted[k], w, Lookup(t, sorted[k]), cfg.align)
    ensures out == Report(cfg, startDir, t)
  {
  }

  /** The sorted copy of the collected keys is the descending order of the table's keys. */
  lemma SortedPaths(t: Table, paths: seq<string>, sorted: seq<string>)
    requires forall k :: k in paths <==> k in t
    requires Distinct(paths)
    requires NonIncreasing(sorted) && multiset(sorted) == multiset(paths)
    ensures sorted == SortedDesc(t.Keys)
  {
    PermutationDistinct(sorted, paths);
    DistinctDescending(sorted);
    forall x
      ensures x in sorted <==> x in SortedDesc(t.Keys)
    {
      assert x in sorted <==> x in multiset(sorted);
      assert x in paths <==> x in multiset(paths);
    }
    DescendingUnique(sorted, SortedDesc(t.Keys));
  }

  // ---------------------------------------------------------------------------
  // What the printed report looks like

  /** In sum mode one line is printed, and its size reads back as the root's recorded total. */
  lemma SumLine(cfg: Config, startDir: string, t: Table)
    requires cfg.sum
    ensures |Report(cfg, startDir, t)| == 1
    ensures var L := Report(cfg, startDir, t)[0];
      && L[|L| - 1] == '\n'
      && ParseCents(L[..|L| - 1]) == Some(Cents(Lookup(t, startDir)))
  {
    var L := Report(cfg, startDir, t)[0];
    assert L[..|L| - 1] == FmtMegs(Lookup(t, startDir), cfg.align);
    FmtMegsReadsBack(Lookup(t, startDir), cfg.align);
  }

  /** Otherwise there is one line per recorded path, in descending order of paths. */
  lemma ListingLength(cfg: Config, startDir: string, t: Table)
    requires !cfg.sum
    ensures |Report(cfg, startDir, t)| == |t.Keys| == |SortedDesc(t.Keys)|
  {
  }

  /** Every key is at most as long as the field, so the padded path fills exactly the field. */
  lemma FieldFits(cfg: Config, t: Table, p: string)
    requires cfg.align && p in t
    ensures |p| < Width(cfg, t)
  {
  }

  /**
   * A line is the path padded to the field (or left whole when longer), the
   * separator, the size text reading back as the size, and a newline.
   */
  lemma LineLayout(p: string, w: nat, n: nat, align: bool)
    ensures Shows(Line(p, w, n, align), Column(p, w), p, n)
    ensures align && Cents(n) < 10000000 ==> |Line(p, w, n, align)| == Column(p, w) + 16
  {
    var L := Line(p, w, n, align);
    var col := Column(p, w);
    var pad := PadRight(p, w);
    var size := FmtMegs(n, align);
    assert L == pad + " -- " + size + "\n";
    assert pad == p + Spaces(col - |p|);
    assert L[..col] == pad;
    assert L[col..col + 4] == " -- ";
    assert L[col + 4..|L| - 1] == size;
    FmtMegsReadsBack(n, align);
    FmtMegsWidth(n);
  }

  /** Where the separator starts in a line for path `p` and field width `w`. */
  function Column(p: string, w: nat): nat
  {
    if |p| < w then w else |p|
  }

  /**
   * `line` shows path `p` padded with spaces to column `col`, then " -- ",
   * then a size text that reads back as the hundredths of `n` bytes in
   * megabytes, then a newline.
   */
  predicate Shows(line: string, col: nat, p: string, n: nat)
  {
    && |p| <= col
    && |line| > col + 4
    && line[..col] == p + Spaces(col - |p|)
    && line[col..col + 4] == " -- "
    && ParseCents(line[col + 4..|line| - 1]) == Some(Cents(n))
    && line[|line| - 1] == '\n'
  }

  /** Line `i` of a listing is the line for the `i`-th path in descending order. */
  lemma ReportAt(cfg: Config, startDir: string, t: Table, i: nat)
    requires !cfg.sum && i < |SortedDesc(t.Keys)|
    ensures |Report(cfg, startDir, t)| == |SortedDesc(t.Keys)|
    ensures Report(cfg, startDir, t)[i] ==
            Line(SortedDesc(t.Keys)[i], Width(cfg, t), Lookup(t, SortedDesc(t.Keys)[i]), cfg.align)
  {
  }

  /**
   * Line `i` of the listing shows the `i`-th path in descending order and
   * its recorded size. With alignment on, the separator is at the same
   * column, the field width, on every line.
   */
  lemma ListingLine(cfg: Config, startDir: string, t: Table, i: nat)
    requires !cfg.sum && i < |SortedDesc(t.Keys)|
    ensures SortedDesc(t.Keys)[i] in t
    ensures cfg.align ==> Column(SortedDesc(t.Keys)[i], Width(cfg, t)) == Width(cfg, t)
    ensures Shows(Report(cfg, startDir, t)[i], Column(SortedDesc(t.Keys)[i], Width(cfg, t)),
                  SortedDesc(t.Keys)[i], t[SortedDesc(t.Keys)[i]])
  {
    var r := SortedDesc(t.Keys);
    var p := r[i];
    var w := Width(cfg, t);
    var n := Lookup(t, p);
    assert p in r && n == t[p];
    ReportAt(cfg, startDir, t, i);
    if cfg.align {
      FieldFits(cfg, t, p);
    }
    LineLayout(p, w, n, cfg.align);
  }

  /**
   * With alignment on and every printed value below 100000.00 MB, all lines have the
   * same length: paths and sizes each form one column.
   */
  lemma ListingColumns(cfg: Config, startDir: string, t: Table)
    requires !cfg.sum && cfg.align
    requires forall p :: p in t ==> Cents(t[p]) < 10000000
    ensures forall L :: L in Report(cfg, startDir, t) ==> |L| == Width(cfg, t) + 16
  {
    var r := SortedDesc(t.Keys);
    forall L | L in Report(cfg, startDir, t)
      ensures |L| == Width(cfg, t) + 16
    {
      var i :| 0 <= i < |r| && L == Report(cfg, startDir, t)[i];
      var p := r[i];
      var n := Lookup(t, p);
      assert p in r && n == t[p];
      ReportAt(cfg, startDir, t, i);
      FieldFits(cfg, t, p);
      LineLayout(p, Width(cfg, t), n, cfg.align);
    }
  }
}
