/**
 * `FileProcessor` of Program.cs: the ordered counter registry, the
 * first-match lookup, the extension filter over the folder listing and
 * the report written for one folder. The filesystem is given as inputs:
 * whether the folder exists, and its listing as a sequence of entries
 * in the order the operating system returned them.
 */
module FolderReport {
  import opened Options
  import opened TextFormat
  import opened RowCounters

  /**
   * One entry of the folder listing: the file name (`Path.GetFileName`),
   * its extension with the dot (`Path.GetExtension`), and what the
   * parsing library yields for it.
   */
  datatype FileEntry = FileEntry(name: string, ext: string, parse: Parse)

  const NameWidth: nat := 40
  const CountWidth: nat := 10
  const RuleWidth: nat := 55
  const FolderNotFound := "Folder not found."
  const NotApplicable := "N/A"
  const ErrorValue := "ERROR"

  /** The registry built by the constructor, in priority order. */
  const DefaultCounters: seq<Counter> := [Csv, Excel]

  /**
   * `_counters.Any(c => c.CanHandle(ext))`: an empty registry claims
   * nothing, and no registry claims more than a dot and three or four
   * characters.
   */
  predicate AnyHandles(counters: seq<Counter>, ext: string): (r: bool)
    ensures counters == [] ==> !r
    ensures r ==> (|ext| == 4 || |ext| == 5) && ext[0] == '.'
  {
    exists c :: c in counters && CanHandle(c, ext)
  }

  /** `i` is the position of the first counter in the registry that claims `ext`. */
  ghost predicate FirstClaim(counters: seq<Counter>, ext: string, i: int)
  {
    0 <= i < |counters| && CanHandle(counters[i], ext) &&
    forall j :: 0 <= j < i ==> !CanHandle(counters[j], ext)
  }

  /** `_counters.FirstOrDefault(c => c.CanHandle(ext))`, with `None` for null. */
  function Find(counters: seq<Counter>, ext: string): (r: Option<Counter>)
    ensures r.None? <==> !AnyHandles(counters, ext)
    ensures r.Some? ==> exists i :: FirstClaim(counters, ext, i) && counters[i] == r.value
  {
    if counters == [] then None
    else if CanHandle(counters[0], ext) then
      assert FirstClaim(counters, ext, 0);
      Some(counters[0])
    else
      var r := Find(counters[1..], ext);
      assert forall i :: FirstClaim(counters[1..], ext, i) ==> FirstClaim(counters, ext, i + 1);
      r
  }

  /** With the default registry a counter is found exactly when it claims the extension. */
  lemma DefaultFind(ext: string, c: Counter)
    ensures Find(DefaultCounters, ext) == Some(c) <==> CanHandle(c, ext)
  {
    ClaimsDisjoint(ext);
    var r := Find(DefaultCounters, ext);
    if r.Some? {
      var i :| FirstClaim(DefaultCounters, ext, i) && DefaultCounters[i] == r.value;
    }
    assert CanHandle(c, ext) ==> c in DefaultCounters;
  }

  /** The listing filtered to the files some counter claims: the LINQ `Where`. */
  function Filter(counters: seq<Counter>, files: seq<FileEntry>): (r: seq<FileEntry>)
    ensures |r| <= |files|
  {
    if files == [] then []
    else
      (if AnyHandles(counters, files[0].ext) then [files[0]] else [])
      + Filter(counters, files[1..])
  }

  lemma FilterCons(counters: seq<Counter>, f: FileEntry, rest: seq<FileEntry>)
    ensures Filter(counters, [f] + rest) ==
      (if AnyHandles(counters, f.ext) then [f] else []) + Filter(counters, rest)
  {
    assert ([f] + rest)[1..] == rest;
  }

  /** Every entry that survives filtering has its extension claimed by some counter. */
  lemma {:induction false} FilterClaimed(counters: seq<Counter>, files: seq<FileEntry>, k: int)
    requires 0 <= k < |Filter(counters, files)|
    ensures AnyHandles(counters, Filter(counters, files)[k].ext)
  {
    if !AnyHandles(counters, files[0].ext) {
      FilterClaimed(counters, files[1..], k);
    } else if k > 0 {
      FilterClaimed(counters, files[1..], k - 1);
    }
  }

  /** Filtering keeps each claimed entry as often as it is listed, and drops the rest. */
  lemma {:induction false} FilterCounts(counters: seq<Counter>, files: seq<FileEntry>, f: FileEntry)
    ensures multiset(Filter(counters, files))[f] ==
      if AnyHandles(counters, f.ext) then multiset(files)[f] else 0
  {
    if files != [] {
      var rest := files[1..];
      FilterCounts(counters, rest, f);
      var head := if AnyHandles(counters, files[0].ext) then [files[0]] else [];
      assert multiset(Filter(counters, files)) == multiset(head) + multiset(Filter(counters, rest));
      assert files == [files[0]] + rest;
      assert multiset(files) == multiset([files[0]]) + multiset(rest);
    }
  }

  /** Filtering preserves the listing order: it distributes over concatenation. */
  lemma {:induction false} FilterAppend(counters: seq<Counter>, a: seq<FileEntry>, b: seq<FileEntry>)
    ensures Filter(counters, a + b) == Filter(counters, a) + Filter(counters, b)
  {
    if a != [] {
      FilterAppend(counters, a[1..], b);
      assert (a + b)[1..] == a[1..] + b;
    } else {
      assert a + b == b;
    }
  }

  /** With the default registry, the filtered listing holds exactly the CSV and Excel files. */
  lemma DefaultFilterMembers(files: seq<FileEntry>, f: FileEntry)
    ensures f in Filter(DefaultCounters, files) <==>
      f in files && (CanHandle(Csv, f.ext) || CanHandle(Excel, f.ext))
  {
    FilterCounts(DefaultCounters, files, f);
    assert CanHandle(Csv, f.ext) ==> Csv in DefaultCounters;
    assert CanHandle(Excel, f.ext) ==> Excel in DefaultCounters;
  }

  /**
   * One report line: `{0,-40} | {1,10}` applied to a file name and a value.
   * Its width is that of the two padded columns and the separator;
   * `LineLayout` gives the full layout.
   */
  function Line(name: string, value: string): (r: string)
    ensures |r| == Max(|name|, NameWidth) + 3 + Max(|value|, CountWidth)
  {
    PadRight(name, NameWidth) + " | " + PadLeft(value, CountWidth)
  }

  /** The header line: the two column titles laid out as every file line. */
  const Header: string := Line("File", "Count")

  /** The rule under the header, `new string('-', 55)`. */
  const Rule: string := Repeat('-', RuleWidth)

  /** The layout of a line: name, spaces, ` | `, spaces, value; nothing truncated. */
  lemma LineLayout(name: string, value: string)
    ensures var line := Line(name, value);
      var w := Max(|name|, NameWidth);
      && |line| == w + 3 + Max(|value|, CountWidth)
      && line[..|name|] == name
      && (forall i :: |name| <= i < w ==> line[i] == ' ')
      && line[w..w + 3] == " | "
      && (forall i :: w + 3 <= i < |line| - |value| ==> line[i] == ' ')
      && line[|line| - |value|..] == value
  {
    var left, right := PadRight(name, NameWidth), PadLeft(value, CountWidth);
    var line := Line(name, value);
    assert line == left + " | " + right;
    assert line[..|name|] == left[..|name|];
    assert line[|left|..|left| + 3] == " | ";
    assert line[|line| - |value|..] == right[|right| - |value|..];
  }

  /** The header is 53 characters wide while the rule under it is 55 dashes. */
  lemma HeaderAndRuleWidths()
    ensures |Header| == 53 && Header[..4] == "File" && Header[|Header| - 5..] == "Count"
    ensures |Rule| == 55 && forall i :: 0 <= i < |Rule| ==> Rule[i] == '-'
  {
    LineLayout("File", "Count");
  }

  /** The value column for a file: the count, `ERROR` when counting failed, `N/A` when nothing claims it. */
  function Value(counters: seq<Counter>, f: FileEntry): (r: string)
    ensures r == NotApplicable <==> !AnyHandles(counters, f.ext)
    ensures r == ErrorValue <==> AnyHandles(counters, f.ext) && f.parse.Fault?
  {
    match Find(counters, f.ext)
    case None => NotApplicable
    case Some(c) =>
      match CountRows(c, f.parse)
      case Counted(n) =>
        assert IntToString(n)[0] != NotApplicable[0] && IntToString(n)[0] != ErrorValue[0];
        IntToString(n)
      case Failed => ErrorValue
  }

  /** With the default registry, a claimed file shows what its claiming counter reports. */
  lemma DefaultValue(f: FileEntry, c: Counter)
    requires CanHandle(c, f.ext)
    ensures Value(DefaultCounters, f) ==
      match CountRows(c, f.parse)
      case Counted(n) => IntToString(n)
      case Failed => ErrorValue
  {
    DefaultFind(f.ext, c);
  }

  /** The line written for each file, in order. */
  function FileLines(counters: seq<Counter>, files: seq<FileEntry>): seq<string>
  {
    seq(|files|, k requires 0 <= k < |files| => Line(files[k].name, Value(counters, files[k])))
  }

  lemma FileLinesAppend(counters: seq<Counter>, a: seq<FileEntry>, b: seq<FileEntry>)
    ensures FileLines(counters, a + b) == FileLines(counters, a) + FileLines(counters, b)
  {
  }

  /** Everything `ProcessFolder` writes to the console, line by line. */
  function Report(counters: seq<Counter>, folderExists: bool, listing: seq<FileEntry>): (r: seq<string>)
    ensures |r| == if folderExists then 2 + |Filter(counters, listing)| else 1
    ensures r[0] == if folderExists then Header else FolderNotFound
  {
    if !folderExists then [FolderNotFound]
    else [Header, Rule] + FileLines(counters, Filter(counters, listing))
  }

  /** A missing folder yields the one diagnostic line and nothing else. */
  lemma MissingFolder(counters: seq<Counter>, listing: seq<FileEntry>)
    ensures Report(counters, false, listing) == [FolderNotFound]
  {
  }

  /** Every filtered file finds its counter again, so `N/A` is never written. */
  lemma NeverNotApplicable(counters: seq<Counter>, listing: seq<FileEntry>, k: int)
    requires 0 <= k < |Filter(counters, listing)|
    ensures Find(counters, Filter(counters, listing)[k].ext).Some?
    ensures Value(counters, Filter(counters, listing)[k]) != NotApplicable
  {
    FilterClaimed(counters, listing, k);
    var f := Filter(counters, listing)[k];
    var c := Find(counters, f.ext).value;
    match CountRows(c, f.parse)
    case Counted(n) => assert IntToString(n)[0] != NotApplicable[0];
    case Failed =>
  }

  /**
   * For a filtered file, the value column is `ERROR` exactly when its
   * counting failed, and otherwise reads back as the counter's result.
   */
  lemma FileValue(counters: seq<Counter>, f: FileEntry)
    requires AnyHandles(counters, f.ext)
    ensures Value(counters, f) == ErrorValue <==> f.parse.Fault?
    ensures f.parse.Parsed? ==>
      ParseInt(Value(counters, f)) == Some(CountRows(Find(counters, f.ext).value, f.parse).n)
  {
    var c := Find(counters, f.ext).value;
    var r := CountRows(c, f.parse);
    if r.Counted? {
      IntToStringRoundTrip(r.n);
      assert IntToString(r.n)[0] != ErrorValue[0];
    }
  }

  /**
   * One line per filtered file, failures included: the line of the `k`-th
   * filtered file shows `ERROR` exactly when its counting failed, whatever
   * happened to the files before it.
   */
  lemma FailedFileLine(counters: seq<Counter>, listing: seq<FileEntry>, k: int)
    requires 0 <= k < |Filter(counters, listing)|
    ensures var out := Report(counters, true, listing);
      var f := Filter(counters, listing)[k];
      && |out| == 2 + |Filter(counters, listing)|
      && (out[2 + k] == Line(f.name, ErrorValue) <==> f.parse.Fault?)
  {
    FilterClaimed(counters, listing, k);
    var f := Filter(counters, listing)[k];
    var v := Value(counters, f);
    var out := Report(counters, true, listing);
    assert out[2 + k] == Line(f.name, v);
    FileValue(counters, f);
    if f.parse.Parsed? {
      var n := CountRows(Find(counters, f.ext).value, f.parse).n;
      assert v == IntToString(n);
      LineLayout(f.name, v);
      LineLayout(f.name, ErrorValue);
      var line, bad := Line(f.name, v), Line(f.name, ErrorValue);
      assert line[|line| - 1] == v[|v| - 1];
      assert bad[|bad| - 1] == 'R';
    }
  }

  /** Processing an extended listing appends the new files' lines after the old report. */
  lemma ReportAppend(counters: seq<Counter>, a: seq<FileEntry>, b: seq<FileEntry>)
    ensures Report(counters, true, a + b) ==
      Report(counters, true, a) + FileLines(counters, Filter(counters, b))
  {
    FilterAppend(counters, a, b);
    var fa, fb := Filter(counters, a), Filter(counters, b);
    FileLinesAppend(counters, fa, fb);
    var top, la, lb := [Header, Rule], FileLines(counters, fa), FileLines(counters, fb);
    assert Report(counters, true, a + b) == top + FileLines(counters, fa + fb);
    assert top + (la + lb) == (top + la) + lb;
  }

  /** `FileProcessor`: the registry is fixed at construction and never changed. */
  class FileProcessor {
    const counters: seq<Counter>

    constructor ()
      ensures counters == DefaultCounters
    {
      counters := [Csv, Excel];
    }

    /**
     * The body of the per-file loop: look the counter up again, count,
     * and format the line; a throwing count is caught and shows `ERROR`.
     * The function `Value` is its specification.
     */
    method ProcessFile(file: FileEntry) returns (line: string)
      ensures line == Line(file.name, Value(counters, file))
    {
      var counter := Find(counters, file.ext);
      if counter.Some? {
        var result := CountRows(counter.value, file.parse);
        if result.Counted? {
          line := Line(file.name, IntToString(result.n));
        } else {
          line := Line(file.name, ErrorValue);
        }
      } else {
        line := Line(file.name, NotApplicable);
      }
    }

    /**
     * `ProcessFolder`: the diagnostic line for a missing folder; otherwise
     * the header, the rule and, per filtered file, its count, `ERROR` when
     * counting throws (and the loop carries on), or `N/A` when no counter
     * is found on the second lookup.
     */
    method ProcessFolder(folderExists: bool, listing: seq<FileEntry>) returns (output: seq<string>)
      ensures output == Report(counters, folderExists, listing)
    {
      if !folderExists {
        output := [FolderNotFound];
        return;
      }
      var files := Filter(counters, listing);
      output := [Header];
      output := output + [Rule];
      for i := 0 to |files|
        invariant output == [Header, Rule] + FileLines(counters, files[..i])
      {
        var file := files[i];
        var line := ProcessFile(file);
        assert files[..i + 1] == files[..i] + [file];
        FileLinesAppend(counters, files[..i], [file]);
        assert FileLines(counters, [file]) == [line];
        output := output + [line];
      }
      assert files[..|files|] == files;
    }
  }
}
